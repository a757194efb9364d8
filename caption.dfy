/**
 * What createImage and drawText put on a caption canvas, without the pixels:
 * the speaker colour, the optional portrait square and the text rows with the
 * band of the canvas their baseline sits on.
 */
module Caption {
  import opened Options
  import opened Text
  import opened Layout

  datatype Color = Color(red: int, green: int, blue: int)

  /** A portrait resized to a `side` x `side` square with its top-left corner at (left, top). */
  datatype Portrait = Portrait(path: string, side: int, left: int, top: int)

  /** A row of text whose baseline is `band` sixths of the canvas height from the top. */
  datatype TextRow = TextRow(text: string, band: nat)

  /** A transparent canvas of the given size with the portrait drawn first and the rows over it. */
  datatype Caption = Caption(width: int, height: int, color: Color, portrait: Option<Portrait>, rows: seq<TextRow>)

  /** Voice.Rgb[voiceIndex][0..2]; None where that indexing would panic. */
  function ColorOf(rgb: seq<seq<int>>, voiceIndex: nat): (c: Option<Color>)
    ensures c.Some? <==> voiceIndex < |rgb| && |rgb[voiceIndex]| >= 3
    ensures c.Some? ==> [c.value.red, c.value.green, c.value.blue] == rgb[voiceIndex][..3]
  {
    if voiceIndex < |rgb| && |rgb[voiceIndex]| >= 3 then
      Some(Color(rgb[voiceIndex][0], rgb[voiceIndex][1], rgb[voiceIndex][2]))
    else None
  }

  /**
   * The portrait of createImage: drawn exactly when the voice has an entry in
   * Voice.Images, as a square a fifth of the canvas width wide, at the left edge,
   * a twelfth of the canvas height down.
   */
  function PlacePortrait(images: seq<string>, voiceIndex: nat, width: int, height: int): (p: Option<Portrait>)
    ensures p.Some? <==> voiceIndex < |images|
    ensures p.Some? ==>
      && p.value.path == images[voiceIndex]
      && p.value.left == 0 && p.value.top == Quo(height, 12)
      && p.value.side == Quo(width, 5)
  {
    if |images| > voiceIndex then
      Some(Portrait(images[voiceIndex], Quo(width, 5), 0, Quo(height, 12)))
    else None
  }

  /**
   * The portrait never reaches into the text: its right edge, a fifth of the
   * width, lies left of the text's left edge at 0.22 of the width.
   */
  lemma PortraitLeftOfText(images: seq<string>, voiceIndex: nat, width: int, height: int)
    requires width >= 0
    requires voiceIndex < |images|
    ensures var p := PlacePortrait(images, voiceIndex, width, height).value;
      p.left + p.side >= 0 && (p.left + p.side) * 100 <= 22 * width
  {
    var side := Quo(width, 5);
    assert side == width / 5;
    assert side * 5 <= width;
  }

  /** The rows drawText draws: one row on band 3, or two rows on bands 2 and 4. */
  function Rows(plan: Layout): (rows: seq<TextRow>)
    ensures plan.Rejected? <==> rows == []
  {
    match plan
    case Single(line) => [TextRow(line, 3)]
    case TwoLine(line1, line2) => [TextRow(line1, 2), TextRow(line2, 4)]
    case Rejected(_) => []
  }

  function RowsText(rows: seq<TextRow>): string {
    if rows == [] then "" else rows[0].text + RowsText(rows[1..])
  }

  /** The rows of a layout spell out its lines, top row first, on strictly lower bands. */
  lemma RowsOfLayout(plan: Layout)
    ensures RowsText(Rows(plan)) == match plan
      case Single(line) => line
      case TwoLine(line1, line2) => line1 + line2
      case Rejected(_) => ""
    ensures var rows := Rows(plan);
      forall i, j :: 0 <= i < j < |rows| ==> rows[i].band < rows[j].band
  {
    var rows := Rows(plan);
    if |rows| == 2 {
      assert rows[1..][1..] == [];
      assert RowsText(rows[1..]) == rows[1].text;
    } else if |rows| == 1 {
      assert rows[1..] == [];
    }
  }

  /**
   * The rows of an accepted plan spell out the whole text, top row first: a text
   * shorter than a row's capacity sits alone on band 3; a longer one is split over
   * bands 2 and 4, after the first full stop when there is one and otherwise with
   * the whole text on band 2 and nothing on band 4.
   */
  lemma RowsSpellText(text: string, width: int, height: int)
    requires !Plan(text, width, height).Rejected?
    ensures var rows := Rows(Plan(text, width, height));
      && RowsText(rows) == text
      && (forall i, j :: 0 <= i < j < |rows| ==> rows[i].band < rows[j].band)
      && (|rows| == 1 <==> |text| < MaxWidthChar(width, height))
      && (|rows| == 1 ==> rows == [TextRow(text, 3)])
      && (|rows| == 2 ==> rows[0].band == 2 && rows[1].band == 4)
      && (|rows| == 2 && Contains(text, EndPunctuation) ==>
            var i := Index(text, EndPunctuation);
            rows == [TextRow(text[..i] + EndPunctuation, 2), TextRow(text[i + 1..], 4)])
      && (|rows| == 2 && !Contains(text, EndPunctuation) ==> rows == [TextRow(text, 2), TextRow("", 4)])
  {
    var plan := Plan(text, width, height);
    RowsOfLayout(plan);
    if plan.TwoLine? && Contains(text, EndPunctuation) {
      SplitsAtFirstFullStop(text, width, height);
    }
  }
}
