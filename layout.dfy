/**
 * The caption layout decision of drawText and get2LineText in main.go: how many
 * code points fit on one caption row, and whether a text is drawn on one row,
 * split over two rows, or refused.
 */
module Layout {
  import opened Text

  /** The ideographic full stop at which a long caption is split. */
  const EndPunctuation: string := "。"

  /** The panic message for a text that does not fit on two rows. */
  const TooLongMessage: string := "too long 1 line text:"

  function Abs(x: int): nat {
    if x < 0 then -x else x
  }

  /** Go's integer division, which truncates toward zero. */
  function Quo(a: int, b: int): (q: int)
    requires b != 0
    ensures 0 <= a && 0 < b ==> q == a / b
  {
    var m := Abs(a) / Abs(b);
    if (a < 0) == (b < 0) then m else -m
  }

  /**
   * The remainder `a - Quo(a, b) * b` is smaller than the divisor in magnitude and
   * is zero or has the sign of the dividend: the quotient is truncated toward zero,
   * as Go's `/` on integers is, not floored.
   */
  lemma QuoTruncates(a: int, b: int)
    requires b != 0
    ensures var r := a - Quo(a, b) * b;
      Abs(r) < Abs(b) && (r == 0 || (r < 0) == (a < 0))
  {
    var m, rem := Abs(a) / Abs(b), Abs(a) % Abs(b);
    assert Abs(a) == m * Abs(b) + rem && 0 <= rem < Abs(b);
    assert Quo(a, b) * b == (if a < 0 then -(m * Abs(b)) else m * Abs(b));
  }

  /**
   * The character size, int(float64(height) / 6): the height of one of six caption
   * bands, truncated toward zero, so it is zero exactly for heights strictly
   * between -6 and 6.
   */
  function CharSize(height: int): (c: int)
    ensures height >= 0 ==> 6 * c <= height < 6 * c + 6
    ensures height < 0 ==> 6 * c - 6 < height <= 6 * c
    ensures c == 0 <==> -6 < height < 6
  {
    QuoTruncates(height, 6);
    Quo(height, 6)
  }

  /** A truncated quotient of non-negative by positive numbers is the floor: `q` whole divisors fit, `q + 1` do not. */
  lemma QuoFloor(a: int, b: int)
    requires 0 <= a && 0 < b
    ensures var q := Quo(a, b); 0 <= q && 0 <= a - q * b < b
  {
    var q := Quo(a, b);
    assert q == a / b;
    assert a - q * b == a % b;
  }

  /**
   * How many code points fit on one row: the most characters of the character size
   * whose total width stays within four fifths of the canvas width.
   */
  function MaxWidthChar(width: int, height: int): (m: int)
    requires CharSize(height) != 0
    ensures width >= 0 && CharSize(height) > 0 ==>
      var c, room := CharSize(height), Quo(width * 4, 5);
      && 5 * room <= 4 * width < 5 * room + 5
      && 0 <= m && 0 <= room - m * c < c
  {
    if width >= 0 && CharSize(height) > 0 then
      QuoFloor(width * 4, 5);
      QuoFloor(Quo(width * 4, 5), CharSize(height));
      Quo(Quo(width * 4, 5), CharSize(height))
    else
      Quo(Quo(width * 4, 5), CharSize(height))
  }

  datatype Rejection =
    | ZeroCharSize            // int(height / 6) is 0: the integer division panics
    | TooLong(message: string) // more than two rows' worth of code points: drawText panics

  datatype Layout =
    | Single(line: string)
    | TwoLine(line1: string, line2: string)
    | Rejected(reason: Rejection)

  /**
   * get2LineText: split after the first full stop. Without a full stop the whole
   * text is the first line and the second is empty; `maxChar` is not consulted.
   */
  function TwoLineText(text: string, maxChar: int): (lines: (string, string))
    ensures lines.0 + lines.1 == text
    ensures Contains(text, EndPunctuation) ==>
      && HasSuffix(lines.0, EndPunctuation)
      && !Contains(lines.0[..|lines.0| - |EndPunctuation|], EndPunctuation)
    ensures !Contains(text, EndPunctuation) ==> lines == (text, "")
  {
    if Contains(text, EndPunctuation) then
      var parts := SplitFirst(text, EndPunctuation);
      var line1 := parts[0] + EndPunctuation;
      assert line1[..|line1| - |EndPunctuation|] == parts[0];
      (line1, parts[1])
    else
      (text, "")
  }

  /** The layout decision of drawText. */
  function Plan(text: string, width: int, height: int): (r: Layout)
    ensures r == Rejected(ZeroCharSize) <==> CharSize(height) == 0
    ensures CharSize(height) != 0 ==>
      && (r.Single? <==> |text| < MaxWidthChar(width, height))
      && (r.Rejected? <==> |text| > 2 * MaxWidthChar(width, height))
      && (r.TwoLine? <==> MaxWidthChar(width, height) <= |text| <= 2 * MaxWidthChar(width, height))
    ensures r.Single? ==> r.line == text
    ensures r.TwoLine? ==> r.line1 + r.line2 == text
    ensures r.Rejected? && r.reason.TooLong? ==> r.reason.message == TooLongMessage + text
  {
    if CharSize(height) == 0 then Rejected(ZeroCharSize)
    else
      var maxWidthChar := MaxWidthChar(width, height);
      if |text| < maxWidthChar then Single(text)
      else if |text| > maxWidthChar * 2 then Rejected(TooLong(TooLongMessage + text))
      else
        var (line1, line2) := TwoLineText(text, maxWidthChar);
        TwoLine(line1, line2)
  }

  /** The rows at the capacity and at twice the capacity are both drawn on two lines. */
  lemma BoundariesAreTwoLine(text: string, width: int, height: int)
    requires CharSize(height) != 0
    requires |text| == MaxWidthChar(width, height) || |text| == 2 * MaxWidthChar(width, height)
    ensures Plan(text, width, height).TwoLine?
  {
  }

  /** A refusal for length quotes the whole text at the end of its panic message. */
  lemma RefusalQuotesText(text: string, width: int, height: int)
    requires Plan(text, width, height).Rejected? && Plan(text, width, height).reason.TooLong?
    ensures HasSuffix(Plan(text, width, height).reason.message, text)
  {
    var message := Plan(text, width, height).reason.message;
    assert message[|message| - |text|..] == text;
  }

  /**
   * Without a full stop the two-row fallback puts the whole text on the first
   * row, so that row holds at least as many code points as were too many for a
   * single row.
   */
  lemma FallbackFirstRowOverflows(text: string, width: int, height: int)
    requires CharSize(height) != 0
    requires !Contains(text, EndPunctuation)
    requires Plan(text, width, height).TwoLine?
    ensures Plan(text, width, height) == TwoLine(text, "")
    ensures |Plan(text, width, height).line1| >= MaxWidthChar(width, height)
  {
  }

  /** With a full stop the first row ends at the first full stop and the second holds the rest. */
  lemma SplitsAtFirstFullStop(text: string, width: int, height: int)
    requires Contains(text, EndPunctuation)
    requires Plan(text, width, height).TwoLine?
    ensures var i := Index(text, EndPunctuation);
      Plan(text, width, height) == TwoLine(text[..i] + EndPunctuation, text[i + 1..])
  {
  }

  /** On a 1280 x 720 canvas a row holds 8 code points. */
  lemma CapacityExample()
    ensures CharSize(720) == 120 && MaxWidthChar(1280, 720) == 8
  {
  }

  lemma NoFullStopIn(text: string)
    requires text == "おはようございます"
    ensures !Contains(text, EndPunctuation)
  {
    CharIndex(text, '。');
  }

  /** Nine code points without a full stop on a 1280 x 720 canvas: the whole text on the first row. */
  lemma NoFullStopExample(text: string)
    requires text == "おはようございます"
    ensures Plan(text, 1280, 720) == TwoLine("おはようございます", "")
  {
    CapacityExample();
    NoFullStopIn(text);
    assert |text| == 9;
    FallbackFirstRowOverflows(text, 1280, 720);
  }

  lemma FirstFullStopAtSeven(text: string)
    requires text == "今日は晴れです。でも寒い"
    ensures Contains(text, EndPunctuation) && Index(text, EndPunctuation) == 7
  {
    assert HasPrefix(text[7..], EndPunctuation);
    forall j | 0 <= j < 7
      ensures !HasPrefix(text[j..], EndPunctuation)
    {
      assert text[j..][0] == text[j];
    }
  }

  /** Twelve code points with a full stop: split after it. */
  lemma FullStopExample(text: string)
    requires text == "今日は晴れです。でも寒い"
    ensures Plan(text, 1280, 720) == TwoLine("今日は晴れです。", "でも寒い")
  {
    CapacityExample();
    FirstFullStopAtSeven(text);
    assert |text| == 12;
    SplitsAtFirstFullStop(text, 1280, 720);
    assert text[..7] + EndPunctuation == "今日は晴れです。";
    assert text[8..] == "でも寒い";
  }
}
