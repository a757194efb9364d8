/**
 * Speaker resolution: the inner loop of the job loop in main.go, which tries
 * every configured line-prefix marker in order, records the position of each
 * marker that the line starts with and removes that marker from the line.
 * The line is reassigned inside the loop, so each marker is tested against the
 * text left by the markers before it, and the last marker that matched decides
 * the voice.
 */
module Speaker {
  import opened Text

  datatype Resolution = Resolution(voiceIndex: nat, text: string)

  /** The loop's state after the first `n` markers have been tried. */
  function ResolveUpTo(line: string, markers: seq<string>, n: nat): (r: Resolution)
    requires n <= |markers|
    ensures |r.text| <= |line|
    ensures r.voiceIndex == 0 || r.voiceIndex < n
    decreases n
  {
    if n == 0 then Resolution(0, line)
    else
      var prev := ResolveUpTo(line, markers, n - 1);
      var marker := markers[n - 1];
      if HasPrefix(prev.text, marker) then Resolution(n - 1, prev.text[|marker|..])
      else prev
  }

  /** The voice index and display text of a line. */
  function Resolve(line: string, markers: seq<string>): (r: Resolution)
    ensures |r.text| <= |line|
    ensures r.voiceIndex == 0 || r.voiceIndex < |markers|
  {
    ResolveUpTo(line, markers, |markers|)
  }

  /** Marker `j` matched: it was a prefix of the line as stripped by markers 0 .. j-1. */
  predicate Matches(line: string, markers: seq<string>, j: nat)
    requires j < |markers|
  {
    HasPrefix(ResolveUpTo(line, markers, j).text, markers[j])
  }

  /** The markers the loop removed from the front of the line, in the order it removed them. */
  function Removed(line: string, markers: seq<string>, n: nat): seq<string>
    requires n <= |markers|
  {
    if n == 0 then []
    else Removed(line, markers, n - 1) + (if Matches(line, markers, n - 1) then [markers[n - 1]] else [])
  }

  /**
   * The loop as the program runs it: `voiceIndex` and `text` are updated in place
   * marker by marker.
   */
  method ResolveSpeaker(line: string, markers: seq<string>) returns (voiceIndex: nat, text: string)
    ensures Resolution(voiceIndex, text) == Resolve(line, markers)
  {
    voiceIndex, text := 0, line;
    for index := 0 to |markers|
      invariant Resolution(voiceIndex, text) == ResolveUpTo(line, markers, index)
    {
      var replacer := markers[index];
      if HasPrefix(text, replacer) {
        voiceIndex := index;
        text := ReplaceFirst(text, replacer, "");
      }
    }
  }

  /** Appending a part to joined parts with no separator appends its text. */
  lemma {:induction false} JoinAppend(parts: seq<string>, last: string)
    ensures Join(parts + [last], "") == Join(parts, "") + last
  {
    var all := parts + [last];
    if |parts| == 1 {
      assert all[1..] == [last];
    } else if |parts| > 1 {
      assert all[1..] == parts[1..] + [last];
      JoinAppend(parts[1..], last);
    }
  }

  /** Removing one more marker keeps the line equal to the removed markers followed by the rest. */
  lemma StripOne(line: string, before: seq<string>, text: string, m: string)
    requires Join(before, "") + text == line
    requires HasPrefix(text, m)
    ensures Join(before + [m], "") + text[|m|..] == line
  {
    JoinAppend(before, m);
    assert text == m + text[|m|..];
  }

  /** The line is the removed markers, in order, followed by the resolved text. */
  lemma {:induction false} LineIsRemovedMarkersThenText(line: string, markers: seq<string>, n: nat)
    requires n <= |markers|
    ensures Join(Removed(line, markers, n), "") + ResolveUpTo(line, markers, n).text == line
  {
    if n > 0 {
      LineIsRemovedMarkersThenText(line, markers, n - 1);
      var prev := ResolveUpTo(line, markers, n - 1);
      if HasPrefix(prev.text, markers[n - 1]) {
        StripOne(line, Removed(line, markers, n - 1), prev.text, markers[n - 1]);
        assert Matches(line, markers, n - 1);
        assert Removed(line, markers, n) == Removed(line, markers, n - 1) + [markers[n - 1]];
      } else {
        assert !Matches(line, markers, n - 1);
        assert Removed(line, markers, n) == Removed(line, markers, n - 1);
        assert ResolveUpTo(line, markers, n) == prev;
      }
    }
  }

  /** The resolved text is what is left of the line: a suffix of it. */
  lemma ResolvedTextIsSuffix(line: string, markers: seq<string>)
    ensures HasSuffix(line, Resolve(line, markers).text)
  {
    var removed := Join(Removed(line, markers, |markers|), "");
    var text := Resolve(line, markers).text;
    LineIsRemovedMarkersThenText(line, markers, |markers|);
    assert line == removed + text;
    assert line[|line| - |text|..] == text;
  }

  /** When no marker matched, the voice is the default one and the line is untouched. */
  lemma {:induction false} NoMatchKeepsLine(line: string, markers: seq<string>, n: nat)
    requires n <= |markers|
    requires forall j :: 0 <= j < n ==> !Matches(line, markers, j)
    ensures ResolveUpTo(line, markers, n) == Resolution(0, line)
  {
    if n > 0 {
      NoMatchKeepsLine(line, markers, n - 1);
      assert !Matches(line, markers, n - 1);
      assert !HasPrefix(ResolveUpTo(line, markers, n - 1).text, markers[n - 1]);
    }
  }

  /** In particular when no marker is a prefix of the original line. */
  lemma {:induction false} NoPrefixKeepsLine(line: string, markers: seq<string>)
    requires forall j :: 0 <= j < |markers| ==> !HasPrefix(line, markers[j])
    ensures Resolve(line, markers) == Resolution(0, line)
  {
    NoMatchPrefixUpTo(line, markers, |markers|);
  }

  lemma {:induction false} NoMatchPrefixUpTo(line: string, markers: seq<string>, n: nat)
    requires n <= |markers|
    requires forall j :: 0 <= j < |markers| ==> !HasPrefix(line, markers[j])
    ensures ResolveUpTo(line, markers, n) == Resolution(0, line)
  {
    if n > 0 {
      NoMatchPrefixUpTo(line, markers, n - 1);
    }
  }

  /** Otherwise the voice is that of the last marker that matched. */
  lemma {:induction false} LastMatchWins(line: string, markers: seq<string>, n: nat, j: nat)
    requires j < n <= |markers|
    requires Matches(line, markers, j)
    requires forall i :: j < i < n ==> !Matches(line, markers, i)
    ensures ResolveUpTo(line, markers, n).voiceIndex == j
    ensures |Removed(line, markers, n)| > 0
    ensures Removed(line, markers, n)[|Removed(line, markers, n)| - 1] == markers[j]
  {
    if n - 1 > j {
      LastMatchWins(line, markers, n - 1, j);
      assert !Matches(line, markers, n - 1);
      assert ResolveUpTo(line, markers, n) == ResolveUpTo(line, markers, n - 1);
    }
  }

  /**
   * Markers are tested against the already stripped text: "A:" and then "B:" both
   * match "A:B:hi" even though only "A:" is a prefix of the original line.
   */
  lemma ChainedMarkersExample()
    ensures Resolve("A:B:hi", ["A:", "B:"]) == Resolution(1, "hi")
  {
    assert HasPrefix("A:B:hi", "A:");
    assert ReplaceFirst("A:B:hi", "A:", "") == "B:hi";
    assert ResolveUpTo("A:B:hi", ["A:", "B:"], 1) == Resolution(0, "B:hi");
    assert HasPrefix("B:hi", "B:");
    assert ReplaceFirst("B:hi", "B:", "") == "hi";
  }
}
