/**
 * The Go library routines on strings that the script pipeline relies on
 * (strings.HasPrefix, strings.Index, strings.Replace with n = 1,
 * strings.Split, strings.SplitN with n = 2, strconv.Itoa). Join, HasSuffix and
 * Atoi are not used by the program; they serve to state JoinSplit,
 * LineIsRemovedMarkersThenText,
 * ResolvedTextIsSuffix and AtoiItoa.
 * A string is a sequence of code points; the program only ever handles
 * valid UTF-8, where the byte-level and code-point-level operations agree.
 */
module Text {

  /** strings.HasPrefix */
  predicate HasPrefix(s: string, prefix: string) {
    |prefix| <= |s| && s[..|prefix|] == prefix
  }

  /** strings.HasSuffix */
  predicate HasSuffix(s: string, suffix: string) {
    |suffix| <= |s| && s[|s| - |suffix|..] == suffix
  }

  /** strings.Index: the position of the first occurrence of `sub` in `s`, or -1. */
  function Index(s: string, sub: string): (r: int)
    ensures r == -1 || (0 <= r <= |s| && HasPrefix(s[r..], sub))
    ensures forall j :: 0 <= j <= |s| && (r == -1 || j < r) ==> !HasPrefix(s[j..], sub)
    decreases |s|
  {
    if HasPrefix(s, sub) then 0
    else if |s| == 0 then -1
    else
      var i := Index(s[1..], sub);
      assert forall j :: 1 <= j <= |s| ==> s[j..] == s[1..][j - 1..];
      if i == -1 then -1 else i + 1
  }

  /** strings.Contains */
  predicate Contains(s: string, sub: string) {
    Index(s, sub) != -1
  }

  /** For a one-code-point pattern, Index finds the first position holding that code point. */
  lemma CharIndex(s: string, c: char)
    ensures Contains(s, [c]) <==> c in s
    ensures Contains(s, [c]) ==> Index(s, [c]) < |s| && s[Index(s, [c])] == c && c !in s[..Index(s, [c])]
  {
    forall j | 0 <= j <= |s|
      ensures HasPrefix(s[j..], [c]) <==> j < |s| && s[j] == c
    {
      if j < |s| {
        assert s[j..][..1] == [s[j]];
      }
    }
  }

  /** A first occurrence leaves no occurrence in the text before it. */
  lemma NoOccurrenceBefore(s: string, sub: string)
    requires sub != "" && Contains(s, sub)
    ensures !Contains(s[..Index(s, sub)], sub)
  {
    var i := Index(s, sub);
    var t := s[..i];
    forall j | 0 <= j <= |t|
      ensures !HasPrefix(t[j..], sub)
    {
      if j + |sub| <= |t| {
        assert t[j..][..|sub|] == s[j..][..|sub|];
      }
    }
  }

  /** strings.Replace(s, pattern, repl, 1): the first occurrence of `pattern` becomes `repl`. */
  function ReplaceFirst(s: string, pattern: string, repl: string): (r: string)
    ensures !Contains(s, pattern) ==> r == s
    ensures HasPrefix(s, pattern) ==> r == repl + s[|pattern|..]
  {
    var i := Index(s, pattern);
    if i == -1 then s else s[..i] + repl + s[i + |pattern|..]
  }

  /** strings.SplitN(s, sep, 2): the text before and after the first separator. */
  function SplitFirst(s: string, sep: string): (parts: seq<string>)
    requires sep != ""
    ensures !Contains(s, sep) ==> parts == [s]
    ensures Contains(s, sep) ==>
      && |parts| == 2
      && parts[0] + sep + parts[1] == s
      && !Contains(parts[0], sep)
  {
    var i := Index(s, sep);
    if i == -1 then [s]
    else
      NoOccurrenceBefore(s, sep);
      assert s[..i] + sep + s[i + |sep|..] == s by {
        assert s[i..][..|sep|] == sep;
        assert s == s[..i] + s[i..][..|sep|] + s[i + |sep|..];
      }
      [s[..i], s[i + |sep|..]]
  }

  /** strings.Split(s, sep) for a non-empty separator. */
  function Split(s: string, sep: string): (parts: seq<string>)
    requires sep != ""
    ensures |parts| >= 1
    ensures forall k :: 0 <= k < |parts| ==> !Contains(parts[k], sep)
    decreases |s|
  {
    var first := SplitFirst(s, sep);
    if |first| == 1 then [s]
    else [first[0]] + Split(first[1], sep)
  }

  /** strings.Join */
  function Join(parts: seq<string>, sep: string): string {
    if |parts| == 0 then ""
    else if |parts| == 1 then parts[0]
    else parts[0] + sep + Join(parts[1..], sep)
  }

  /** Splitting loses nothing: joining the parts back gives the original text. */
  lemma {:induction false} JoinSplit(s: string, sep: string)
    requires sep != ""
    ensures Join(Split(s, sep), sep) == s
    decreases |s|
  {
    var first := SplitFirst(s, sep);
    if |first| == 2 {
      var rest := Split(first[1], sep);
      JoinSplit(first[1], sep);
      assert Split(s, sep) == [first[0]] + rest;
      assert (([first[0]] + rest)[1..]) == rest;
    }
  }

  predicate IsDigit(c: char) {
    '0' <= c <= '9'
  }

  predicate AllDigits(s: string) {
    forall i :: 0 <= i < |s| ==> IsDigit(s[i])
  }

  function DigitChar(d: nat): (c: char)
    requires d < 10
    ensures IsDigit(c) && c as int - '0' as int == d
  {
    ('0' as int + d) as char
  }

  /** strconv.Itoa on the non-negative values the program passes it: decimal digits. */
  function Itoa(n: nat): (r: string)
    ensures r != [] && AllDigits(r)
  {
    if n < 10 then [DigitChar(n)] else Itoa(n / 10) + [DigitChar(n % 10)]
  }

  /** The value of a string of decimal digits; the inverse of Itoa. */
  function Atoi(s: string): nat
    requires AllDigits(s)
  {
    if s == [] then 0
    else Atoi(s[..|s| - 1]) * 10 + (s[|s| - 1] as int - '0' as int)
  }

  lemma {:induction false} AtoiItoa(n: nat)
    ensures Atoi(Itoa(n)) == n
  {
    if n >= 10 {
      var s := Itoa(n);
      assert s[..|s| - 1] == Itoa(n / 10);
      AtoiItoa(n / 10);
    }
  }

  /** Distinct numbers have distinct decimal spellings. */
  lemma ItoaInjective(a: nat, b: nat)
    requires Itoa(a) == Itoa(b)
    ensures a == b
  {
    AtoiItoa(a);
    AtoiItoa(b);
  }
}
