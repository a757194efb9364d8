/**
 * Output naming in main.go: the truncated head of the text (getHeadText) and
 * the base name shared by a line's .wav and .png files.
 */
module Naming {
  import opened Options
  import opened Text

  const WavExtension: string := ".wav"
  const PngExtension: string := ".png"

  /**
   * getHeadText: the first `n` code points, or the whole text when it is shorter.
   * A negative `n` makes the slice expression panic; that is None here.
   */
  function HeadText(text: string, n: int): (head: Option<string>)
    ensures head.Some? <==> n >= 0
    ensures head.Some? ==>
      && |head.value| == (if n < |text| then n else |text|)
      && HasPrefix(text, head.value)
  {
    var max := if |text| < n then |text| else n;
    if max < 0 then None else Some(text[0..max])
  }

  /** outDir + strconv.Itoa(k) + "_" + head */
  function BaseName(directory: string, k: nat, head: string): (base: string)
    ensures HasPrefix(base, directory) && HasSuffix(base, head)
    ensures |base| == |directory| + |Itoa(k)| + 1 + |head|
    ensures base[|directory|..|base| - |head|] == Itoa(k) + "_"
  {
    directory + Itoa(k) + "_" + head
  }

  function WavFile(base: string): (file: string)
    ensures HasPrefix(file, base) && HasSuffix(file, WavExtension) && |file| == |base| + |WavExtension|
  {
    base + WavExtension
  }

  function PngFile(base: string): (file: string)
    ensures HasPrefix(file, base) && HasSuffix(file, PngExtension) && |file| == |base| + |PngExtension|
  {
    base + PngExtension
  }

  /** The two files of a line share their base and differ only in the extension. */
  lemma OutputsShareBase(base: string)
    ensures WavFile(base)[..|base|] == base == PngFile(base)[..|base|]
    ensures WavFile(base)[|base|..] == WavExtension && PngFile(base)[|base|..] == PngExtension
    ensures WavFile(base) != PngFile(base)
  {
    assert WavFile(base)[|base| + 1] != PngFile(base)[|base| + 1];
  }

  /**
   * The ordinal can be read back from a base name: the digits of the ordinal end
   * at the first "_", which no digit is. So lines with different ordinals never
   * share a base name, whatever their texts.
   */
  lemma BaseNameInjective(directory: string, k1: nat, head1: string, k2: nat, head2: string)
    requires BaseName(directory, k1, head1) == BaseName(directory, k2, head2)
    ensures k1 == k2 && head1 == head2
  {
    var a, b := Itoa(k1), Itoa(k2);
    var t1, t2 := a + "_" + head1, b + "_" + head2;
    assert BaseName(directory, k1, head1) == directory + t1;
    assert BaseName(directory, k2, head2) == directory + t2;
    assert t1 == (directory + t1)[|directory|..];
    assert t2 == (directory + t2)[|directory|..];
    var m := if |a| < |b| then |a| else |b|;
    assert t1[m] == '_' <==> m == |a|;
    assert t2[m] == '_' <==> m == |b|;
    assert |a| == |b|;
    assert a == t1[..|a|] && b == t2[..|b|];
    ItoaInjective(k1, k2);
    assert head1 == t1[|a| + 1..] && head2 == t2[|b| + 1..];
  }
}
