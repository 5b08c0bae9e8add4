/** The paths of the files of a block inside an archive. */
module ArchivePaths {
  import opened NpyParser
  import opened NpyHeaders
  import opened NpyRoundTrip

  const SAMPLES_END := "/samples.npy"

  function ValuesPath(prefix: string): string { prefix + "values.npy" }

  function SamplesPath(prefix: string): string { prefix + "samples.npy" }

  function PropertiesPath(prefix: string): string { prefix + "properties.npy" }

  function ComponentPath(prefix: string, i: nat): string {
    prefix + ("components/" + (Decimal(i) + ".npy"))
  }

  function GradientsPrefix(prefix: string): string { prefix + "gradients/" }

  function GradientPrefix(prefix: string, parameter: string): string {
    GradientsPrefix(prefix) + (parameter + "/")
  }

  predicate SlashFree(s: string) {
    '/' !in s
  }

  /** The text up to the next slash, or all of it. */
  function Segment(s: string): string {
    if s == [] || s[0] == '/' then "" else [s[0]] + Segment(s[1..])
  }

  lemma {:induction false} SegmentBeforeSlash(p: string, rest: string)
    requires SlashFree(p)
    ensures Segment(p + ("/" + rest)) == p
  {
    var s := p + ("/" + rest);
    if p != [] {
      assert s[1..] == p[1..] + ("/" + rest);
      SegmentBeforeSlash(p[1..], rest);
      assert p == [p[0]] + p[1..];
    }
  }

  lemma {:induction false} SegmentIsSlashFree(s: string)
    ensures SlashFree(Segment(s))
  {
    if s != [] && s[0] != '/' {
      SegmentIsSlashFree(s[1..]);
    }
  }

  predicate EndsWith(s: string, end: string) {
    |end| <= |s| && s[|s| - |end|..] == end
  }

  /** A file that shows that there is a gradient. */
  predicate ShowsGradient(path: string, prefix: string) {
    GradientsPrefix(prefix) <= path && EndsWith(path, SAMPLES_END)
  }

  /** The parameter of the gradient that a path belongs to. */
  function ParameterOf(path: string, prefix: string): string
    requires GradientsPrefix(prefix) <= path
  {
    Segment(path[|GradientsPrefix(prefix)|..])
  }

  lemma Behind(a: string, b: string, path: string)
    requires a + b <= path
    ensures a <= path && b <= path[|a|..]
  {
    assert path[..|a + b|] == a + b;
    assert path[..|a|] == (a + b)[..|a|] == a;
    assert path[|a|..][..|b|] == path[|a|..|a| + |b|] == (a + b)[|a|..] == b;
  }

  /** Every path of a gradient names its parameter. */
  lemma GradientPathNamesParameter(prefix: string, p: string, path: string)
    requires SlashFree(p) && GradientPrefix(prefix, p) <= path
    ensures GradientsPrefix(prefix) <= path && ParameterOf(path, prefix) == p
  {
    Behind(GradientsPrefix(prefix), p + "/", path);
    var rest := path[|GradientsPrefix(prefix)|..];
    assert rest == p + "/" + rest[|p| + 1..];
    assert p + "/" + rest[|p| + 1..] == p + ("/" + rest[|p| + 1..]);
    SegmentBeforeSlash(p, rest[|p| + 1..]);
  }

  /** The samples of a gradient show that it is there. */
  lemma SamplesShowGradient(prefix: string, p: string)
    requires SlashFree(p)
    ensures ShowsGradient(SamplesPath(GradientPrefix(prefix, p)), prefix)
    ensures ParameterOf(SamplesPath(GradientPrefix(prefix, p)), prefix) == p
    ensures GradientPrefix(prefix, p) <= SamplesPath(GradientPrefix(prefix, p))
  {
    var path := SamplesPath(GradientPrefix(prefix, p));
    GradientPathNamesParameter(prefix, p, path);
    assert path == GradientsPrefix(prefix) + p + SAMPLES_END;
  }

  /** Where the files of the block itself differ from those of its gradients. */
  predicate IsOwnPath(path: string, prefix: string) {
    prefix <= path && |path| > |prefix| && path[|prefix|] != 'g'
  }

  lemma OwnPaths(prefix: string, i: nat)
    ensures IsOwnPath(ValuesPath(prefix), prefix) && IsOwnPath(SamplesPath(prefix), prefix) && IsOwnPath(PropertiesPath(prefix), prefix)
    ensures IsOwnPath(ComponentPath(prefix, i), prefix)
    ensures ValuesPath(prefix)[|prefix|] == 'v' && SamplesPath(prefix)[|prefix|] == 's'
    ensures PropertiesPath(prefix)[|prefix|] == 'p' && ComponentPath(prefix, i)[|prefix|] == 'c'
  {}

  lemma GradientsStartWithG(path: string, prefix: string)
    requires GradientsPrefix(prefix) <= path
    ensures prefix <= path && |path| > |prefix| && path[|prefix|] == 'g'
  {
    Behind(prefix, "gradients/", path);
  }

  lemma GradientIsUnderPrefix(prefix: string, p: string, path: string)
    requires GradientPrefix(prefix, p) <= path
    ensures GradientsPrefix(prefix) <= path && prefix <= path
    ensures |GradientPrefix(prefix, p)| > |prefix|
  {
    Behind(GradientsPrefix(prefix), p + "/", path);
    Behind(prefix, "gradients/", path);
  }

  /** The number in the path of a component. */
  function ComponentNumber(path: string, prefix: string): int {
    if |prefix| + 11 <= |path| - 4 then DigitsValue(path[|prefix| + 11..|path| - 4]) else -1
  }

  lemma ComponentHasNumber(prefix: string, i: nat)
    ensures ComponentNumber(ComponentPath(prefix, i), prefix) == i
  {
    DecimalIsRight(i);
    var path := ComponentPath(prefix, i);
    assert path[|prefix| + 11..|path| - 4] == Decimal(i);
  }

  lemma ComponentPathsDiffer(prefix: string, i: nat, j: nat)
    requires i != j
    ensures ComponentPath(prefix, i) != ComponentPath(prefix, j)
  {
    ComponentHasNumber(prefix, i);
    ComponentHasNumber(prefix, j);
  }
}
