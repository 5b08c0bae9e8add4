/** What the files of an archive stand for, stated by their paths: which tensor
    map is loaded, and when there is none. */
module ArchiveContents {
  import opened Wrappers
  import opened Arrays
  import opened LabelSets
  import opened Blocks
  import opened Tensors
  import opened NpyHeaders
  import opened LabelFiles
  import opened DataFiles
  import opened ArchivePaths
  import opened BlockWriting
  import opened BlockReading
  import opened TensorFiles

  ghost predicate HasLabels(files: Files, path: string, l: Labels) {
    path in files && ReadLabels(files[path]) == Ok(l)
  }

  ghost predicate HasArray(files: Files, path: string, a: Array) {
    path in files && ReadArray(files[path]) == Ok(a)
  }

  /** The path belongs to the samples of a gradient with respect to `p`, or of one
      nested in it: `p` is what stands before the next slash. */
  ghost predicate Shows(path: string, prefix: string, p: string) {
    && |prefix| + 10 + |p| <= |path|
    && path[..|prefix|] == prefix
    && path[|prefix|..|prefix| + 10] == "gradients/"
    && path[|prefix| + 10..|prefix| + 10 + |p|] == p && '/' !in p
    && (|path| == |prefix| + 10 + |p| || path[|prefix| + 10 + |p|] == '/')
    && |path| >= 12 && path[|path| - 12..] == "/samples.npy"
  }

  ghost predicate IsShown(files: Files, prefix: string, p: string) {
    exists path :: path in files && Shows(path, prefix, p)
  }

  /** The files below a prefix describe a block: its array, its labels, and its
      gradients, which share its properties. */
  ghost predicate Describes(files: Files, prefix: string, shared: Option<Labels>, b: Block)
    decreases b
  {
    && DescribesOwn(files, prefix, shared, b)
    && (forall p :: p in b.gradients <==> IsShown(files, prefix, p))
    && forall p :: p in b.gradients ==>
         && ValidParameter(p) && GradientFits(b, b.gradients[p])
         && Describes(files, prefix + "gradients/" + p + "/", Some(b.properties), b.gradients[p])
  }

  ghost predicate DescribesOwn(files: Files, prefix: string, shared: Option<Labels>, b: Block) {
    && HasArray(files, prefix + "values.npy", b.values)
    && HasLabels(files, prefix + "samples.npy", b.samples)
    && |b.values.shape| == |b.components| + 2
    && (forall k: nat :: k < |b.components| ==> HasLabels(files, prefix + "components/" + Decimal(k) + ".npy", b.components[k]))
    && (if shared.Some? then b.properties == shared.value else HasLabels(files, prefix + "properties.npy", b.properties))
    && WellLabelled(b.values, b.samples, b.components, b.properties)
  }

  lemma {:induction false} SegmentExactly(s: string, p: string)
    ensures Segment(s) == p <==> |p| <= |s| && s[..|p|] == p && '/' !in p && (|p| == |s| || s[|p|] == '/')
  {
    if s == [] || s[0] == '/' {
      assert p != "" && |p| <= |s| && s[..|p|] == p ==> p[0] == s[0];
    } else {
      if p != "" {
        SegmentExactly(s[1..], p[1..]);
        assert p == [p[0]] + p[1..] && s == [s[0]] + s[1..];
        if |p| <= |s| {
          assert s[1..][..|p| - 1] == s[..|p|][1..];
        }
      }
    }
  }

  lemma ShowsExactly(path: string, prefix: string, p: string)
    ensures Shows(path, prefix, p) <==> ShowsGradient(path, prefix) && ParameterOf(path, prefix) == p
  {
    var start := GradientsPrefix(prefix);
    assert |start| == |prefix| + 10 && |SAMPLES_END| == 12;
    assert start[..|prefix|] == prefix && start[|prefix|..] == "gradients/";
    if |start| <= |path| {
      PrefixInTwo(path, prefix, "gradients/");
      var rest := path[|start|..];
      SegmentExactly(rest, p);
      if |start| + |p| <= |path| {
        assert rest[..|p|] == path[|prefix| + 10..|prefix| + 10 + |p|];
      }
    }
  }

  lemma PrefixInTwo(path: string, a: string, b: string)
    requires |a| + |b| <= |path|
    ensures a + b <= path <==> path[..|a|] == a && path[|a|..|a| + |b|] == b
  {
    if a + b <= path {
      assert path[..|a| + |b|] == a + b;
      assert path[..|a|] == path[..|a| + |b|][..|a|] && path[|a|..|a| + |b|] == path[..|a| + |b|][|a|..];
    }
    if path[..|a|] == a && path[|a|..|a| + |b|] == b {
      assert path[..|a| + |b|] == path[..|a|] + path[|a|..|a| + |b|];
    }
  }

  lemma ParametersExactly(files: Files, prefix: string, p: string)
    ensures p in ParametersIn(files, prefix) <==> IsShown(files, prefix, p)
  {
    forall path ensures Shows(path, prefix, p) <==> ShowsGradient(path, prefix) && ParameterOf(path, prefix) == p {
      ShowsExactly(path, prefix, p);
    }
    hide Shows, ShowsGradient;
  }

  lemma {:induction false} ComponentsExactly(files: Files, prefix: string, components: seq<Labels>)
    ensures ComponentsAt(files, prefix, |components|) == Ok(components) <==>
      forall k: nat :: k < |components| ==> HasLabels(files, prefix + "components/" + Decimal(k) + ".npy", components[k])
  {
    hide ReadLabels, Decimal;
    var n := |components|;
    if n > 0 {
      var front, last := components[..n - 1], components[n - 1];
      ComponentsExactly(files, prefix, front);
      assert components == front + [last];
      assert ComponentPath(prefix, n - 1) == prefix + "components/" + Decimal(n - 1) + ".npy";
      assert HasLabels(files, ComponentPath(prefix, n - 1), last) <==> LabelsAt(files, ComponentPath(prefix, n - 1)) == Ok(last);
      forall k: nat | k < n - 1 ensures components[k] == front[k] {}
    }
  }

  lemma OwnExactly(files: Files, prefix: string, shared: Option<Labels>, b: Block)
    ensures ReadOwn(files, prefix, shared) == Ok(b.(gradients := map[])) <==> DescribesOwn(files, prefix, shared, b)
  {
    ComponentsExactly(files, prefix, b.components);
    hide ReadLabels, ReadArray, WellLabelled, ComponentsAt;
    assert HasArray(files, ValuesPath(prefix), b.values) <==> ArrayAt(files, ValuesPath(prefix)) == Ok(b.values);
    assert HasLabels(files, SamplesPath(prefix), b.samples) <==> LabelsAt(files, SamplesPath(prefix)) == Ok(b.samples);
    assert HasLabels(files, PropertiesPath(prefix), b.properties) <==> LabelsAt(files, PropertiesPath(prefix)) == Ok(b.properties);
  }

  /** What is described below the prefix of a gradient is read there. */
  ghost predicate GradientAgrees(files: Files, prefix: string, b: Block, p: string)
    requires p in b.gradients
  {
    ReadBlock(files, GradientPrefix(prefix, p), Some(b.properties)) == Some(b.gradients[p])
    <==> Describes(files, prefix + "gradients/" + p + "/", Some(b.properties), b.gradients[p])
  }

  /** A block is read exactly if the files describe it. */
  lemma {:induction false} BlockIsReadExactly(files: Files, prefix: string, shared: Option<Labels>, b: Block)
    ensures ReadBlock(files, prefix, shared) == Some(b) <==> Describes(files, prefix, shared, b)
    decreases b
  {
    forall p | p in b.gradients ensures GradientAgrees(files, prefix, b, p) {
      BlockIsReadExactly(files, GradientPrefix(prefix, p), Some(b.properties), b.gradients[p]);
      assert GradientPrefix(prefix, p) == prefix + "gradients/" + p + "/";
    }
    hide Describes, ReadBlock, GradientAgrees;
    if Describes(files, prefix, shared, b) {
      DescribedIsRead(files, prefix, shared, b);
    }
    if ReadBlock(files, prefix, shared) == Some(b) {
      ReadIsDescribed(files, prefix, shared, b);
    }
  }

  lemma ReadIsDescribed(files: Files, prefix: string, shared: Option<Labels>, b: Block)
    requires ReadBlock(files, prefix, shared) == Some(b)
    requires forall p :: p in b.gradients ==> GradientAgrees(files, prefix, b, p)
    ensures Describes(files, prefix, shared, b)
  {
    PartsOfReadBlock(files, prefix, shared);
    ReadParameters(files, prefix, shared, b);
    OwnExactly(files, prefix, shared, b);
    hide ReadOwn, DescribesOwn, ParametersIn, IsShown, GradientPrefix, GradientFits, ReadBlock, Describes;
    forall p ensures p in b.gradients <==> IsShown(files, prefix, p) {
      ParametersExactly(files, prefix, p);
    }
    forall p | p in b.gradients ensures GradientIsDescribed(files, prefix, b, p) {
      SameLabelsFit(b.(gradients := map[]), b, b.gradients[p]);
      assert GradientAgrees(files, prefix, b, p);
    }
    DescribesFromParts(files, prefix, shared, b);
  }

  ghost predicate GradientIsDescribed(files: Files, prefix: string, b: Block, p: string)
    requires p in b.gradients
  {
    && ValidParameter(p) && GradientFits(b, b.gradients[p])
    && Describes(files, prefix + "gradients/" + p + "/", Some(b.properties), b.gradients[p])
  }

  lemma DescribesFromParts(files: Files, prefix: string, shared: Option<Labels>, b: Block)
    requires DescribesOwn(files, prefix, shared, b)
    requires forall p :: p in b.gradients <==> IsShown(files, prefix, p)
    requires forall p :: p in b.gradients ==> GradientIsDescribed(files, prefix, b, p)
    ensures Describes(files, prefix, shared, b)
  {
    hide DescribesOwn, IsShown, GradientFits, ValidParameter;
  }

  lemma ReadParameters(files: Files, prefix: string, shared: Option<Labels>, b: Block)
    requires ReadBlock(files, prefix, shared) == Some(b)
    ensures b.gradients.Keys == ParametersIn(files, prefix)
  {
    hide ReadOwn, ParametersIn, GradientPrefix, GradientFits;
  }

  lemma DescribedIsRead(files: Files, prefix: string, shared: Option<Labels>, b: Block)
    requires Describes(files, prefix, shared, b)
    requires forall p :: p in b.gradients ==> GradientAgrees(files, prefix, b, p)
    ensures ReadBlock(files, prefix, shared) == Some(b)
  {
    OwnExactly(files, prefix, shared, b);
    hide ReadOwn, DescribesOwn, ParametersIn, IsShown, GradientPrefix, GradientFits, ReadBlock;
    var own := b.(gradients := map[]);
    forall p ensures p in ParametersIn(files, prefix) <==> p in b.gradients {
      ParametersExactly(files, prefix, p);
    }
    assert ParametersIn(files, prefix) == b.gradients.Keys;
    forall p | p in b.gradients
      ensures GradientFits(own, b.gradients[p]) && ValidParameter(p)
      ensures ReadBlock(files, GradientPrefix(prefix, p), Some(own.properties)) == Some(b.gradients[p])
    {
      SameLabelsFit(b, own, b.gradients[p]);
      assert GradientAgrees(files, prefix, b, p);
    }
    BlockFromParts(files, prefix, shared, own, b.gradients);
  }

  /** Block `i` of a tensor map is described below `blocks/i/`. */
  ghost predicate DescribesBlock(files: Files, i: nat, b: Block) {
    Describes(files, "blocks/" + Decimal(i) + "/", None, b)
  }

  ghost predicate AllDescribed(files: Files, blocks: seq<Block>) {
    forall i: nat :: i < |blocks| ==> DescribesBlock(files, i, blocks[i])
  }

  lemma DescribedAppend(files: Files, front: seq<Block>, last: Block)
    ensures AllDescribed(files, front + [last]) <==> AllDescribed(files, front) && DescribesBlock(files, |front|, last)
  {
    hide DescribesBlock;
    var all := front + [last];
    assert forall i: nat :: i < |front| ==> all[i] == front[i];
    assert all[|front|] == last;
    if AllDescribed(files, all) {
      assert DescribesBlock(files, |front|, all[|front|]);
    }
  }

  lemma {:induction false} BlocksExactly(files: Files, blocks: seq<Block>)
    ensures ReadBlocks(files, |blocks|) == Some(blocks) <==> AllDescribed(files, blocks)
  {
    hide DescribesBlock, ReadBlock;
    if blocks != [] {
      hide ReadBlocks, AllDescribed;
      var front, last := blocks[..|blocks| - 1], blocks[|blocks| - 1];
      BlocksExactly(files, front);
      OneMoreBlockExactly(files, front, last);
      assert blocks == front + [last];
    }
  }

  lemma OneMoreBlockExactly(files: Files, front: seq<Block>, last: Block)
    requires ReadBlocks(files, |front|) == Some(front) <==> AllDescribed(files, front)
    ensures ReadBlocks(files, |front| + 1) == Some(front + [last]) <==> AllDescribed(files, front + [last])
  {
    hide ReadBlock, ReadBlocks, AllDescribed, DescribesBlock;
    ReadBlocksLengthIs(files, |front|);
    LastBlock(files, front, last);
    DescribedAppend(files, front, last);
    BlockExactly(files, |front|, last);
  }

  lemma BlockExactly(files: Files, i: nat, b: Block)
    ensures ReadBlock(files, BlockPrefix(i), None) == Some(b) <==> DescribesBlock(files, i, b)
  {
    hide ReadBlock, Describes, Decimal;
    BlockIsReadExactly(files, BlockPrefix(i), None, b);
    assert BlockPrefix(i) == "blocks/" + Decimal(i) + "/";
  }

  lemma ReadBlocksLengthIs(files: Files, n: nat)
    ensures ReadBlocks(files, n).Some? ==> |ReadBlocks(files, n).value| == n
  {
    if ReadBlocks(files, n).Some? {
      ReadBlocksLength(files, n);
    }
  }

  lemma LastBlock(files: Files, front: seq<Block>, last: Block)
    requires ReadBlocks(files, |front|).Some? ==> |ReadBlocks(files, |front|).value| == |front|
    ensures ReadBlocks(files, |front| + 1) == Some(front + [last]) <==>
      ReadBlocks(files, |front|) == Some(front) && ReadBlock(files, BlockPrefix(|front|), None) == Some(last)
  {
    hide ReadBlock, BlockPrefix;
    if ReadBlocks(files, |front| + 1) == Some(front + [last]) {
      var before, end := ReadBlocks(files, |front|).value, ReadBlock(files, BlockPrefix(|front|), None).value;
      assert before + [end] == front + [last];
      assert before == (before + [end])[..|front|] && front == (front + [last])[..|front|];
      assert end == (before + [end])[|front|] && last == (front + [last])[|front|];
    }
  }

  /** A tensor map is loaded exactly if the files describe its keys, one block for
      each of them, and all blocks have the same structure. */
  lemma TensorIsReadExactly(files: Files, t: TensorMap)
    ensures ReadTensor(files) == Some(t) <==>
      && HasLabels(files, "keys.npy", t.keys) && |t.blocks| == |t.keys.rows|
      && (forall i: nat :: i < |t.blocks| ==> DescribesBlock(files, i, t.blocks[i]))
      && forall i :: 0 <= i < |t.blocks| ==> SameStructure(t.blocks[0], t.blocks[i])
  {
    BlocksExactly(files, t.blocks);
    ReadBlocksLengthIs(files, |t.keys.rows|);
    TensorFromParts(files, t);
    hide ReadTensor, ReadBlocks, ReadLabels, DescribesBlock, SameStructure;
  }

  lemma TensorFromParts(files: Files, t: TensorMap)
    requires ReadBlocks(files, |t.keys.rows|).Some? ==> |ReadBlocks(files, |t.keys.rows|).value| == |t.keys.rows|
    ensures ReadTensor(files) == Some(t) <==>
      && HasLabels(files, "keys.npy", t.keys) && |t.blocks| == |t.keys.rows|
      && ReadBlocks(files, |t.blocks|) == Some(t.blocks) && AllSameStructure(t.blocks)
  {
    hide ReadBlocks, ReadLabels, AllSameStructure;
    assert HasLabels(files, KEYS_PATH, t.keys) <==> LabelsAt(files, KEYS_PATH) == Ok(t.keys);
  }
}
