/** When moving dimensions to the samples succeeds, said of the blocks of the
    tensor map, and why one step succeeds exactly when two do. */
module MoveSuccess {
  import opened Wrappers
  import opened Sequences
  import opened Lexicographic
  import opened Arrays
  import opened LabelSets
  import opened Blocks
  import opened Tensors
  import opened Keys
  import opened Sheets
  import opened Merging
  import opened MergedBlocks
  import opened Groups
  import opened KeyMoves
  import opened MergeMeaning
  import opened TensorMeaning
  import opened SortedBlocks
  import opened TwoSteps

  /** The labels that blocks need to share to be merged. */
  ghost predicate SameShape(a: Block, b: Block) {
    && a.components == b.components && a.properties == b.properties
    && forall p :: p in a.gradients && p in b.gradients ==> Counts(a.gradients[p].components) == Counts(b.gradients[p].components)
  }

  ghost predicate SameGroup(keys: Labels, dimensions: seq<string>, i: nat, j: nat) {
    i < |keys.rows| && j < |keys.rows|
    && RemainingPart(keys, dimensions, keys.rows[i]) == RemainingPart(keys, dimensions, keys.rows[j])
  }

  function SamplesAfter(t: TensorMap, dimensions: seq<string>, newKey: Row): seq<Row>
    requires ValidTensor(t) && t.keys.rows != []
  {
    BlockAt(ToSamples(t, dimensions), newKey).samples.rows
  }

  /** The new number of a sample is small enough to become a label value. */
  ghost predicate NumberFits(t: TensorMap, dimensions: seq<string>, key: Row, sample: Row)
    requires ValidTensor(t) && t.keys.rows != []
  {
    Position(SamplesAfter(t, dimensions, RemainingPart(t.keys, dimensions, key)), sample + MovedPart(t.keys, dimensions, key)).GetOr(0) < I32_MAX
  }

  ghost predicate NumbersFit(t: TensorMap, dimensions: seq<string>, i: nat, p: string)
    requires ValidTensor(t) && t.keys.rows != [] && i < |t.keys.rows|
  {
    forall about :: about in SheetOf(t.blocks[i], Some(p)).labels ==> NumberFits(t, dimensions, t.keys.rows[i], about.sample)
  }

  ghost predicate NamesAllow(b: Block, dimensions: seq<string>) {
    && b.samples.names != [] && Distinct(b.samples.names + dimensions)
    && forall p :: p in b.gradients ==> b.gradients[p].gradients == map[]
  }

  /** No gradient has gradients, the new sample names are distinct, blocks with
      the same remaining key have the same components and properties and
      gradients of the same shape, and row numbers fit a label value. */
  ghost predicate Admits(t: TensorMap, dimensions: seq<string>)
    requires ValidTensor(t) && t.keys.rows != []
  {
    && NamesAllow(t.blocks[0], dimensions)
    && (forall i: nat, j: nat :: SameGroup(t.keys, dimensions, i, j) ==> SameShape(t.blocks[i], t.blocks[j]))
    && (forall i, p :: 0 <= i < |t.keys.rows| && p in t.blocks[i].gradients ==> NumbersFit(t, dimensions, i, p))
  }

  ghost predicate MoveInput(t: TensorMap, dimensions: seq<string>) {
    ValidTensor(t) && t.keys.rows != [] && KnownDimensions(t.keys, dimensions) && ValidNames(dimensions)
  }

  lemma SameShapeAs(a: Block, b: Block, r: Block, names: seq<string>)
    requires StructureKept(a, r, names) && StructureKept(b, r, names)
    ensures SameShape(a, b)
  {
    forall p | p in a.gradients && p in b.gradients ensures Counts(a.gradients[p].components) == Counts(b.gradients[p].components) {
      assert GradientStructureKept(a.gradients[p], r.gradients[p]) && GradientStructureKept(b.gradients[p], r.gradients[p]);
    }
  }

  lemma GroupHasSameShape(t: TensorMap, dimensions: seq<string>, i: nat, j: nat)
    requires CanMoveToSamples(t, dimensions) && SameGroup(t.keys, dimensions, i, j)
    ensures |t.blocks| == |t.keys.rows| && SameShape(t.blocks[i], t.blocks[j])
  {
    KeysAreDistinct(t);
    hide CanMoveKeys, RemainingPart, Moved, BlockAt, StructureKept, RowsAreSorted, SameShape, ValidTensor;
    StructureIsKept(t, dimensions, i, t.keys.rows[i]);
    StructureIsKept(t, dimensions, j, t.keys.rows[j]);
    SameShapeAs(t.blocks[i], t.blocks[j], BlockAt(ToSamples(t, dimensions), RemainingPart(t.keys, dimensions, t.keys.rows[i])), dimensions);
  }

  lemma MergedNamesAllow(names: seq<string>, kbs: seq<KeyAndBlock>, k: nat)
    requires CanMerge(Samples, names, None, kbs, true, None) && k < |kbs|
    ensures NamesAllow(kbs[k].block, names)
  {
    hide ValidBlock, RowNumbersFit;
    SameStructureOfGradients(kbs[0].block, kbs[k].block, "");
    forall p | p in kbs[k].block.gradients ensures kbs[k].block.gradients[p].gradients == map[] {
      NoNestedGradients(names, kbs, k, p);
    }
  }

  lemma NamesAreAllowed(t: TensorMap, dimensions: seq<string>)
    requires CanMoveToSamples(t, dimensions)
    ensures t.blocks != [] && NamesAllow(t.blocks[0], dimensions)
  {
    KeysAreDistinct(t);
    assert HasData(t.blocks[0], None);
    hide CanMoveKeys, NamesAllow, GroupIndices, CanMerge, RemainingKeys, ValidTensor;
    var g := GroupOf(t.keys, dimensions, 0);
    GroupCanMerge(Samples, t, dimensions, None, true, None, g);
    var k := BlockInGroup(t, dimensions, 0, g);
    MergedNamesAllow(dimensions, Group(t, dimensions, g), k);
  }

  /** Row numbers fit for all gradient rows of a block of a group, exactly if
      the numbers of the samples they are about do. */
  lemma RowsFitIff(kbs: seq<KeyAndBlock>, m: nat, k: nat, p: string)
    requires Mergeable(kbs, m) && k < |kbs| && p in kbs[0].block.gradients
    ensures p in kbs[k].block.gradients
    ensures var merged := MergedSampleRows(Samples, kbs, true);
      AllTranslatable(MappingFor(Samples, merged, kbs[k]), GradientRows(kbs[k], p))
      <==> forall about :: about in GradientSheet(kbs[k].block, p).labels ==>
             Position(merged, about.sample + kbs[k].key).GetOr(0) < I32_MAX
  {
    GradientIsPresent(kbs, m, k, p);
    hide ValidBlock, SameStructure;
    var merged := MergedSampleRows(Samples, kbs, true);
    assert GradientRows(kbs[k], p) == kbs[k].block.gradients[p].samples.rows;
    assert RefersTo(GradientRows(kbs[k], p), kbs[k].block.samples.rows);
    hide MergedSampleRows, ValidBlock, SameStructure, Mergeable, AllTranslatable, RefersTo;
    RowsFitTheMapping(merged, kbs[k].key, kbs[k].block.samples.rows, MappingFor(Samples, merged, kbs[k]), GradientRows(kbs[k], p));
  }

  lemma RowsFitTheMapping(merged: seq<Row>, key: Row, samples: seq<Row>, mapping: seq<SampleMapping>, rows: seq<Row>)
    requires |mapping| == |samples| && RefersTo(rows, samples)
    requires forall j :: 0 <= j < |mapping| ==> mapping[j].output == Position(merged, samples[j] + key).GetOr(0)
    ensures AllTranslatable(mapping, rows) <==>
      forall about :: about in GradientLabels(samples, rows) ==> Position(merged, about.sample + key).GetOr(0) < I32_MAX
  {
    var labels := GradientLabels(samples, rows);
    assert forall r :: 0 <= r < |rows| ==> mapping[rows[r][0]].output == Position(merged, labels[r].sample + key).GetOr(0);
    if AllTranslatable(mapping, rows) {
      forall about | about in labels ensures Position(merged, about.sample + key).GetOr(0) < I32_MAX {
        var r :| 0 <= r < |labels| && labels[r] == about;
        assert Translatable(mapping, rows[r]);
      }
    }
    if forall about :: about in labels ==> Position(merged, about.sample + key).GetOr(0) < I32_MAX {
      forall r | 0 <= r < |rows| ensures Translatable(mapping, rows[r]) {
        assert labels[r] in labels;
      }
    }
  }

  lemma SamplesOfGroup(t: TensorMap, dimensions: seq<string>, i: nat, g: nat)
    requires ValidTensor(t) && t.keys.rows != [] && i < |t.keys.rows|
    requires g < GroupCount(t, dimensions) && i in GroupIndices(t.keys, dimensions, g)
    ensures SamplesAfter(t, dimensions, RemainingPart(t.keys, dimensions, t.keys.rows[i]))
         == MergedSampleRows(Samples, Group(t, dimensions, g), true)
  {
    RemainingKeysAreValid(t.keys, dimensions);
    MovedCount(Samples, t, dimensions, None, true);
    MovedBlock(Samples, t, dimensions, None, true, g);
    hide GroupIndices, RemainingKeys, RemainingPart, Moved, BlockAt, ValidTensor, MergedSampleRows, GroupFails, MergeFails, Mergeable;
    RemainingPartIsGroup(t.keys, dimensions, i, g);
    BlockAtKey(ToSamples(t, dimensions), g, RemainingPart(t.keys, dimensions, t.keys.rows[i]));
  }

  lemma NumbersAreFitting(t: TensorMap, dimensions: seq<string>, i: nat, p: string)
    requires CanMoveToSamples(t, dimensions) && i < |t.keys.rows| == |t.blocks| && p in t.blocks[i].gradients
    ensures NumbersFit(t, dimensions, i, p)
  {
    SameStructureOfGradients(t.blocks[0], t.blocks[i], p);
    var g := GroupOf(t.keys, dimensions, i);
    GroupCanMerge(Samples, t, dimensions, None, true, Some(p), g);
    SamplesOfGroup(t, dimensions, i, g);
    var k := BlockInGroup(t, dimensions, i, g);
    hide CanMoveKeys, GroupIndices, RemainingKeys, RemainingPart, ToSamples, BlockAt, ValidTensor, MergedSampleRows, MovedPart, MergeFails, SamplesAfter;
    var kbs := Group(t, dimensions, g);
    GroupRowsFit(dimensions, kbs, k, p);
  }

  lemma GroupRowsFit(names: seq<string>, kbs: seq<KeyAndBlock>, k: nat, p: string)
    requires CanMerge(Samples, names, None, kbs, true, Some(p)) && k < |kbs|
    ensures p in kbs[k].block.gradients
    ensures forall about :: about in GradientSheet(kbs[k].block, p).labels ==>
      Position(MergedSampleRows(Samples, kbs, true), about.sample + kbs[k].key).GetOr(0) < I32_MAX
  {
    hide MergedSampleRows, ValidBlock, SameStructure;
    RowsFitIff(kbs, |names|, k, p);
  }

  lemma CanMoveAdmits(t: TensorMap, dimensions: seq<string>)
    requires CanMoveToSamples(t, dimensions)
    ensures Admits(t, dimensions)
  {
    KeysAreDistinct(t);
    NamesAreAllowed(t, dimensions);
    hide CanMoveKeys, NamesAllow, SameGroup, SameShape, NumbersFit, ValidTensor;
    forall i: nat, j: nat | SameGroup(t.keys, dimensions, i, j) ensures SameShape(t.blocks[i], t.blocks[j]) {
      GroupHasSameShape(t, dimensions, i, j);
    }
    forall i, p | 0 <= i < |t.keys.rows| && p in t.blocks[i].gradients ensures NumbersFit(t, dimensions, i, p) {
      NumbersAreFitting(t, dimensions, i, p);
    }
  }

  ghost predicate LabelsFit(kbs: seq<KeyAndBlock>, k: nat, p: string)
    requires k < |kbs|
  {
    p in kbs[k].block.gradients && forall about :: about in GradientSheet(kbs[k].block, p).labels ==>
      Position(MergedSampleRows(Samples, kbs, true), about.sample + kbs[k].key).GetOr(0) < I32_MAX
  }

  lemma GroupCanBeMerged(names: seq<string>, kbs: seq<KeyAndBlock>)
    requires Mergeable(kbs, |names|) && NamesAllow(kbs[0].block, names)
    requires forall k :: 0 <= k < |kbs| ==> SameShape(kbs[0].block, kbs[k].block)
    requires forall k, p :: 0 <= k < |kbs| && p in kbs[0].block.gradients ==> LabelsFit(kbs, k, p)
    ensures !MergeFails(Samples, None, kbs) && MergeDemands(Samples, names, None, kbs, true)
  {
    assert kbs != [];
    hide ValidBlock, SameStructure, MergedSampleRows, Mergeable, LabelsFit;
    forall p | p in kbs[0].block.gradients
      ensures GradientShapesAgree(Samples, None, kbs, p) && RowNumbersFit(Samples, MergedSampleRows(Samples, kbs, true), kbs, p)
    {
      forall k | 0 <= k < |kbs|
        ensures AllTranslatable(MappingFor(Samples, MergedSampleRows(Samples, kbs, true), kbs[k]), GradientRows(kbs[k], p))
      {
        LabelsFitRows(names, kbs, k, p);
      }
    }
  }

  lemma LabelsFitRows(names: seq<string>, kbs: seq<KeyAndBlock>, k: nat, p: string)
    requires Mergeable(kbs, |names|) && k < |kbs| && p in kbs[0].block.gradients && LabelsFit(kbs, k, p)
    ensures AllTranslatable(MappingFor(Samples, MergedSampleRows(Samples, kbs, true), kbs[k]), GradientRows(kbs[k], p))
  {
    hide MergedSampleRows, ValidBlock, SameStructure, AllTranslatable;
    RowsFitIff(kbs, |names|, k, p);
  }

  lemma NamesAllowAll(t: TensorMap, dimensions: seq<string>, i: nat)
    requires ValidTensor(t) && i < |t.blocks| && NamesAllow(t.blocks[0], dimensions)
    ensures NamesAllow(t.blocks[i], dimensions)
  {
    SameStructureOfGradients(t.blocks[0], t.blocks[i], "");
    forall p | p in t.blocks[i].gradients ensures t.blocks[i].gradients[p].gradients == map[] {
      SameStructureOfGradients(t.blocks[0], t.blocks[i], p);
      SameStructureOfGradients(t.blocks[0].gradients[p], t.blocks[i].gradients[p], "");
    }
  }

  lemma InSameGroup(keys: Labels, dimensions: seq<string>, g: nat, i: nat, j: nat)
    requires g < |RemainingKeys(keys, dimensions).rows|
    requires i in GroupIndices(keys, dimensions, g) && j in GroupIndices(keys, dimensions, g)
    ensures SameGroup(keys, dimensions, i, j)
  {
    hide RemainingKeys, RemainingPart;
    RemainingPartIsGroup(keys, dimensions, i, g);
    RemainingPartIsGroup(keys, dimensions, j, g);
  }

  lemma AdmittedLabelsFit(t: TensorMap, dimensions: seq<string>, g: nat, k: nat, p: string)
    requires MoveInput(t, dimensions) && Admits(t, dimensions) && g < GroupCount(t, dimensions) && k < |Group(t, dimensions, g)|
    requires p in Group(t, dimensions, g)[k].block.gradients
    ensures LabelsFit(Group(t, dimensions, g), k, p)
  {
    var i := BlockOfGroup(t, dimensions, g, k);
    assert NumbersFit(t, dimensions, i, p);
    SamplesOfGroup(t, dimensions, i, g);
    assert t.blocks[i] == Group(t, dimensions, g)[k].block;
    hide CanMoveKeys, GroupIndices, RemainingKeys, RemainingPart, ToSamples, BlockAt, ValidTensor, MergedSampleRows, MovedPart, MergeFails, SamplesAfter, Admits, Group;
    assert forall about :: about in SheetOf(t.blocks[i], Some(p)).labels ==> NumberFits(t, dimensions, t.keys.rows[i], about.sample);
  }

  lemma AdmittedGroup(t: TensorMap, dimensions: seq<string>, g: nat)
    requires MoveInput(t, dimensions) && Admits(t, dimensions) && g < GroupCount(t, dimensions)
    ensures Group(t, dimensions, g) != []
    ensures !MergeFails(Samples, None, Group(t, dimensions, g)) && MergeDemands(Samples, dimensions, None, Group(t, dimensions, g), true)
  {
    GroupIsMergeable(t, dimensions, g);
    var kbs := Group(t, dimensions, g);
    assert kbs != [];
    hide GroupIndices, RemainingKeys, SameShape, NamesAllow, ValidTensor, Mergeable, MergeFails, MergeDemands, LabelsFit, NumbersFit, SameGroup;
    var first := BlockOfGroup(t, dimensions, g, 0);
    NamesAllowAll(t, dimensions, first);
    forall k | 0 <= k < |kbs| ensures SameShape(kbs[0].block, kbs[k].block) {
      var i := BlockOfGroup(t, dimensions, g, k);
      InSameGroup(t.keys, dimensions, g, first, i);
    }
    forall k, p | 0 <= k < |kbs| && p in kbs[0].block.gradients ensures LabelsFit(kbs, k, p) {
      GradientIsPresent(kbs, |dimensions|, k, p);
      AdmittedLabelsFit(t, dimensions, g, k, p);
    }
    GroupCanBeMerged(dimensions, kbs);
  }

  lemma AdmitsCanMove(t: TensorMap, dimensions: seq<string>)
    requires MoveInput(t, dimensions) && Admits(t, dimensions)
    ensures CanMoveToSamples(t, dimensions)
  {
    hide Admits, ValidTensor, RemainingKeys, Group, MergeFails, MergeDemands;
    forall g | 0 <= g < GroupCount(t, dimensions)
      ensures !GroupFails(Samples, t, dimensions, None, g) && GroupDemands(Samples, t, dimensions, None, true, g)
    {
      AdmittedGroup(t, dimensions, g);
    }
  }

  /** Moving to the samples succeeds exactly for these tensor maps. */
  lemma CanMoveIffAdmits(t: TensorMap, dimensions: seq<string>)
    requires MoveInput(t, dimensions)
    ensures CanMoveToSamples(t, dimensions) <==> Admits(t, dimensions)
  {
    hide Admits, CanMoveToSamples;
    if CanMoveToSamples(t, dimensions) {
      CanMoveAdmits(t, dimensions);
    }
    if Admits(t, dimensions) {
      AdmitsCanMove(t, dimensions);
    }
  }
}
