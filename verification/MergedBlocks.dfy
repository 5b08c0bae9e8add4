/** The block that merging several blocks along one axis should give, stated by
    labels, and why it is a valid block. */
module MergedBlocks {
  import opened Wrappers
  import opened Sequences
  import opened Lexicographic
  import opened Arrays
  import opened LabelSets
  import opened Blocks
  import opened Tensors
  import opened Sheets
  import opened Merging
  import opened PropertyRanges

  function PropertyParts(kbs: seq<KeyAndBlock>): (r: seq<seq<Row>>)
    ensures |r| == |kbs|
    ensures forall i :: 0 <= i < |r| ==> r[i] == kbs[i].block.properties.rows
  {
    seq(|kbs|, i requires 0 <= i < |kbs| => kbs[i].block.properties.rows)
  }

  /** The moved keys that get a range of properties: those of the blocks, or
      the requested ones. */
  function RangeKeys(newKeys: Option<seq<Row>>, kbs: seq<KeyAndBlock>): seq<Row> {
    newKeys.GetOr(KeysOf(kbs))
  }

  function RangeParts(newKeys: Option<seq<Row>>, kbs: seq<KeyAndBlock>): (r: seq<seq<Row>>)
    requires kbs != []
    ensures |r| == |RangeKeys(newKeys, kbs)|
  {
    match newKeys
    case Some(keys) => Repeat(|keys|, kbs[0].block.properties.rows)
    case None => PropertyParts(kbs)
  }

  function MergedProperties(axis: Axis, names: seq<string>, newKeys: Option<seq<Row>>, kbs: seq<KeyAndBlock>): Labels
    requires kbs != []
  {
    var first := kbs[0].block.properties;
    if axis.Samples? then first
    else Labels(names + first.names, Products(RangeKeys(newKeys, kbs), RangeParts(newKeys, kbs)))
  }

  function MergedSamples(axis: Axis, names: seq<string>, kbs: seq<KeyAndBlock>, sort: bool): Labels
    requires kbs != []
  {
    Labels(kbs[0].block.samples.names + (if axis.Samples? then names else []), MergedSampleRows(axis, kbs, sort))
  }

  function ValuesSheets(kbs: seq<KeyAndBlock>): (r: seq<Sheet>)
    ensures |r| == |kbs|
    ensures forall i :: 0 <= i < |r| ==> r[i] == ValuesSheet(kbs[i].block)
  {
    seq(|kbs|, i requires 0 <= i < |kbs| => ValuesSheet(kbs[i].block))
  }

  const NO_SHEET := Sheet([], [], Array([], map[]))

  function GradientSheets(kbs: seq<KeyAndBlock>, parameter: string): (r: seq<Sheet>)
    ensures |r| == |kbs|
    ensures forall i :: 0 <= i < |r| && parameter in kbs[i].block.gradients ==> r[i] == GradientSheet(kbs[i].block, parameter)
  {
    seq(|kbs|, i requires 0 <= i < |kbs| =>
      if parameter in kbs[i].block.gradients then GradientSheet(kbs[i].block, parameter) else NO_SHEET)
  }

  function MergedGradient(axis: Axis, m: nat, samples: seq<Row>, properties: Labels, kbs: seq<KeyAndBlock>, parameter: string): Block
    requires kbs != [] && parameter in kbs[0].block.gradients
  {
    var first := kbs[0].block.gradients[parameter];
    var rows := MergedGradientRows(axis, samples, kbs, parameter);
    var values := Gather(axis, m, KeysOf(kbs), GradientSheets(kbs, parameter),
                         GradientLabels(samples, rows), Counts(first.components), properties.rows);
    Block(values, Labels(first.samples.names, rows), first.components, properties, map[])
  }

  /** The merged block: every cell holds the value of the source cell with the
      same labels, once the moved key is split off, or zero. */
  function Merged(axis: Axis, names: seq<string>, newKeys: Option<seq<Row>>, kbs: seq<KeyAndBlock>, sort: bool): Block
    requires kbs != []
  {
    var first := kbs[0].block;
    var samples := MergedSamples(axis, names, kbs, sort);
    var properties := MergedProperties(axis, names, newKeys, kbs);
    var values := Gather(axis, |names|, KeysOf(kbs), ValuesSheets(kbs),
                         SampleLabels(samples.rows), Counts(first.components), properties.rows);
    Block(values, samples, first.components, properties,
          map p | p in first.gradients :: MergedGradient(axis, |names|, samples.rows, properties, kbs, p))
  }

  /** The reasons for which merging returns an error. */
  ghost predicate MergeFails(axis: Axis, newKeys: Option<seq<Row>>, kbs: seq<KeyAndBlock>)
    requires kbs != []
  {
    var first := kbs[0].block;
    || (exists p :: p in first.gradients && first.gradients[p].gradients != map[])
    || (exists i :: 0 <= i < |kbs| && kbs[i].block.components != first.components)
    || ((axis.Samples? || newKeys.Some?) && exists i :: 0 <= i < |kbs| && kbs[i].block.properties != first.properties)
  }

  ghost predicate MergeInput(axis: Axis, names: seq<string>, newKeys: Option<seq<Row>>, kbs: seq<KeyAndBlock>) {
    && Mergeable(kbs, |names|)
    && ValidNames(names)
    && (newKeys.Some? ==> axis.Properties? && newKeys.value != [] && Distinct(newKeys.value) && OfSize(newKeys.value, |names|))
  }

  /** The block has a place in the merged properties; others are passed over. */
  predicate HasRange(axis: Axis, newKeys: Option<seq<Row>>, kb: KeyAndBlock) {
    axis.Samples? || (kb.block.properties.rows != [] && (newKeys.Some? ==> kb.key in newKeys.value))
  }

  /** Gradients that are copied have as many components as the new one; the
      values of the components are compared in debug builds only. */
  ghost predicate GradientShapesAgree(axis: Axis, newKeys: Option<seq<Row>>, kbs: seq<KeyAndBlock>, parameter: string) {
    forall i :: 0 <= i < |kbs| && parameter in kbs[i].block.gradients && parameter in kbs[0].block.gradients && HasRange(axis, newKeys, kbs[i]) ==>
      Counts(kbs[i].block.gradients[parameter].components) == Counts(kbs[0].block.gradients[parameter].components)
  }

  /** What the caller must see to, or the original aborts: labels that are
      iterated over have a dimension, moved names are new, gradients can be
      copied, row numbers fit a label value. */
  ghost predicate MergeDemands(axis: Axis, names: seq<string>, newKeys: Option<seq<Row>>, kbs: seq<KeyAndBlock>, sort: bool)
    requires kbs != []
  {
    var first := kbs[0].block;
    !MergeFails(axis, newKeys, kbs) ==>
      && first.samples.names != []
      && (axis.Properties? ==> first.properties.names != [])
      && Distinct(if axis.Samples? then first.samples.names + names else names + first.properties.names)
      && forall p :: p in first.gradients ==>
           GradientShapesAgree(axis, newKeys, kbs, p) && RowNumbersFit(axis, MergedSampleRows(axis, kbs, sort), kbs, p)
  }

  /** What merging can start from. */
  lemma StartOfMerge(axis: Axis, names: seq<string>, newKeys: Option<seq<Row>>, kbs: seq<KeyAndBlock>, sort: bool)
    requires MergeInput(axis, names, newKeys, kbs) && MergeDemands(axis, names, newKeys, kbs, sort)
    ensures Mergeable(kbs, |names|) && kbs != []
    ensures !MergeFails(axis, newKeys, kbs) ==> kbs[0].block.samples.names != []
  {}

  lemma MergedPropertiesAreValid(axis: Axis, names: seq<string>, newKeys: Option<seq<Row>>, kbs: seq<KeyAndBlock>, sort: bool)
    requires MergeInput(axis, names, newKeys, kbs) && !MergeFails(axis, newKeys, kbs) && MergeDemands(axis, names, newKeys, kbs, sort)
    ensures ValidLabels(MergedProperties(axis, names, newKeys, kbs))
  {
    var first := kbs[0].block;
    assert ValidBlock(first);
    if axis.Properties? {
      var keys, parts := RangeKeys(newKeys, kbs), RangeParts(newKeys, kbs);
      forall i | 0 <= i < |parts| ensures Distinct(parts[i]) && OfSize(parts[i], |first.properties.names|) {
        if newKeys.None? {
          assert ValidBlock(kbs[i].block) && SameStructure(first, kbs[i].block);
        }
      }
      ProductsAreDistinct(keys, parts, |names|);
      var all := Products(keys, parts);
      forall q | 0 <= q < |all| ensures |all[q]| == |names| + |first.properties.names| {
        var i := InProducts(keys, parts, q);
        var p :| 0 <= p < |parts[i]| && parts[i][p] == all[q][|keys[i]|..];
      }
    }
  }

  lemma MergedSamplesAreValid(axis: Axis, names: seq<string>, newKeys: Option<seq<Row>>, kbs: seq<KeyAndBlock>, sort: bool)
    requires MergeInput(axis, names, newKeys, kbs) && !MergeFails(axis, newKeys, kbs) && MergeDemands(axis, names, newKeys, kbs, sort)
    ensures ValidLabels(MergedSamples(axis, names, kbs, sort))
  {
    assert ValidBlock(kbs[0].block);
    MergedSampleRowsAreDistinct(axis, kbs, sort);
    MergedRowsHaveSize(axis, kbs, sort, |names|, |kbs[0].block.samples.names| + if axis.Samples? then |names| else 0);
  }

  lemma MergedGradientRowsRefer(axis: Axis, kbs: seq<KeyAndBlock>, sort: bool, m: nat, parameter: string)
    requires Mergeable(kbs, m) && parameter in kbs[0].block.gradients
    ensures var merged := MergedSampleRows(axis, kbs, sort);
      RefersTo(MergedGradientRows(axis, merged, kbs, parameter), merged)
  {
    var merged := MergedSampleRows(axis, kbs, sort);
    var rows := MergedGradientRows(axis, merged, kbs, parameter);
    forall k | 0 <= k < |rows| ensures rows[k] != [] && 0 <= rows[k][0] < |merged| {
      assert rows[k] in rows;
      OrderedSetIsSorted(AllGradientRows(axis, merged, kbs, parameter));
      InAllGradientRows(axis, merged, kbs, parameter, rows[k]);
      var i :| 0 <= i < |kbs| && rows[k] in RepointRows(MappingFor(axis, merged, kbs[i]), GradientRows(kbs[i], parameter));
      RepointedRowRefers(axis, kbs, sort, m, parameter, i, rows[k]);
    }
  }

  lemma RepointedRowRefers(axis: Axis, kbs: seq<KeyAndBlock>, sort: bool, m: nat, parameter: string, i: nat, row: Row)
    requires Mergeable(kbs, m) && parameter in kbs[0].block.gradients && i < |kbs|
    requires row in RepointRows(MappingFor(axis, MergedSampleRows(axis, kbs, sort), kbs[i]), GradientRows(kbs[i], parameter))
    ensures row != [] && 0 <= row[0] < |MergedSampleRows(axis, kbs, sort)|
  {
    var mapping := MappingFor(axis, MergedSampleRows(axis, kbs, sort), kbs[i]);
    GradientIsPresent(kbs, m, i, parameter);
    assert ValidParts(kbs[i].block);
    MappingIsInjective(axis, kbs, sort, i);
    var rows := GradientRows(kbs[i], parameter);
    var r :| 0 <= r < |rows| && row == Repoint(mapping, rows[r]);
    assert 0 <= rows[r][0] < |mapping|;
  }

  lemma MergedGradientIsValid(axis: Axis, m: nat, samples: seq<Row>, properties: Labels, kbs: seq<KeyAndBlock>, p: string)
    requires Mergeable(kbs, m) && p in kbs[0].block.gradients && ValidLabels(properties)
    ensures ValidBlock(MergedGradient(axis, m, samples, properties, kbs, p))
  {
    var g := MergedGradient(axis, m, samples, properties, kbs, p);
    GradientIsPresent(kbs, m, 0, p);
    assert ValidParts(kbs[0].block.gradients[p]);
    MergedGradientRowsHaveSize(axis, samples, kbs, m, p);
    OrderedSetIsSorted(AllGradientRows(axis, samples, kbs, p));
    StrictlySortedIsDistinct(g.samples.rows);
    assert ValidParts(g);
  }

  lemma MergedGradientFits(axis: Axis, names: seq<string>, newKeys: Option<seq<Row>>, kbs: seq<KeyAndBlock>, sort: bool, p: string)
    requires Mergeable(kbs, |names|) && p in kbs[0].block.gradients
    ensures GradientFits(Merged(axis, names, newKeys, kbs, sort), Merged(axis, names, newKeys, kbs, sort).gradients[p])
  {
    hide MergedGradientRows, MergedSampleRows, MergedProperties, Gather, ValidBlock;
    GradientIsPresent(kbs, |names|, 0, p);
    MergedGradientRowsRefer(axis, kbs, sort, |names|, p);
  }

  /** No internal failure: the merged block meets every check of
      `TensorBlock::new` and `add_gradient`. */
  lemma MergedIsValid(axis: Axis, names: seq<string>, newKeys: Option<seq<Row>>, kbs: seq<KeyAndBlock>, sort: bool)
    requires MergeInput(axis, names, newKeys, kbs) && !MergeFails(axis, newKeys, kbs) && MergeDemands(axis, names, newKeys, kbs, sort)
    ensures ValidBlock(Merged(axis, names, newKeys, kbs, sort))
  {
    var r := Merged(axis, names, newKeys, kbs, sort);
    MergedPropertiesAreValid(axis, names, newKeys, kbs, sort);
    MergedSamplesAreValid(axis, names, newKeys, kbs, sort);
    assert ValidBlock(kbs[0].block);
    forall p | p in r.gradients ensures ValidParameter(p) && ValidBlock(r.gradients[p]) && GradientFits(r, r.gradients[p]) {
      MergedGradientIsValid(axis, |names|, r.samples.rows, r.properties, kbs, p);
      MergedGradientFits(axis, names, newKeys, kbs, sort, p);
    }
  }
}
