/** Merging blocks: where each block goes, and the loops that put it there. */
module BlockMerging {
  import opened Wrappers
  import opened Sequences
  import opened Lexicographic
  import opened Arrays
  import opened LabelSets
  import opened Blocks
  import opened Sheets
  import opened Merging
  import opened PropertyRanges
  import opened MergedBlocks
  import opened TensorBlocks

  /** The start of the property range of a block, if it has one: the position
      of its first property behind its key. */
  function RangeOf(axis: Axis, properties: seq<Row>, kb: KeyAndBlock): Option<nat> {
    if axis.Samples? then Some(0)
    else if kb.block.properties.rows == [] then None
    else Position(properties, kb.key + kb.block.properties.rows[0])
  }

  /** The whole property list of the block is in its range, or nowhere. */
  ghost predicate RangeIsRight(axis: Axis, key: Row, part: seq<Row>, properties: seq<Row>, range: Option<nat>) {
    match range
    case Some(start) =>
      && start + |part| <= |properties|
      && forall p :: 0 <= p < |part| ==> properties[start + p] == MovedProperty(axis, key, part[p])
    case None =>
      && axis.Properties?
      && forall q :: 0 <= q < |properties| && |key| <= |properties[q]| && properties[q][..|key|] == key ==>
           properties[q][|key|..] !in part
  }

  lemma RangePartsAreSound(newKeys: Option<seq<Row>>, names: seq<string>, kbs: seq<KeyAndBlock>)
    requires MergeInput(Properties, names, newKeys, kbs) && !MergeFails(Properties, newKeys, kbs)
    ensures var keys, parts := RangeKeys(newKeys, kbs), RangeParts(newKeys, kbs);
      && Distinct(keys) && OfSize(keys, |names|)
      && (forall i :: 0 <= i < |parts| ==> Distinct(parts[i]))
      && forall b, i :: 0 <= b < |kbs| && 0 <= i < |keys| && keys[i] == kbs[b].key ==> parts[i] == kbs[b].block.properties.rows
  {
    forall b | 0 <= b < |kbs| ensures Distinct(kbs[b].block.properties.rows) {
      assert ValidBlock(kbs[b].block);
    }
    match newKeys
    case Some(_) =>
    case None =>
      assert forall b, i :: 0 <= b < |kbs| && 0 <= i < |kbs| && b != i ==> KeysOf(kbs)[b] != KeysOf(kbs)[i];
  }

  /** One lookup per block is enough to place all its properties. */
  lemma RangesAreRight(newKeys: Option<seq<Row>>, names: seq<string>, kbs: seq<KeyAndBlock>, b: nat)
    requires MergeInput(Properties, names, newKeys, kbs) && !MergeFails(Properties, newKeys, kbs) && b < |kbs|
    ensures var properties := Products(RangeKeys(newKeys, kbs), RangeParts(newKeys, kbs));
      RangeIsRight(Properties, kbs[b].key, kbs[b].block.properties.rows, properties, RangeOf(Properties, properties, kbs[b]))
  {
    RangePartsAreSound(newKeys, names, kbs);
    RangeOfPart(RangeKeys(newKeys, kbs), RangeParts(newKeys, kbs), |names|, kbs[b].key, kbs[b].block.properties.rows);
  }

  lemma RangeOfPart(keys: seq<Row>, parts: seq<seq<Row>>, m: nat, key: Row, part: seq<Row>)
    requires |keys| == |parts| && Distinct(keys) && OfSize(keys, m) && |key| == m
    requires forall i :: 0 <= i < |parts| ==> Distinct(parts[i])
    requires forall i :: 0 <= i < |keys| && keys[i] == key ==> parts[i] == part
    ensures var properties := Products(keys, parts);
      RangeIsRight(Properties, key, part, properties, if part == [] then None else Position(properties, key + part[0]))
  {
    hide Products;
    if part != [] {
      OneLookupSuffices(keys, parts, m, key, part);
      if key !in keys {
        AbsentPrefix(keys, parts, m, key);
      }
    }
  }

  lemma AbsentPrefix(keys: seq<Row>, parts: seq<seq<Row>>, m: nat, key: Row)
    requires |keys| == |parts| && OfSize(keys, m) && |key| == m && key !in keys
    ensures forall q :: 0 <= q < |Products(keys, parts)| ==>
      m <= |Products(keys, parts)[q]| ==> Products(keys, parts)[q][..m] != key
  {
    hide Products;
    forall q | 0 <= q < |Products(keys, parts)|
      ensures m <= |Products(keys, parts)[q]| ==> Products(keys, parts)[q][..m] != key
    {
      var i := InProducts(keys, parts, q);
    }
  }

  /** The property ranges of all blocks, from one lookup each. */
  method CollectRanges(kbs: seq<KeyAndBlock>, properties: seq<Row>) returns (ranges: seq<Option<nat>>)
    ensures |ranges| == |kbs|
    ensures forall i :: 0 <= i < |kbs| ==> ranges[i] == RangeOf(Properties, properties, kbs[i])
  {
    ranges := [];
    for i := 0 to |kbs|
      invariant |ranges| == i
      invariant forall k :: 0 <= k < i ==> ranges[k] == RangeOf(Properties, properties, kbs[k])
    {
      if kbs[i].block.properties.rows == [] {
        ranges := ranges + [None];
      } else {
        var first := kbs[i].key + kbs[i].block.properties.rows[0];
        ranges := ranges + [Position(properties, first)];
      }
    }
  }

  ghost predicate Lookups(axis: Axis, names: seq<string>, newKeys: Option<seq<Row>>, kbs: seq<KeyAndBlock>, ranges: seq<Option<nat>>)
    requires kbs != []
  {
    && |ranges| == |kbs|
    && forall i :: 0 <= i < |kbs| ==> ranges[i] == RangeOf(axis, MergedProperties(axis, names, newKeys, kbs).rows, kbs[i])
  }

  lemma RangeIsRightFor(axis: Axis, names: seq<string>, newKeys: Option<seq<Row>>, kbs: seq<KeyAndBlock>, b: nat)
    requires MergeInput(axis, names, newKeys, kbs) && !MergeFails(axis, newKeys, kbs) && b < |kbs|
    ensures var properties := MergedProperties(axis, names, newKeys, kbs).rows;
      RangeIsRight(axis, kbs[b].key, kbs[b].block.properties.rows, properties, RangeOf(axis, properties, kbs[b]))
  {
    if axis.Properties? {
      RangesAreRight(newKeys, names, kbs, b);
    } else {
      assert kbs[b].block.properties == kbs[0].block.properties;
    }
  }

  lemma MovedLabelIsInjective(axis: Axis, key: Row, a: RowLabel, b: RowLabel)
    requires a != b
    ensures MovedLabel(axis, key, a) != MovedLabel(axis, key, b)
  {
    LocateMoved(axis, key, a, []);
    LocateMoved(axis, key, b, []);
  }

  lemma OutputsAreDistinct(axis: Axis, key: Row, source: seq<RowLabel>, labels: seq<RowLabel>, mapping: seq<SampleMapping>)
    requires |mapping| == |source| && Distinct(source)
    requires forall j :: 0 <= j < |mapping| ==>
      mapping[j].output < |labels| && labels[mapping[j].output] == MovedLabel(axis, key, source[j])
    ensures DistinctOutputs(mapping)
  {
    forall j, k | 0 <= j < k < |mapping| ensures mapping[j].output != mapping[k].output {
      MovedLabelIsInjective(axis, key, source[j], source[k]);
    }
  }

  /** The row of a merged sample is about the sample it came from. */
  lemma SampleKeepsLabel(axis: Axis, kbs: seq<KeyAndBlock>, sort: bool, m: nat, i: nat, j: nat)
    requires Mergeable(kbs, m) && i < |kbs| && j < |kbs[i].block.samples.rows|
    ensures var merged := MergedSampleRows(axis, kbs, sort);
      var out := MappingFor(axis, merged, kbs[i])[j].output;
      out < |merged| && RowLabel(merged[out], []) == MovedLabel(axis, kbs[i].key, RowLabel(kbs[i].block.samples.rows[j], []))
  {
    assert ValidBlock(kbs[i].block);
    MappingIsInjective(axis, kbs, sort, i);
    assert kbs[i].block.samples.rows[j] + [] == kbs[i].block.samples.rows[j];
  }

  /** The values of a block have a place in the merged values. */
  lemma ValuesCanPlace(axis: Axis, names: seq<string>, newKeys: Option<seq<Row>>, kbs: seq<KeyAndBlock>, sort: bool, i: nat)
    requires MergeInput(axis, names, newKeys, kbs) && !MergeFails(axis, newKeys, kbs) && MergeDemands(axis, names, newKeys, kbs, sort)
    requires i < |kbs|
    ensures var merged := MergedSampleRows(axis, kbs, sort);
      var properties := MergedProperties(axis, names, newKeys, kbs).rows;
      CanPlace(axis, kbs[i].key, ValuesSheet(kbs[i].block), SampleLabels(merged), Counts(kbs[0].block.components), properties,
               MappingFor(axis, merged, kbs[i]), RangeOf(axis, properties, kbs[i]))
  {
    hide ValidBlock, Merged, MergedSampleRows, MappingFor, Products, RangeOf, MergeDemands, MergedProperties;
    var merged := MergedSampleRows(axis, kbs, sort);
    var mapping := MappingFor(axis, merged, kbs[i]);
    var b, labels := kbs[i].block, SampleLabels(merged);
    PartsOf(kbs, |names|, i);
    assert b.components == kbs[0].block.components;
    MergedSampleRowsAreDistinct(axis, kbs, sort);
    MergedPropertiesAreValid(axis, names, newKeys, kbs, sort);
    RangeIsRightFor(axis, names, newKeys, kbs, i);
    forall j | 0 <= j < |mapping|
      ensures mapping[j].output < |labels| && labels[mapping[j].output] == MovedLabel(axis, kbs[i].key, ValuesSheet(b).labels[j])
    {
      SampleKeepsLabel(axis, kbs, sort, |names|, i, j);
    }
    OutputsAreDistinct(axis, kbs[i].key, ValuesSheet(b).labels, labels, mapping);
  }

  lemma PartsOf(kbs: seq<KeyAndBlock>, m: nat, i: nat)
    requires Mergeable(kbs, m) && i < |kbs|
    ensures ValidParts(kbs[i].block)
  {
    assert ValidBlock(kbs[i].block);
  }

  /** Where the gradient rows of a block are in the merged gradient rows. */
  function GradientMapping(merged: seq<Row>, mapping: seq<SampleMapping>, rows: seq<Row>): (r: seq<SampleMapping>)
    ensures |r| == |rows|
    ensures forall j :: 0 <= j < |r| ==> r[j] == SampleMapping(j, Position(merged, Repoint(mapping, rows[j])).GetOr(0))
  {
    seq(|rows|, j requires 0 <= j < |rows| => SampleMapping(j, Position(merged, Repoint(mapping, rows[j])).GetOr(0)))
  }

  /** Find the translated gradient rows of one block in the merged ones. */
  method MapGradientSamples(merged: seq<Row>, mapping: seq<SampleMapping>, rows: seq<Row>) returns (r: seq<SampleMapping>)
    requires AllTranslatable(mapping, rows)
    requires Contains(merged, RepointRows(mapping, rows))
    ensures r == GradientMapping(merged, mapping, rows)
  {
    r := [];
    for j := 0 to |rows|
      invariant r == GradientMapping(merged, mapping, rows)[..j]
    {
      var row := TranslateRow(mapping, rows[j]);
      assert RepointRows(mapping, rows)[j] in merged;
      r := r + [SampleMapping(j, Position(merged, row).value)];
    }
  }

  lemma GradientRowsAreMerged(axis: Axis, merged: seq<Row>, kbs: seq<KeyAndBlock>, parameter: string, i: nat)
    requires i < |kbs|
    ensures Contains(MergedGradientRows(axis, merged, kbs, parameter),
                     RepointRows(MappingFor(axis, merged, kbs[i]), GradientRows(kbs[i], parameter)))
  {
    var rows := RepointRows(MappingFor(axis, merged, kbs[i]), GradientRows(kbs[i], parameter));
    OrderedSetIsSorted(AllGradientRows(axis, merged, kbs, parameter));
    forall j | 0 <= j < |rows| ensures rows[j] in MergedGradientRows(axis, merged, kbs, parameter) {
      InAllGradientRows(axis, merged, kbs, parameter, rows[j]);
    }
  }

  /** A re-pointed gradient row is about the same sample as before: its number
      changes, its meaning does not. */
  lemma RepointKeepsLabel(axis: Axis, kbs: seq<KeyAndBlock>, sort: bool, m: nat, i: nat, row: Row)
    requires Mergeable(kbs, m) && i < |kbs| && row != [] && 0 <= row[0] < |kbs[i].block.samples.rows|
    ensures var merged := MergedSampleRows(axis, kbs, sort);
      GradientLabel(merged, Repoint(MappingFor(axis, merged, kbs[i]), row))
      == MovedLabel(axis, kbs[i].key, GradientLabel(kbs[i].block.samples.rows, row))
  {
    SampleKeepsLabel(axis, kbs, sort, m, i, row[0]);
  }

  /** The gradient of a block has a place in the merged gradient. */
  lemma GradientCanPlace(axis: Axis, names: seq<string>, newKeys: Option<seq<Row>>, kbs: seq<KeyAndBlock>, sort: bool, p: string, i: nat)
    requires MergeInput(axis, names, newKeys, kbs) && !MergeFails(axis, newKeys, kbs) && MergeDemands(axis, names, newKeys, kbs, sort)
    requires i < |kbs| && p in kbs[0].block.gradients
    ensures var merged := MergedSampleRows(axis, kbs, sort);
      var rows := MergedGradientRows(axis, merged, kbs, p);
      var properties := MergedProperties(axis, names, newKeys, kbs).rows;
      && p in kbs[i].block.gradients
      && CanPlace(axis, kbs[i].key, GradientSheet(kbs[i].block, p), GradientLabels(merged, rows),
                  Counts(kbs[0].block.gradients[p].components), properties,
                  GradientMapping(rows, MappingFor(axis, merged, kbs[i]), kbs[i].block.gradients[p].samples.rows),
                  RangeOf(axis, properties, kbs[i]))
  {
    hide ValidBlock, Merged, MergedSampleRows, MappingFor, Products, RangeOf, MergedProperties, MergedGradientRows, RowNumbersFit;
    GradientIsPresent(kbs, |names|, i, p);
    var merged, source := MergedSampleRows(axis, kbs, sort), kbs[i].block.gradients[p].samples.rows;
    var rows := MergedGradientRows(axis, merged, kbs, p);
    var mapping := GradientMapping(rows, MappingFor(axis, merged, kbs[i]), source);
    var labels, sheet := GradientLabels(merged, rows), GradientSheet(kbs[i].block, p);
    MergedPropertiesAreValid(axis, names, newKeys, kbs, sort);
    RangeIsRightFor(axis, names, newKeys, kbs, i);
    RangeIsFound(axis, names, newKeys, kbs, i);
    GradientSheetIsDistinct(kbs, |names|, i, p);
    MergedGradientLabelsAreDistinct(axis, kbs, sort, |names|, p);
    GradientRowsAreMerged(axis, merged, kbs, p, i);
    assert GradientRows(kbs[i], p) == source;
    forall j | 0 <= j < |mapping|
      ensures mapping[j].output < |labels| && labels[mapping[j].output] == MovedLabel(axis, kbs[i].key, sheet.labels[j])
    {
      assert RepointRows(MappingFor(axis, merged, kbs[i]), source)[j] in rows;
      RepointKeepsLabel(axis, kbs, sort, |names|, i, source[j]);
    }
    OutputsAreDistinct(axis, kbs[i].key, sheet.labels, labels, mapping);
  }

  lemma GradientSheetIsDistinct(kbs: seq<KeyAndBlock>, m: nat, i: nat, p: string)
    requires Mergeable(kbs, m) && i < |kbs| && p in kbs[0].block.gradients
    ensures p in kbs[i].block.gradients
    ensures var sheet := GradientSheet(kbs[i].block, p);
      Distinct(sheet.labels) && Distinct(sheet.properties)
      && FitsShape(sheet, Counts(kbs[i].block.gradients[p].components))
    ensures RefersTo(kbs[i].block.gradients[p].samples.rows, kbs[i].block.samples.rows)
  {
    hide ValidBlock;
    GradientIsPresent(kbs, m, i, p);
    PartsOf(kbs, m, i);
    var b, g := kbs[i].block, kbs[i].block.gradients[p];
    assert ValidParts(g) by {
      GradientPartsOf(kbs, m, i, p);
    }
    GradientLabelsAreDistinct(b.samples.rows, g.samples.rows);
  }

  /** A block has a range exactly if one is looked up for it. */
  lemma RangeIsFound(axis: Axis, names: seq<string>, newKeys: Option<seq<Row>>, kbs: seq<KeyAndBlock>, b: nat)
    requires MergeInput(axis, names, newKeys, kbs) && !MergeFails(axis, newKeys, kbs) && b < |kbs|
    ensures HasRange(axis, newKeys, kbs[b]) <==> RangeOf(axis, MergedProperties(axis, names, newKeys, kbs).rows, kbs[b]).Some?
  {
    if axis.Properties? && kbs[b].block.properties.rows != [] {
      RangePartsAreSound(newKeys, names, kbs);
      var keys, parts := RangeKeys(newKeys, kbs), RangeParts(newKeys, kbs);
      assert kbs[b].key in keys <==> HasRange(axis, newKeys, kbs[b]) by {
        assert KeysOf(kbs)[b] == kbs[b].key;
      }
      hide Products, MergeInput, MergeFails;
      OneLookupSuffices(keys, parts, |names|, kbs[b].key, kbs[b].block.properties.rows);
    }
  }

  lemma GradientPartsOf(kbs: seq<KeyAndBlock>, m: nat, i: nat, p: string)
    requires Mergeable(kbs, m) && i < |kbs| && p in kbs[0].block.gradients
    ensures p in kbs[i].block.gradients && ValidParts(kbs[i].block.gradients[p])
  {
    GradientIsPresent(kbs, m, i, p);
  }

  lemma MergedGradientLabelsAreDistinct(axis: Axis, kbs: seq<KeyAndBlock>, sort: bool, m: nat, p: string)
    requires Mergeable(kbs, m) && p in kbs[0].block.gradients
    ensures var merged := MergedSampleRows(axis, kbs, sort);
      Distinct(GradientLabels(merged, MergedGradientRows(axis, merged, kbs, p)))
  {
    var merged := MergedSampleRows(axis, kbs, sort);
    MergedSampleRowsAreDistinct(axis, kbs, sort);
    MergedGradientRowsRefer(axis, kbs, sort, m, p);
    OrderedSetIsSorted(AllGradientRows(axis, merged, kbs, p));
    StrictlySortedIsDistinct(MergedGradientRows(axis, merged, kbs, p));
    GradientLabelsAreDistinct(merged, MergedGradientRows(axis, merged, kbs, p));
  }

  /** The new position of every sample of every block. */
  ghost predicate AreMappings(axis: Axis, merged: seq<Row>, kbs: seq<KeyAndBlock>, mappings: seq<seq<SampleMapping>>) {
    |mappings| == |kbs| && forall i :: 0 <= i < |kbs| ==> mappings[i] == MappingFor(axis, merged, kbs[i])
  }

  /** Scatter the values of all blocks. */
  method ScatterValues(kbs: seq<KeyAndBlock>, shape: seq<nat>, mappings: seq<seq<SampleMapping>>, ranges: seq<Option<nat>>,
                       ghost axis: Axis, ghost names: seq<string>, ghost newKeys: Option<seq<Row>>, ghost sort: bool)
    returns (data: Array)
    requires MergeInput(axis, names, newKeys, kbs) && !MergeFails(axis, newKeys, kbs) && MergeDemands(axis, names, newKeys, kbs, sort)
    requires AreMappings(axis, MergedSampleRows(axis, kbs, sort), kbs, mappings)
    requires Lookups(axis, names, newKeys, kbs, ranges)
    requires shape == BlockShape(MergedSamples(axis, names, kbs, sort), kbs[0].block.components, MergedProperties(axis, names, newKeys, kbs))
    ensures data == Merged(axis, names, newKeys, kbs, sort).values
  {
    hide MergeFails, MergeDemands, MergedSampleRows, MergedProperties, CanPlace, RangeOf, MappingFor, ValidBlock;
    var arrays := seq(|kbs|, i requires 0 <= i < |kbs| => kbs[i].block.values);
    var sizes := seq(|kbs|, i requires 0 <= i < |kbs| => |kbs[i].block.properties.rows|);
    ghost var labels := SampleLabels(MergedSampleRows(axis, kbs, sort));
    ghost var properties := MergedProperties(axis, names, newKeys, kbs).rows;
    ghost var middle := Counts(kbs[0].block.components);
    forall i | 0 <= i < |kbs|
      ensures CanPlace(axis, kbs[i].key, ValuesSheets(kbs)[i], labels, middle, properties, mappings[i], ranges[i])
    {
      ValuesCanPlace(axis, names, newKeys, kbs, sort, i);
    }
    data := ScatterBlocks(shape, arrays, sizes, mappings, ranges,
                          axis, |names|, KeysOf(kbs), ValuesSheets(kbs), labels, middle, properties);
  }

  /** Where the gradient rows of every block go; blocks without a range are
      passed over. */
  method MapAllGradients(kbs: seq<KeyAndBlock>, p: string, rows: seq<Row>, mappings: seq<seq<SampleMapping>>, ranges: seq<Option<nat>>,
                         ghost axis: Axis, ghost m: nat, ghost merged: seq<Row>)
    returns (moves: seq<seq<SampleMapping>>)
    requires Mergeable(kbs, m) && p in kbs[0].block.gradients
    requires AreMappings(axis, merged, kbs, mappings) && |ranges| == |kbs|
    requires RowNumbersFit(axis, merged, kbs, p)
    requires rows == MergedGradientRows(axis, merged, kbs, p)
    ensures |moves| == |kbs|
    ensures forall i :: 0 <= i < |kbs| ==> p in kbs[i].block.gradients && (ranges[i].Some? ==>
      moves[i] == GradientMapping(rows, MappingFor(axis, merged, kbs[i]), kbs[i].block.gradients[p].samples.rows))
  {
    hide Mergeable, MappingFor, MergedGradientRows, Contains, AllTranslatable;
    moves := [];
    for i := 0 to |kbs|
      invariant |moves| == i
      invariant forall k :: 0 <= k < i ==> p in kbs[k].block.gradients && (ranges[k].Some? ==>
        moves[k] == GradientMapping(rows, MappingFor(axis, merged, kbs[k]), kbs[k].block.gradients[p].samples.rows))
    {
      GradientIsPresent(kbs, m, i, p);
      if ranges[i] == None {
        moves := moves + [[]];
      } else {
        var gradient := kbs[i].block.gradients[p];
        assert GradientRows(kbs[i], p) == gradient.samples.rows;
        GradientRowsAreMerged(axis, merged, kbs, p, i);
        var move := MapGradientSamples(rows, mappings[i], gradient.samples.rows);
        moves := moves + [move];
      }
    }
  }

  lemma NoRangeNoMapping(axis: Axis, key: Row, sheet: Sheet, labels: seq<RowLabel>, middle: seq<nat>, properties: seq<Row>,
                         unused: seq<SampleMapping>, mapping: seq<SampleMapping>)
    requires CanPlace(axis, key, sheet, labels, middle, properties, unused, None)
    ensures CanPlace(axis, key, sheet, labels, middle, properties, mapping, None)
  {}

  /** Scatter the gradients of all blocks. */
  method ScatterGradients(kbs: seq<KeyAndBlock>, p: string, samples: Labels, components: seq<Labels>, properties: Labels,
                          moves: seq<seq<SampleMapping>>, ranges: seq<Option<nat>>,
                          ghost axis: Axis, ghost m: nat, ghost merged: seq<Row>)
    returns (data: Array)
    requires Distinct(KeysOf(kbs)) && |moves| == |ranges| == |kbs|
    requires forall i :: 0 <= i < |kbs| ==> |kbs[i].key| == m && p in kbs[i].block.gradients
    requires forall i :: 0 <= i < |kbs| ==>
      CanPlace(axis, kbs[i].key, GradientSheet(kbs[i].block, p), GradientLabels(merged, samples.rows), Counts(components), properties.rows, moves[i], ranges[i])
    ensures data == Gather(axis, m, KeysOf(kbs), GradientSheets(kbs, p), GradientLabels(merged, samples.rows), Counts(components), properties.rows)
  {
    hide CanPlace, Gather;
    var arrays := seq(|kbs|, i requires 0 <= i < |kbs| => kbs[i].block.gradients[p].values);
    var sizes := seq(|kbs|, i requires 0 <= i < |kbs| => |kbs[i].block.properties.rows|);
    data := ScatterBlocks(BlockShape(samples, components, properties), arrays, sizes, moves, ranges,
                          axis, m, KeysOf(kbs), GradientSheets(kbs, p), GradientLabels(merged, samples.rows), Counts(components), properties.rows);
  }

  /** Merge one gradient of all blocks. */
  method MergeGradient(kbs: seq<KeyAndBlock>, p: string, mappings: seq<seq<SampleMapping>>, ranges: seq<Option<nat>>, properties: Labels,
                       ghost axis: Axis, ghost names: seq<string>, ghost newKeys: Option<seq<Row>>, ghost sort: bool)
    returns (g: TensorBlock)
    requires MergeInput(axis, names, newKeys, kbs) && !MergeFails(axis, newKeys, kbs) && MergeDemands(axis, names, newKeys, kbs, sort)
    requires AreMappings(axis, MergedSampleRows(axis, kbs, sort), kbs, mappings)
    requires Lookups(axis, names, newKeys, kbs, ranges)
    requires properties == MergedProperties(axis, names, newKeys, kbs)
    requires p in kbs[0].block.gradients
    ensures g.Valid() && g.Repr == {g} && fresh(g)
    ensures g.Model == Merged(axis, names, newKeys, kbs, sort).gradients[p]
  {
    hide MergeFails, MergedSampleRows, MergedGradientRows, MergedProperties, CanPlace, RangeOf, MappingFor, ValidBlock, GradientSheet, Gather;
    ghost var merged := MergedSampleRows(axis, kbs, sort);
    var samples := MergeGradientSamples(kbs, p, mappings, axis, |names|, merged);
    var first := kbs[0].block.gradients[p];
    var moves := MapAllGradients(kbs, p, samples.rows, mappings, ranges, axis, |names|, merged);
    ghost var labels, middle := GradientLabels(merged, samples.rows), Counts(first.components);
    forall i | 0 <= i < |kbs|
      ensures p in kbs[i].block.gradients
      ensures CanPlace(axis, kbs[i].key, GradientSheet(kbs[i].block, p), labels, middle, properties.rows, moves[i], ranges[i])
    {
      GradientCanPlace(axis, names, newKeys, kbs, sort, p, i);
      if ranges[i] == None {
        var unused := GradientMapping(samples.rows, MappingFor(axis, merged, kbs[i]), kbs[i].block.gradients[p].samples.rows);
        NoRangeNoMapping(axis, kbs[i].key, GradientSheet(kbs[i].block, p), labels, middle, properties.rows, unused, moves[i]);
      }
    }
    var data := ScatterGradients(kbs, p, samples, first.components, properties, moves, ranges, axis, |names|, merged);
    MergedPropertiesAreValid(axis, names, newKeys, kbs, sort);
    MergedGradientIsValid(axis, |names|, merged, properties, kbs, p);
    PartsOfValidBlock(MergedGradient(axis, |names|, merged, properties, kbs, p));
    var made := TensorBlock.New(data, samples, first.components, properties);
    g := made.value;
  }

  /** The values of a merged block without its gradients are a valid block. */
  lemma WithoutGradientsIsValid(b: Block)
    requires ValidBlock(b)
    ensures ValidBlock(b.(gradients := map[])) && ValidParts(b)
  {
    assert ValidParts(b.(gradients := map[]));
  }

  lemma GradientOf(b: Block, p: string)
    requires ValidBlock(b) && p in b.gradients
    ensures ValidParameter(p) && GradientFits(b, b.gradients[p])
  {}

  /** Merge the gradients one after the other and add them to the new block. */
  method AddMergedGradients(block: TensorBlock, kbs: seq<KeyAndBlock>, mappings: seq<seq<SampleMapping>>, ranges: seq<Option<nat>>,
                            ghost axis: Axis, ghost names: seq<string>, ghost newKeys: Option<seq<Row>>, ghost sort: bool)
    requires MergeInput(axis, names, newKeys, kbs) && !MergeFails(axis, newKeys, kbs) && MergeDemands(axis, names, newKeys, kbs, sort)
    requires AreMappings(axis, MergedSampleRows(axis, kbs, sort), kbs, mappings)
    requires Lookups(axis, names, newKeys, kbs, ranges)
    requires block.Valid() && block.Model == Merged(axis, names, newKeys, kbs, sort).(gradients := map[])
    modifies block
    ensures block.Valid() && fresh(block.Repr - old(block.Repr))
    ensures block.Model == Merged(axis, names, newKeys, kbs, sort)
  {
    hide MergeFails, MergeDemands, MergedSampleRows, AreMappings, Lookups, Merged, ValidBlock, GradientFits, MergedProperties;
    ghost var whole := Merged(axis, names, newKeys, kbs, sort);
    MergedGradientKeys(axis, names, newKeys, kbs, sort);
    MergedIsValid(axis, names, newKeys, kbs, sort);
    ghost var done: set<string> := {};
    var todo := kbs[0].block.gradients.Keys;
    assert WithGradients(whole, {}) == whole.(gradients := map[]);
    while todo != {}
      invariant todo <= whole.gradients.Keys && done == whole.gradients.Keys - todo
      invariant block.Valid() && fresh(block.Repr - old(block.Repr))
      invariant block.Model == WithGradients(whole, done)
      decreases todo
    {
      var p :| p in todo;
      assert block.properties == block.Model.properties == whole.properties;
      var gradient := MergeGradient(kbs, p, mappings, ranges, block.properties, axis, names, newKeys, sort);
      GradientOf(whole, p);
      SameLabelsFit(whole, WithGradients(whole, done), gradient.Model);
      OneMoreGradient(whole, done, p);
      var added := block.AddGradient(p, gradient);
      todo, done := todo - {p}, done + {p};
    }
    assert WithGradients(whole, done) == whole;
  }

  lemma MergedGradientKeys(axis: Axis, names: seq<string>, newKeys: Option<seq<Row>>, kbs: seq<KeyAndBlock>, sort: bool)
    requires kbs != []
    ensures Merged(axis, names, newKeys, kbs, sort).gradients.Keys == kbs[0].block.gradients.Keys
    ensures Merged(axis, names, newKeys, kbs, sort).properties == MergedProperties(axis, names, newKeys, kbs)
  {}

  /** The checks on the blocks before anything is merged. */
  method CheckBlocks(kbs: seq<KeyAndBlock>, sameProperties: bool, ghost axis: Axis, ghost newKeys: Option<seq<Row>>) returns (r: Result<()>)
    requires kbs != [] && (sameProperties <==> axis.Samples? || newKeys.Some?)
    ensures r.Ok? <==> !MergeFails(axis, newKeys, kbs)
    ensures r.Err? ==> r.error == InvalidParameter
  {
    var first := kbs[0].block;
    var todo := first.gradients.Keys;
    while todo != {}
      invariant todo <= first.gradients.Keys
      invariant forall p :: p in first.gradients && p !in todo ==> first.gradients[p].gradients == map[]
      decreases todo
    {
      var p :| p in todo;
      if first.gradients[p].gradients != map[] {
        return Err(InvalidParameter);
      }
      todo := todo - {p};
    }
    for i := 0 to |kbs|
      invariant forall k :: 0 <= k < i ==> kbs[k].block.components == first.components
      invariant sameProperties ==> forall k :: 0 <= k < i ==> kbs[k].block.properties == first.properties
    {
      if kbs[i].block.components != first.components {
        return Err(InvalidParameter);
      }
      if sameProperties && kbs[i].block.properties != first.properties {
        return Err(InvalidParameter);
      }
    }
    return Ok(());
  }

  /** Build the merged block from its values, then add its gradients. */
  method BuildMerged(kbs: seq<KeyAndBlock>, samples: Labels, properties: Labels, mappings: seq<seq<SampleMapping>>, ranges: seq<Option<nat>>,
                     ghost axis: Axis, ghost names: seq<string>, ghost newKeys: Option<seq<Row>>, ghost sort: bool)
    returns (block: TensorBlock)
    requires MergeInput(axis, names, newKeys, kbs) && !MergeFails(axis, newKeys, kbs) && MergeDemands(axis, names, newKeys, kbs, sort)
    requires samples == MergedSamples(axis, names, kbs, sort)
    requires properties == MergedProperties(axis, names, newKeys, kbs)
    requires AreMappings(axis, samples.rows, kbs, mappings)
    requires Lookups(axis, names, newKeys, kbs, ranges)
    ensures fresh(block.Repr) && block.Valid() && block.Model == Merged(axis, names, newKeys, kbs, sort)
  {
    MergedIsValid(axis, names, newKeys, kbs, sort);
    WithoutGradientsIsValid(Merged(axis, names, newKeys, kbs, sort));
    hide MergeFails, MergeDemands, Mergeable, AreMappings, Lookups, ValidBlock, MergedSampleRows, MergedProperties, Gather;
    var first := kbs[0].block;
    var newShape := BlockShape(samples, first.components, properties);
    var data := ScatterValues(kbs, newShape, mappings, ranges, axis, names, newKeys, sort);
    var made := TensorBlock.New(data, samples, first.components, properties);
    block := made.value;
    assert block.Model == Merged(axis, names, newKeys, kbs, sort).(gradients := map[]);
    AddMergedGradients(block, kbs, mappings, ranges, axis, names, newKeys, sort);
  }
}
