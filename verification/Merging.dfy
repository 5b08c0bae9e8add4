/** Merging the samples and the gradient samples of several blocks. */
module Merging {
  import opened Sequences
  import opened Lexicographic
  import opened Arrays
  import opened LabelSets
  import opened Blocks
  import opened Tensors
  import opened Sheets

  /** A block with the part of its key that moves to another axis. */
  datatype KeyAndBlock = KeyAndBlock(key: Row, block: Block)

  function KeysOf(kbs: seq<KeyAndBlock>): (r: seq<Row>)
    ensures |r| == |kbs|
    ensures forall i :: 0 <= i < |r| ==> r[i] == kbs[i].key
  {
    seq(|kbs|, i requires 0 <= i < |kbs| => kbs[i].key)
  }

  /** The blocks of a merge come from one valid tensor map, under distinct keys. */
  ghost predicate Mergeable(kbs: seq<KeyAndBlock>, m: nat) {
    && kbs != []
    && Distinct(KeysOf(kbs))
    && (forall i :: 0 <= i < |kbs| ==> |kbs[i].key| == m)
    && (forall i :: 0 <= i < |kbs| ==> ValidBlock(kbs[i].block))
    && (forall i :: 0 <= i < |kbs| ==> SameStructure(kbs[0].block, kbs[i].block))
  }

  /** The sample rows of a block, extended by its key when the key moves to the
      samples. */
  function SampleRows(axis: Axis, kb: KeyAndBlock): (r: seq<Row>)
    ensures |r| == |kb.block.samples.rows|
    ensures forall j :: 0 <= j < |r| ==> r[j] == kb.block.samples.rows[j] + (if axis.Samples? then kb.key else [])
  {
    var rows := kb.block.samples.rows;
    seq(|rows|, j requires 0 <= j < |rows| => rows[j] + (if axis.Samples? then kb.key else []))
  }

  function AllSampleRows(axis: Axis, kbs: seq<KeyAndBlock>): seq<Row> {
    if kbs == [] then [] else AllSampleRows(axis, kbs[..|kbs| - 1]) + SampleRows(axis, kbs[|kbs| - 1])
  }

  /** The merged sample rows: each one once, in order of first occurrence or
      sorted. */
  function MergedSampleRows(axis: Axis, kbs: seq<KeyAndBlock>, sort: bool): seq<Row> {
    var rows := FirstOccurrences(AllSampleRows(axis, kbs));
    if sort then SortRows(rows) else rows
  }

  lemma {:induction false} InAllSampleRows(axis: Axis, kbs: seq<KeyAndBlock>, row: Row)
    ensures row in AllSampleRows(axis, kbs) <==> exists i :: 0 <= i < |kbs| && row in SampleRows(axis, kbs[i])
  {
    if kbs != [] {
      var n := |kbs| - 1;
      InAllSampleRows(axis, kbs[..n], row);
      assert forall i :: 0 <= i < n ==> kbs[..n][i] == kbs[i];
    }
  }

  lemma MergedSampleRowsAreDistinct(axis: Axis, kbs: seq<KeyAndBlock>, sort: bool)
    ensures Distinct(MergedSampleRows(axis, kbs, sort))
    ensures forall row :: row in MergedSampleRows(axis, kbs, sort) <==> row in AllSampleRows(axis, kbs)
  {
    FirstOccurrencesIsSet(AllSampleRows(axis, kbs));
    SortOfDistinct(FirstOccurrences(AllSampleRows(axis, kbs)));
  }

  lemma SampleRowIsMerged(axis: Axis, kbs: seq<KeyAndBlock>, sort: bool, i: nat, j: nat)
    requires i < |kbs| && j < |kbs[i].block.samples.rows|
    ensures SampleRows(axis, kbs[i])[j] in MergedSampleRows(axis, kbs, sort)
  {
    MergedSampleRowsAreDistinct(axis, kbs, sort);
    InAllSampleRows(axis, kbs, SampleRows(axis, kbs[i])[j]);
  }

  ghost predicate Contains(merged: seq<Row>, rows: seq<Row>) {
    forall j :: 0 <= j < |rows| ==> rows[j] in merged
  }

  lemma AllSamplesAreMerged(axis: Axis, kbs: seq<KeyAndBlock>, sort: bool, i: nat)
    requires i < |kbs|
    ensures Contains(MergedSampleRows(axis, kbs, sort), SampleRows(axis, kbs[i]))
  {
    forall j | 0 <= j < |SampleRows(axis, kbs[i])| ensures SampleRows(axis, kbs[i])[j] in MergedSampleRows(axis, kbs, sort) {
      SampleRowIsMerged(axis, kbs, sort, i, j);
    }
  }

  /** Where the samples of a block are in the merged samples. */
  function MappingFor(axis: Axis, merged: seq<Row>, kb: KeyAndBlock): (r: seq<SampleMapping>)
    ensures |r| == |kb.block.samples.rows|
    ensures forall j :: 0 <= j < |r| ==> r[j] == SampleMapping(j, Position(merged, SampleRows(axis, kb)[j]).GetOr(0))
  {
    var rows := SampleRows(axis, kb);
    seq(|rows|, j requires 0 <= j < |rows| => SampleMapping(j, Position(merged, rows[j]).GetOr(0)))
  }

  lemma MappingIsInjective(axis: Axis, kbs: seq<KeyAndBlock>, sort: bool, i: nat)
    requires i < |kbs| && Distinct(kbs[i].block.samples.rows)
    ensures var merged := MergedSampleRows(axis, kbs, sort);
      && DistinctOutputs(MappingFor(axis, merged, kbs[i]))
      && forall j :: 0 <= j < |kbs[i].block.samples.rows| ==>
           var out := MappingFor(axis, merged, kbs[i])[j].output;
           out < |merged| && merged[out] == SampleRows(axis, kbs[i])[j]
  {
    var merged := MergedSampleRows(axis, kbs, sort);
    var rows := SampleRows(axis, kbs[i]);
    AllSamplesAreMerged(axis, kbs, sort, i);
    forall j, k | 0 <= j < k < |rows| ensures rows[j] != rows[k] {
      assert kbs[i].block.samples.rows[j] == rows[j][..|rows[j]| - |if axis.Samples? then kbs[i].key else []|];
      assert kbs[i].block.samples.rows[k] == rows[k][..|rows[k]| - |if axis.Samples? then kbs[i].key else []|];
    }
  }

  /** Insert the samples of one block, extended by its key if needed. */
  method InsertSamples(before: seq<Row>, kb: KeyAndBlock, addKey: bool, ghost axis: Axis, ghost all: seq<Row>)
    returns (rows: seq<Row>)
    requires before == FirstOccurrences(all)
    requires axis.Samples? && !addKey ==> kb.key == []
    requires addKey ==> axis.Samples?
    ensures rows == FirstOccurrences(all + SampleRows(axis, kb))
  {
    rows := before;
    ghost var added := SampleRows(axis, kb);
    var samples := kb.block.samples.rows;
    assert all + added[..0] == all;
    for j := 0 to |samples|
      invariant rows == FirstOccurrences(all + added[..j])
    {
      var sample := samples[j];
      if addKey {
        sample := sample + kb.key;
      }
      assert sample == added[j];
      TakeOneMore(all, added, j);
      FirstOccurrencesAppend(all + added[..j], sample);
      rows := Insert(rows, sample);
    }
    assert added[..|samples|] == added;
  }

  /** Find the samples of one block in the merged samples. */
  method MapSamples(merged: seq<Row>, kb: KeyAndBlock, addKey: bool, ghost axis: Axis) returns (mapping: seq<SampleMapping>)
    requires axis.Samples? && !addKey ==> kb.key == []
    requires addKey ==> axis.Samples?
    requires Contains(merged, SampleRows(axis, kb))
    ensures mapping == MappingFor(axis, merged, kb)
  {
    mapping := [];
    var samples := kb.block.samples.rows;
    for j := 0 to |samples|
      invariant mapping == MappingFor(axis, merged, kb)[..j]
    {
      var sample := samples[j];
      if addKey {
        sample := sample + kb.key;
      }
      assert sample == SampleRows(axis, kb)[j];
      mapping := mapping + [SampleMapping(j, Position(merged, sample).value)];
    }
  }

  /** Insert the samples of all blocks. */
  method CollectSamples(kbs: seq<KeyAndBlock>, addKey: bool, ghost axis: Axis) returns (rows: seq<Row>)
    requires axis.Samples? && !addKey ==> forall i :: 0 <= i < |kbs| ==> kbs[i].key == []
    requires addKey ==> axis.Samples?
    ensures rows == FirstOccurrences(AllSampleRows(axis, kbs))
  {
    rows := [];
    for i := 0 to |kbs|
      invariant rows == FirstOccurrences(AllSampleRows(axis, kbs[..i]))
    {
      rows := InsertSamples(rows, kbs[i], addKey, axis, AllSampleRows(axis, kbs[..i]));
      assert kbs[..i + 1][..i] == kbs[..i];
    }
    assert kbs[..|kbs|] == kbs;
  }

  /** Find the samples of all blocks in the merged samples. */
  method MapAllSamples(merged: seq<Row>, kbs: seq<KeyAndBlock>, addKey: bool, ghost axis: Axis)
    returns (mappings: seq<seq<SampleMapping>>)
    requires axis.Samples? && !addKey ==> forall i :: 0 <= i < |kbs| ==> kbs[i].key == []
    requires addKey ==> axis.Samples?
    requires forall i :: 0 <= i < |kbs| ==> Contains(merged, SampleRows(axis, kbs[i]))
    ensures |mappings| == |kbs|
    ensures forall i :: 0 <= i < |kbs| ==> mappings[i] == MappingFor(axis, merged, kbs[i])
  {
    mappings := [];
    for i := 0 to |kbs|
      invariant |mappings| == i
      invariant forall k :: 0 <= k < i ==> mappings[k] == MappingFor(axis, merged, kbs[k])
    {
      var mapping := MapSamples(merged, kbs[i], addKey, axis);
      mappings := mappings + [mapping];
    }
  }

  /** Collect, and optionally sort, the samples of all blocks, and say where
      the samples of each block went. */
  method MergeSamples(kbs: seq<KeyAndBlock>, newNames: seq<string>, sort: bool, ghost axis: Axis, ghost m: nat)
    returns (merged: Labels, mappings: seq<seq<SampleMapping>>)
    requires Mergeable(kbs, m) && kbs[0].block.samples.names != []
    requires |newNames| == |kbs[0].block.samples.names| + (if axis.Samples? then m else 0)
    ensures merged == Labels(newNames, MergedSampleRows(axis, kbs, sort))
    ensures sort ==> Ascending(merged.rows)
    ensures |mappings| == |kbs|
    ensures forall i :: 0 <= i < |kbs| ==> mappings[i] == MappingFor(axis, merged.rows, kbs[i])
  {
    var addKey := |kbs[0].block.samples.names| < |newNames|;
    var rows := CollectSamples(kbs, addKey, axis);
    if sort {
      rows := SortRows(rows);
    }
    MergedRowsHaveSize(axis, kbs, sort, m, |newNames|);
    ChunksOfFlatten(rows, |newNames|);
    merged := FromValues(newNames, Flatten(rows));
    if sort {
      SortedSamplesAscend(axis, kbs, m);
    }

    forall i | 0 <= i < |kbs| ensures Contains(rows, SampleRows(axis, kbs[i])) {
      AllSamplesAreMerged(axis, kbs, sort, i);
    }
    mappings := MapAllSamples(rows, kbs, addKey, axis);
  }

  lemma MergedRowsHaveSize(axis: Axis, kbs: seq<KeyAndBlock>, sort: bool, m: nat, size: nat)
    requires Mergeable(kbs, m)
    requires size == |kbs[0].block.samples.names| + (if axis.Samples? then m else 0)
    ensures OfSize(MergedSampleRows(axis, kbs, sort), size)
  {
    var rows := MergedSampleRows(axis, kbs, sort);
    forall k | 0 <= k < |rows| ensures |rows[k]| == size {
      MergedSampleRowsAreDistinct(axis, kbs, sort);
      assert rows[k] in rows;
      InAllSampleRows(axis, kbs, rows[k]);
      var i :| 0 <= i < |kbs| && rows[k] in SampleRows(axis, kbs[i]);
      assert SameStructure(kbs[0].block, kbs[i].block) && ValidBlock(kbs[i].block);
    }
  }

  /** Sorted samples are in ascending order. */
  lemma SortedSamplesAscend(axis: Axis, kbs: seq<KeyAndBlock>, m: nat)
    requires Mergeable(kbs, m)
    ensures Ascending(MergedSampleRows(axis, kbs, true))
  {
    var size := |kbs[0].block.samples.names| + if axis.Samples? then m else 0;
    MergedRowsHaveSize(axis, kbs, true, m, size);
    FirstOccurrencesIsSet(AllSampleRows(axis, kbs));
    SortOfDistinct(FirstOccurrences(AllSampleRows(axis, kbs)));
    SortedIsAscending(MergedSampleRows(axis, kbs, true), size);
  }

  /** A gradient row of a block, pointing at the merged samples instead of the
      samples of its block. */
  function Repoint(mapping: seq<SampleMapping>, row: Row): Row {
    if row != [] && 0 <= row[0] < |mapping| then [mapping[row[0]].output] + row[1..] else row
  }

  function RepointRows(mapping: seq<SampleMapping>, rows: seq<Row>): (r: seq<Row>)
    ensures |r| == |rows|
    ensures forall j :: 0 <= j < |r| ==> r[j] == Repoint(mapping, rows[j])
  {
    seq(|rows|, j requires 0 <= j < |rows| => Repoint(mapping, rows[j]))
  }

  function GradientRows(kb: KeyAndBlock, parameter: string): seq<Row> {
    if parameter in kb.block.gradients then kb.block.gradients[parameter].samples.rows else []
  }

  function AllGradientRows(axis: Axis, merged: seq<Row>, kbs: seq<KeyAndBlock>, parameter: string): seq<Row> {
    if kbs == [] then []
    else
      var n := |kbs| - 1;
      AllGradientRows(axis, merged, kbs[..n], parameter)
      + RepointRows(MappingFor(axis, merged, kbs[n]), GradientRows(kbs[n], parameter))
  }

  /** The merged gradient rows, always sorted. */
  function MergedGradientRows(axis: Axis, merged: seq<Row>, kbs: seq<KeyAndBlock>, parameter: string): seq<Row> {
    OrderedSet(AllGradientRows(axis, merged, kbs, parameter))
  }

  lemma {:induction false} InAllGradientRows(axis: Axis, merged: seq<Row>, kbs: seq<KeyAndBlock>, parameter: string, row: Row)
    ensures row in AllGradientRows(axis, merged, kbs, parameter) <==>
      exists i :: 0 <= i < |kbs| && row in RepointRows(MappingFor(axis, merged, kbs[i]), GradientRows(kbs[i], parameter))
  {
    hide RepointRows, MappingFor, GradientRows;
    if kbs != [] {
      var n := |kbs| - 1;
      InAllGradientRows(axis, merged, kbs[..n], parameter, row);
      assert forall i :: 0 <= i < n ==> kbs[..n][i] == kbs[i];
    }
  }

  const I32_MAX := 0x7fff_ffff

  ghost predicate Translatable(mapping: seq<SampleMapping>, row: Row) {
    row != [] && 0 <= row[0] < |mapping| && mapping[row[0]].output < I32_MAX
  }

  ghost predicate AllTranslatable(mapping: seq<SampleMapping>, rows: seq<Row>) {
    forall r :: 0 <= r < |rows| ==> Translatable(mapping, rows[r])
  }

  /** Row numbers become label values, which are 32-bit signed integers. */
  ghost predicate RowNumbersFit(axis: Axis, merged: seq<Row>, kbs: seq<KeyAndBlock>, parameter: string) {
    forall i :: 0 <= i < |kbs| ==> AllTranslatable(MappingFor(axis, merged, kbs[i]), GradientRows(kbs[i], parameter))
  }

  /** A gradient row with its first column translated. */
  method TranslateRow(mapping: seq<SampleMapping>, row: Row) returns (translated: Row)
    requires Translatable(mapping, row)
    ensures translated == Repoint(mapping, row)
  {
    translated := row[0 := mapping[row[0]].output];
  }

  /** Insert the translated gradient samples of one block. */
  method InsertGradientSamples(before: seq<Row>, mapping: seq<SampleMapping>, gradientRows: seq<Row>, ghost all: seq<Row>)
    returns (rows: seq<Row>)
    requires before == OrderedSet(all)
    requires AllTranslatable(mapping, gradientRows)
    ensures rows == OrderedSet(all + RepointRows(mapping, gradientRows))
  {
    rows := before;
    ghost var added := RepointRows(mapping, gradientRows);
    assert all + added[..0] == all;
    for r := 0 to |gradientRows|
      invariant rows == OrderedSet(all + added[..r])
    {
      var row := TranslateRow(mapping, gradientRows[r]);
      OrderedSetAppend(all + added[..r], row);
      TakeOneMore(all, added, r);
      rows := InsertOrdered(rows, row);
    }
    assert added[..|gradientRows|] == added;
  }

  /** Insert the translated gradient samples of all blocks. */
  method CollectGradientSamples(kbs: seq<KeyAndBlock>, parameter: string, mappings: seq<seq<SampleMapping>>,
                                ghost axis: Axis, ghost merged: seq<Row>)
    returns (rows: seq<Row>)
    requires |mappings| == |kbs| && forall i :: 0 <= i < |kbs| ==> mappings[i] == MappingFor(axis, merged, kbs[i])
    requires forall i :: 0 <= i < |kbs| ==> parameter in kbs[i].block.gradients
    requires RowNumbersFit(axis, merged, kbs, parameter)
    ensures rows == OrderedSet(AllGradientRows(axis, merged, kbs, parameter))
  {
    rows := [];
    for i := 0 to |kbs|
      invariant rows == OrderedSet(AllGradientRows(axis, merged, kbs[..i], parameter))
    {
      var gradientRows := kbs[i].block.gradients[parameter].samples.rows;
      assert gradientRows == GradientRows(kbs[i], parameter);
      rows := InsertGradientSamples(rows, mappings[i], gradientRows, AllGradientRows(axis, merged, kbs[..i], parameter));
      assert kbs[..i + 1][..i] == kbs[..i];
    }
    assert kbs[..|kbs|] == kbs;
  }

  /** Merge the gradient samples of all blocks. */
  method MergeGradientSamples(kbs: seq<KeyAndBlock>, parameter: string, mappings: seq<seq<SampleMapping>>,
                              ghost axis: Axis, ghost m: nat, ghost merged: seq<Row>)
    returns (labels: Labels)
    requires Mergeable(kbs, m) && parameter in kbs[0].block.gradients
    requires |mappings| == |kbs| && forall i :: 0 <= i < |kbs| ==> mappings[i] == MappingFor(axis, merged, kbs[i])
    requires RowNumbersFit(axis, merged, kbs, parameter)
    ensures labels == Labels(kbs[0].block.gradients[parameter].samples.names, MergedGradientRows(axis, merged, kbs, parameter))
    ensures Ascending(labels.rows)
  {
    forall i | 0 <= i < |kbs|
      ensures parameter in kbs[i].block.gradients
    {
      GradientIsPresent(kbs, m, i, parameter);
    }
    var rows := CollectGradientSamples(kbs, parameter, mappings, axis, merged);
    var names := kbs[0].block.gradients[parameter].samples.names;
    MergedGradientRowsHaveSize(axis, merged, kbs, m, parameter);
    ChunksOfFlatten(rows, |names|);
    labels := FromValues(names, Flatten(rows));
    GradientSamplesAscend(axis, merged, kbs, m, parameter);
  }

  /** The samples of merged gradients are always in ascending order. */
  lemma GradientSamplesAscend(axis: Axis, merged: seq<Row>, kbs: seq<KeyAndBlock>, m: nat, parameter: string)
    requires Mergeable(kbs, m) && parameter in kbs[0].block.gradients
    ensures Ascending(MergedGradientRows(axis, merged, kbs, parameter))
  {
    MergedGradientRowsHaveSize(axis, merged, kbs, m, parameter);
    OrderedSetIsSorted(AllGradientRows(axis, merged, kbs, parameter));
    SortedIsAscending(MergedGradientRows(axis, merged, kbs, parameter), |kbs[0].block.gradients[parameter].samples.names|);
  }

  /** `block.gradient(parameter).expect("missing gradient")` never fails. */
  lemma GradientIsPresent(kbs: seq<KeyAndBlock>, m: nat, i: nat, parameter: string)
    requires Mergeable(kbs, m) && i < |kbs| && parameter in kbs[0].block.gradients
    ensures parameter in kbs[i].block.gradients
    ensures MetadataOf(kbs[0].block.gradients[parameter]) == MetadataOf(kbs[i].block.gradients[parameter])
    ensures ValidBlock(kbs[i].block.gradients[parameter])
    ensures GradientFits(kbs[i].block, kbs[i].block.gradients[parameter])
  {
    SameStructureOfGradients(kbs[0].block, kbs[i].block, parameter);
    assert ValidBlock(kbs[i].block);
  }

  lemma MergedGradientRowsHaveSize(axis: Axis, merged: seq<Row>, kbs: seq<KeyAndBlock>, m: nat, parameter: string)
    requires Mergeable(kbs, m) && parameter in kbs[0].block.gradients
    ensures OfSize(MergedGradientRows(axis, merged, kbs, parameter), |kbs[0].block.gradients[parameter].samples.names|)
    ensures kbs[0].block.gradients[parameter].samples.names != []
  {
    var rows := MergedGradientRows(axis, merged, kbs, parameter);
    GradientIsPresent(kbs, m, 0, parameter);
    forall k | 0 <= k < |rows| ensures |rows[k]| == |kbs[0].block.gradients[parameter].samples.names| {
      assert rows[k] in rows;
      OrderedSetIsSorted(AllGradientRows(axis, merged, kbs, parameter));
      InAllGradientRows(axis, merged, kbs, parameter, rows[k]);
      var i :| 0 <= i < |kbs| && rows[k] in RepointRows(MappingFor(axis, merged, kbs[i]), GradientRows(kbs[i], parameter));
      RepointedRowHasSize(axis, merged, kbs, m, i, parameter, rows[k]);
    }
  }

  lemma RepointedRowHasSize(axis: Axis, merged: seq<Row>, kbs: seq<KeyAndBlock>, m: nat, i: nat, parameter: string, row: Row)
    requires Mergeable(kbs, m) && parameter in kbs[0].block.gradients && i < |kbs|
    requires row in RepointRows(MappingFor(axis, merged, kbs[i]), GradientRows(kbs[i], parameter))
    ensures |row| == |kbs[0].block.gradients[parameter].samples.names|
  {
    GradientIsPresent(kbs, m, i, parameter);
    var g := kbs[i].block.gradients[parameter];
    assert ValidLabels(g.samples);
    var r :| 0 <= r < |g.samples.rows| && row == Repoint(MappingFor(axis, merged, kbs[i]), g.samples.rows[r]);
    assert |row| == |g.samples.rows[r]|;
  }
}
