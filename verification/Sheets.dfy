/** The meaning of labelled data: what value stands at a row about, component
    index and property; and the array that gathers the cells of several blocks
    after their keys have moved to one of the axes. */
module Sheets {
  import opened Wrappers
  import opened Sequences
  import opened Lexicographic
  import opened RowMajor
  import opened Arrays
  import opened Blocks

  /** The axis that the moved dimensions of the keys go to. */
  datatype Axis = Samples | Properties

  /** What a row is about. A row of values is about a sample; a row of a
      gradient is about the sample of the parent block that its first column
      refers to, and its other columns. Row numbers are not part of it. */
  datatype RowLabel = RowLabel(sample: Row, rest: Row)

  /** Values or gradients of a block with the labels of their rows. */
  datatype Sheet = Sheet(labels: seq<RowLabel>, properties: seq<Row>, values: Array)

  function SampleLabels(samples: seq<Row>): (r: seq<RowLabel>)
    ensures |r| == |samples|
    ensures forall j :: 0 <= j < |r| ==> r[j] == RowLabel(samples[j], [])
  {
    seq(|samples|, j requires 0 <= j < |samples| => RowLabel(samples[j], []))
  }

  function GradientLabel(samples: seq<Row>, row: Row): RowLabel {
    if row != [] && 0 <= row[0] < |samples| then RowLabel(samples[row[0]], row[1..]) else RowLabel([], row)
  }

  function GradientLabels(samples: seq<Row>, rows: seq<Row>): (r: seq<RowLabel>)
    ensures |r| == |rows|
    ensures forall j :: 0 <= j < |r| ==> r[j] == GradientLabel(samples, rows[j])
  {
    seq(|rows|, j requires 0 <= j < |rows| => GradientLabel(samples, rows[j]))
  }

  function ValuesSheet(b: Block): Sheet {
    Sheet(SampleLabels(b.samples.rows), b.properties.rows, b.values)
  }

  function GradientSheet(b: Block, parameter: string): Sheet
    requires parameter in b.gradients
  {
    var g := b.gradients[parameter];
    Sheet(GradientLabels(b.samples.rows, g.samples.rows), b.properties.rows, g.values)
  }

  lemma SampleLabelsAreDistinct(samples: seq<Row>)
    requires Distinct(samples)
    ensures Distinct(SampleLabels(samples))
  {}

  ghost predicate RefersTo(rows: seq<Row>, samples: seq<Row>) {
    forall i :: 0 <= i < |rows| ==> rows[i] != [] && 0 <= rows[i][0] < |samples|
  }

  lemma GradientLabelsAreDistinct(samples: seq<Row>, rows: seq<Row>)
    requires Distinct(samples) && Distinct(rows) && RefersTo(rows, samples)
    ensures Distinct(GradientLabels(samples, rows))
  {
    forall i, j | 0 <= i < j < |rows| ensures GradientLabel(samples, rows[i]) != GradientLabel(samples, rows[j]) {
      assert rows[i] == [rows[i][0]] + rows[i][1..] && rows[j] == [rows[j][0]] + rows[j][1..];
      if rows[i][0] != rows[j][0] && samples[rows[i][0]] == samples[rows[j][0]] {
        assert false;
      }
    }
  }

  /** The value a sheet has for a row label, component index and property. */
  function SheetCell(s: Sheet, about: RowLabel, c: Index, property: Row): Option<Value> {
    match (Position(s.labels, about), Position(s.properties, property))
    case (Some(j), Some(q)) => Some(Get(s.values, Cell(j, c, q)))
    case _ => None
  }

  /** Where a cell of a merged block comes from. */
  datatype Source = Source(key: Row, about: RowLabel, property: Row)

  /** Split the moved key, of size `m`, off the labels of a merged cell. */
  function Locate(axis: Axis, m: nat, about: RowLabel, property: Row): Source {
    match axis
    case Properties =>
      var n := if m <= |property| then m else |property|;
      Source(property[..n], about, property[n..])
    case Samples =>
      var n := if m <= |about.sample| then |about.sample| - m else 0;
      Source(about.sample[n..], RowLabel(about.sample[..n], about.rest), property)
  }

  /** The row label of a source cell in the merged block. */
  function MovedLabel(axis: Axis, key: Row, about: RowLabel): RowLabel {
    if axis.Samples? then RowLabel(about.sample + key, about.rest) else about
  }

  /** The property of a source cell in the merged block. */
  function MovedProperty(axis: Axis, key: Row, property: Row): Row {
    if axis.Properties? then key + property else property
  }

  lemma LocateMoved(axis: Axis, key: Row, about: RowLabel, property: Row)
    ensures Locate(axis, |key|, MovedLabel(axis, key, about), MovedProperty(axis, key, property)) == Source(key, about, property)
  {
    assert (key + property)[..|key|] == key && (key + property)[|key|..] == property;
    var n := |about.sample|;
    assert (about.sample + key)[..n] == about.sample && (about.sample + key)[n..] == key;
  }

  lemma MovedLocated(axis: Axis, m: nat, about: RowLabel, property: Row)
    ensures var s := Locate(axis, m, about, property);
      MovedLabel(axis, s.key, s.about) == about && MovedProperty(axis, s.key, s.property) == property
  {
    var s := Locate(axis, m, about, property);
    match axis
    case Properties => assert s.key + s.property == property;
    case Samples => assert s.about.sample + s.key == about.sample;
  }

  /** The value a merged block has for its labels: the one of the source block
      with the split-off key, and zero where there is none. */
  function MergedCell(axis: Axis, m: nat, keys: seq<Row>, sheets: seq<Sheet>, about: RowLabel, c: Index, property: Row): Value {
    var s := Locate(axis, m, about, property);
    match Position(keys, s.key)
    case None => ZERO
    case Some(i) => if i < |sheets| then SheetCell(sheets[i], s.about, c, s.property).GetOr(ZERO) else ZERO
  }

  function GatheredCell(axis: Axis, m: nat, keys: seq<Row>, sheets: seq<Sheet>,
                        labels: seq<RowLabel>, properties: seq<Row>, index: Index): Value {
    if |index| >= 2 && index[0] < |labels| && Last(index) < |properties|
    then MergedCell(axis, m, keys, sheets, labels[index[0]], Middle(index), properties[Last(index)])
    else ZERO
  }

  function Gather(axis: Axis, m: nat, keys: seq<Row>, sheets: seq<Sheet>,
                  labels: seq<RowLabel>, middle: seq<nat>, properties: seq<Row>): (r: Array)
    ensures ValidArray(r) && r.shape == [|labels|] + middle + [|properties|]
    ensures forall index :: InRange(r.shape, index) ==>
      Get(r, index) == GatheredCell(axis, m, keys, sheets, labels, properties, index)
  {
    var shape := [|labels|] + middle + [|properties|];
    Array(shape, map index | index in Indices(shape) :: GatheredCell(axis, m, keys, sheets, labels, properties, index))
  }

  lemma InFrame(n: nat, middle: seq<nat>, p: nat, index: Index)
    requires InRange([n] + middle + [p], index)
    ensures |index| == |middle| + 2 && index[0] < n && Last(index) < p && InRange(middle, Middle(index))
  {
    var shape := [n] + middle + [p];
    assert shape[0] == n && shape[|shape| - 1] == p;
    assert forall k :: 0 <= k < |middle| ==> Middle(index)[k] == index[k + 1] && shape[k + 1] == middle[k];
  }

  /** Row `mapping[j].output` and property `start + p` of the merged block are
      about row `j` and property `p` of the source, and no others are. */
  ghost predicate Corresponds(axis: Axis, key: Row, sheet: Sheet, labels: seq<RowLabel>, properties: seq<Row>,
                              mapping: seq<SampleMapping>, start: nat) {
    && |mapping| == |sheet.labels|
    && DistinctOutputs(mapping)
    && Distinct(labels) && Distinct(properties)
    && start + |sheet.properties| <= |properties|
    && (forall j :: 0 <= j < |mapping| ==>
          && mapping[j].input == j && mapping[j].output < |labels|
          && labels[mapping[j].output] == MovedLabel(axis, key, sheet.labels[j]))
    && (forall p :: 0 <= p < |sheet.properties| ==>
          properties[start + p] == MovedProperty(axis, key, sheet.properties[p]))
  }

  /** Scattering one more block by position gathers its cells by label. */
  lemma GatherStep(axis: Axis, keys: seq<Row>, sheets: seq<Sheet>, i: nat, labels: seq<RowLabel>, middle: seq<nat>,
                   properties: seq<Row>, mapping: seq<SampleMapping>, start: nat, end: nat)
    requires i < |sheets| == |keys| && Distinct(keys) && end == start + |sheets[i].properties|
    requires Distinct(sheets[i].labels) && Distinct(sheets[i].properties)
    requires Corresponds(axis, keys[i], sheets[i], labels, properties, mapping, start)
    ensures var m := |keys[i]|;
      MoveSamplesFrom(Gather(axis, m, keys[..i], sheets[..i], labels, middle, properties),
                      sheets[i].values, mapping, start, end)
      == Gather(axis, m, keys[..i + 1], sheets[..i + 1], labels, middle, properties)
  {
    var m := |keys[i]|;
    var before := Gather(axis, m, keys[..i], sheets[..i], labels, middle, properties);
    var after := Gather(axis, m, keys[..i + 1], sheets[..i + 1], labels, middle, properties);
    var moved := MoveSamplesFrom(before, sheets[i].values, mapping, start, end);
    forall index: Index | InRange(after.shape, index) ensures Get(moved, index) == Get(after, index) {
      InFrame(|labels|, middle, |properties|, index);
      if start <= Last(index) < end && exists j :: 0 <= j < |mapping| && mapping[j].output == index[0] {
        var j :| 0 <= j < |mapping| && mapping[j].output == index[0];
        GatherHit(axis, keys, sheets, i, labels, properties, mapping, start, end, before, index, j);
      } else {
        GatherMiss(axis, keys, sheets, i, labels, properties, mapping, start, end, before, index);
      }
    }
    SameArray(moved, after);
  }

  /** A cell that the block is copied to. */
  lemma GatherHit(axis: Axis, keys: seq<Row>, sheets: seq<Sheet>, i: nat, labels: seq<RowLabel>, properties: seq<Row>,
                  mapping: seq<SampleMapping>, start: nat, end: nat, before: Array, index: Index, j: nat)
    requires i < |sheets| == |keys| && Distinct(keys) && end == start + |sheets[i].properties|
    requires Distinct(sheets[i].labels) && Distinct(sheets[i].properties)
    requires Corresponds(axis, keys[i], sheets[i], labels, properties, mapping, start)
    requires ValidArray(before) && |before.shape| >= 2 && InRange(before.shape, index)
    requires index[0] < |labels| && Last(index) < |properties|
    requires start <= Last(index) < end && j < |mapping| && mapping[j].output == index[0]
    ensures Get(MoveSamplesFrom(before, sheets[i].values, mapping, start, end), index)
         == MergedCell(axis, |keys[i]|, keys[..i + 1], sheets[..i + 1], labels[index[0]], Middle(index), properties[Last(index)])
  {
    MergedCellStep(axis, keys, sheets, i, labels[index[0]], Middle(index), properties[Last(index)]);
    CorrespondingCell(axis, keys[i], sheets[i], labels, properties, mapping, start, j, index[0], Middle(index), Last(index));
    assert MergedCell(axis, |keys[i]|, keys[..i + 1], sheets[..i + 1], labels[index[0]], Middle(index), properties[Last(index)])
        == Get(sheets[i].values, Cell(mapping[j].input, Middle(index), Last(index) - start));
    MoveCopies(before, sheets[i].values, mapping, start, end, index, j);
  }

  /** A cell that the block is not copied to. */
  lemma GatherMiss(axis: Axis, keys: seq<Row>, sheets: seq<Sheet>, i: nat, labels: seq<RowLabel>, properties: seq<Row>,
                  mapping: seq<SampleMapping>, start: nat, end: nat, before: Array, index: Index)
    requires i < |sheets| == |keys| && Distinct(keys) && end == start + |sheets[i].properties|
    requires Distinct(sheets[i].labels) && Distinct(sheets[i].properties)
    requires Corresponds(axis, keys[i], sheets[i], labels, properties, mapping, start)
    requires ValidArray(before) && |before.shape| >= 2 && InRange(before.shape, index)
    requires index[0] < |labels| && Last(index) < |properties|
    requires start <= Last(index) < end ==> forall j :: 0 <= j < |mapping| ==> mapping[j].output != index[0]
    requires Get(before, index) == MergedCell(axis, |keys[i]|, keys[..i], sheets[..i], labels[index[0]], Middle(index), properties[Last(index)])
    ensures Get(MoveSamplesFrom(before, sheets[i].values, mapping, start, end), index)
         == MergedCell(axis, |keys[i]|, keys[..i + 1], sheets[..i + 1], labels[index[0]], Middle(index), properties[Last(index)])
  {
    MergedCellStep(axis, keys, sheets, i, labels[index[0]], Middle(index), properties[Last(index)]);
    NoCorrespondingCell(axis, keys[i], sheets[i], labels, properties, mapping, start, index[0], Middle(index), Last(index));
    MoveLeavesOthers(before, sheets[i].values, mapping, start, end, index);
  }

  lemma CorrespondingCell(axis: Axis, key: Row, sheet: Sheet, labels: seq<RowLabel>, properties: seq<Row>,
                          mapping: seq<SampleMapping>, start: nat, j: nat, r: nat, c: Index, q: nat)
    requires Distinct(sheet.labels) && Distinct(sheet.properties)
    requires Corresponds(axis, key, sheet, labels, properties, mapping, start)
    requires j < |mapping| && mapping[j].output == r && start <= q < start + |sheet.properties|
    ensures var src := Locate(axis, |key|, labels[r], properties[q]);
      src.key == key && SheetCell(sheet, src.about, c, src.property) == Some(Get(sheet.values, Cell(mapping[j].input, c, q - start)))
  {
    var p := q - start;
    assert properties[start + p] == MovedProperty(axis, key, sheet.properties[p]);
    LocateMoved(axis, key, sheet.labels[j], sheet.properties[p]);
    PositionOf(sheet.labels, j);
    PositionOf(sheet.properties, p);
  }

  lemma NoCorrespondingCell(axis: Axis, key: Row, sheet: Sheet, labels: seq<RowLabel>, properties: seq<Row>,
                            mapping: seq<SampleMapping>, start: nat, r: nat, c: Index, q: nat)
    requires Corresponds(axis, key, sheet, labels, properties, mapping, start)
    requires r < |labels| && q < |properties|
    requires start <= q < start + |sheet.properties| ==> forall j :: 0 <= j < |mapping| ==> mapping[j].output != r
    ensures var src := Locate(axis, |key|, labels[r], properties[q]);
      src.key == key ==> SheetCell(sheet, src.about, c, src.property) == None
  {
    var src := Locate(axis, |key|, labels[r], properties[q]);
    MovedLocated(axis, |key|, labels[r], properties[q]);
  }

  lemma MergedCellStep(axis: Axis, keys: seq<Row>, sheets: seq<Sheet>, i: nat, about: RowLabel, c: Index, property: Row)
    requires i < |sheets| == |keys| && Distinct(keys)
    ensures var m := |keys[i]|; var src := Locate(axis, m, about, property);
      && (src.key == keys[i] ==>
            && MergedCell(axis, m, keys[..i], sheets[..i], about, c, property) == ZERO
            && MergedCell(axis, m, keys[..i + 1], sheets[..i + 1], about, c, property)
               == SheetCell(sheets[i], src.about, c, src.property).GetOr(ZERO))
      && (src.key != keys[i] ==>
            MergedCell(axis, m, keys[..i + 1], sheets[..i + 1], about, c, property)
            == MergedCell(axis, m, keys[..i], sheets[..i], about, c, property))
  {
    KeyLookup(keys, i, Locate(axis, |keys[i]|, about, property).key);
  }

  lemma KeyLookup(keys: seq<Row>, i: nat, key: Row)
    requires i < |keys| && Distinct(keys)
    ensures key == keys[i] ==> Position(keys[..i], key) == None && Position(keys[..i + 1], key) == Some(i)
    ensures key != keys[i] ==> Position(keys[..i + 1], key) == Position(keys[..i], key)
  {
    assert keys[..i + 1][..i] == keys[..i];
  }

  /** Nothing in the merged properties is about `key` and a property of the
      source, so the block has no place in the merged one. */
  ghost predicate HasNoPlace(key: Row, sheet: Sheet, properties: seq<Row>) {
    forall q :: 0 <= q < |properties| && |key| <= |properties[q]| && properties[q][..|key|] == key ==>
      properties[q][|key|..] !in sheet.properties
  }

  ghost predicate FitsShape(sheet: Sheet, middle: seq<nat>) {
    && ValidArray(sheet.values) && sheet.values.shape == [|sheet.labels|] + middle + [|sheet.properties|]
    && Distinct(sheet.labels) && Distinct(sheet.properties)
  }

  /** The block can be scattered to rows `mapping` and the given range, or to
      nowhere. */
  ghost predicate CanPlace(axis: Axis, key: Row, sheet: Sheet, labels: seq<RowLabel>, middle: seq<nat>, properties: seq<Row>,
                           mapping: seq<SampleMapping>, range: Option<nat>) {
    match range
    case Some(start) => FitsShape(sheet, middle) && Corresponds(axis, key, sheet, labels, properties, mapping, start)
    case None => axis.Properties? && HasNoPlace(key, sheet, properties)
  }

  lemma GatherNone(axis: Axis, m: nat, labels: seq<RowLabel>, middle: seq<nat>, properties: seq<Row>)
    ensures Create([|labels|] + middle + [|properties|]) == Gather(axis, m, [], [], labels, middle, properties)
  {
    SameArray(Create([|labels|] + middle + [|properties|]), Gather(axis, m, [], [], labels, middle, properties));
  }

  /** A block without a place leaves the gathered array as it is. */
  lemma GatherSkip(axis: Axis, keys: seq<Row>, sheets: seq<Sheet>, i: nat, labels: seq<RowLabel>, middle: seq<nat>, properties: seq<Row>)
    requires i < |sheets| == |keys| && Distinct(keys)
    requires axis.Properties? && HasNoPlace(keys[i], sheets[i], properties)
    ensures Gather(axis, |keys[i]|, keys[..i], sheets[..i], labels, middle, properties)
         == Gather(axis, |keys[i]|, keys[..i + 1], sheets[..i + 1], labels, middle, properties)
  {
    var before := Gather(axis, |keys[i]|, keys[..i], sheets[..i], labels, middle, properties);
    var after := Gather(axis, |keys[i]|, keys[..i + 1], sheets[..i + 1], labels, middle, properties);
    forall index: Index | InRange(after.shape, index) ensures Get(before, index) == Get(after, index) {
      InFrame(|labels|, middle, |properties|, index);
      MergedCellStep(axis, keys, sheets, i, labels[index[0]], Middle(index), properties[Last(index)]);
      SkippedCell(keys[i], sheets[i], properties, labels[index[0]], Middle(index), Last(index));
    }
    SameArray(before, after);
  }

  lemma SkippedCell(key: Row, sheet: Sheet, properties: seq<Row>, about: RowLabel, c: Index, q: nat)
    requires HasNoPlace(key, sheet, properties) && q < |properties|
    ensures var src := Locate(Properties, |key|, about, properties[q]);
      src.key == key ==> SheetCell(sheet, src.about, c, src.property) == None
  {}

  /** `move_samples_from`, called as its contract demands. */
  method MoveRows(out: Array, input: Array, samples: seq<SampleMapping>, start: nat, end: nat) returns (r: Array)
    requires Movable(out, input, samples, start, end)
    ensures r == MoveSamplesFrom(out, input, samples, start, end)
  {
    r := MoveSamplesFrom(out, input, samples, start, end);
  }

  lemma PlacedIsMovable(axis: Axis, key: Row, sheet: Sheet, labels: seq<RowLabel>, middle: seq<nat>, properties: seq<Row>,
                        mapping: seq<SampleMapping>, start: nat, end: nat, out: Array)
    requires FitsShape(sheet, middle) && Corresponds(axis, key, sheet, labels, properties, mapping, start)
    requires ValidArray(out) && out.shape == [|labels|] + middle + [|properties|] && end == start + |sheet.properties|
    ensures Movable(out, sheet.values, mapping, start, end)
  {
    assert Middle(out.shape) == middle == Middle(sheet.values.shape);
  }

  /** Scatter the arrays of all blocks into a new array, block by block. */
  method ScatterBlocks(shape: seq<nat>, arrays: seq<Array>, sizes: seq<nat>, mappings: seq<seq<SampleMapping>>, ranges: seq<Option<nat>>,
                       ghost axis: Axis, ghost m: nat, ghost keys: seq<Row>, ghost sheets: seq<Sheet>,
                       ghost labels: seq<RowLabel>, ghost middle: seq<nat>, ghost properties: seq<Row>)
    returns (data: Array)
    requires |arrays| == |sizes| == |mappings| == |ranges| == |sheets| == |keys|
    requires shape == [|labels|] + middle + [|properties|]
    requires Distinct(keys) && forall i :: 0 <= i < |keys| ==> |keys[i]| == m
    requires forall i :: 0 <= i < |sheets| ==> arrays[i] == sheets[i].values && sizes[i] == |sheets[i].properties|
    requires forall i :: 0 <= i < |sheets| ==> CanPlace(axis, keys[i], sheets[i], labels, middle, properties, mappings[i], ranges[i])
    ensures data == Gather(axis, m, keys, sheets, labels, middle, properties)
  {
    hide MoveSamplesFrom, Gather, Corresponds, HasNoPlace, FitsShape, Movable;
    data := Create(shape);
    GatherNone(axis, m, labels, middle, properties);
    for i := 0 to |arrays|
      invariant data == Gather(axis, m, keys[..i], sheets[..i], labels, middle, properties)
    {
      match ranges[i] {
        case None =>
          GatherSkip(axis, keys, sheets, i, labels, middle, properties);
        case Some(start) =>
          var end := start + sizes[i];
          PlacedIsMovable(axis, keys[i], sheets[i], labels, middle, properties, mappings[i], start, end, data);
          DistinctParts(sheets[i], middle);
          GatherStep(axis, keys, sheets, i, labels, middle, properties, mappings[i], start, end);
          data := MoveRows(data, arrays[i], mappings[i], start, end);
      }
    }
    assert keys[..|arrays|] == keys && sheets[..|arrays|] == sheets;
  }

  lemma DistinctParts(sheet: Sheet, middle: seq<nat>)
    requires FitsShape(sheet, middle)
    ensures Distinct(sheet.labels) && Distinct(sheet.properties)
  {}
}
