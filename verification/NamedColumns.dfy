/** What moving keys does, stated by the names of the columns and the places in
    the arrays: which value stands where, and what its labels say about it. */
module NamedColumns {
  import opened Wrappers
  import opened Sequences
  import opened Lexicographic
  import opened RowMajor
  import opened Arrays
  import opened LabelSets
  import opened Blocks
  import opened Tensors
  import opened Keys
  import opened Sheets
  import opened Merging
  import PropertyRanges
  import opened MergedBlocks
  import opened Groups
  import opened KeyMoves
  import opened MergeMeaning
  import opened TensorMeaning

  /** In a row under these names, the column with the given name holds the value. */
  ghost predicate Holds(names: seq<string>, row: Row, name: string, value: int) {
    exists k :: 0 <= k < |names| && k < |row| && names[k] == name && row[k] == value
  }

  /** What a row says is what another row says, column by column and by name. */
  ghost predicate SaysAll(names: seq<string>, row: Row, oldNames: seq<string>, oldRow: Row) {
    forall k :: 0 <= k < |oldNames| && k < |oldRow| ==> Holds(names, row, oldNames[k], oldRow[k])
  }

  /** A row says what a key says about these dimensions. */
  ghost predicate SaysMoved(names: seq<string>, row: Row, keyNames: seq<string>, key: Row, dimensions: seq<string>) {
    forall k :: 0 <= k < |keyNames| && k < |key| && keyNames[k] in dimensions ==> Holds(names, row, keyNames[k], key[k])
  }

  /** A key says what another key says about its other dimensions. */
  ghost predicate SaysRemaining(names: seq<string>, row: Row, keyNames: seq<string>, key: Row, dimensions: seq<string>) {
    forall k :: 0 <= k < |keyNames| && k < |key| && keyNames[k] !in dimensions ==> Holds(names, row, keyNames[k], key[k])
  }

  lemma HeldInFront(names: seq<string>, row: Row, otherNames: seq<string>, other: Row, name: string, value: int)
    requires Holds(names, row, name, value)
    ensures Holds(names + otherNames, row + other, name, value)
  {
    var k :| 0 <= k < |names| && k < |row| && names[k] == name && row[k] == value;
    assert (names + otherNames)[k] == name && (row + other)[k] == value;
  }

  lemma HeldBehind(otherNames: seq<string>, other: Row, names: seq<string>, row: Row, name: string, value: int)
    requires Holds(names, row, name, value) && |otherNames| == |other|
    ensures Holds(otherNames + names, other + row, name, value)
  {
    var k :| 0 <= k < |names| && k < |row| && names[k] == name && row[k] == value;
    assert (otherNames + names)[|other| + k] == name && (other + row)[|other| + k] == value;
  }

  /** The moved part of a key says what the key says about the moved dimensions. */
  lemma MovedPartSays(keys: Labels, dimensions: seq<string>, key: Row)
    requires ValidLabels(keys) && KnownDimensions(keys, dimensions) && |key| == |keys.names|
    ensures |MovedPart(keys, dimensions, key)| == |dimensions|
    ensures SaysMoved(dimensions, MovedPart(keys, dimensions, key), keys.names, key, dimensions)
  {
    PositionsAreDistinct(keys.names, dimensions);
    var positions := MovedPositions(keys, dimensions);
    var moved := MovedPart(keys, dimensions, key);
    forall k | 0 <= k < |key| && keys.names[k] in dimensions ensures Holds(dimensions, moved, keys.names[k], key[k]) {
      var d :| 0 <= d < |dimensions| && dimensions[d] == keys.names[k];
      assert keys.names[positions[d]] == keys.names[k] && positions[d] == k;
      assert moved[d] == key[k];
    }
  }

  /** What is left of a key says what the key says about the other dimensions. */
  lemma RemainingPartSays(keys: Labels, dimensions: seq<string>, key: Row)
    requires ValidLabels(keys) && KnownDimensions(keys, dimensions) && |key| == |keys.names|
    ensures SaysRemaining(RemainingKeys(keys, dimensions).names, RemainingPart(keys, dimensions, key), keys.names, key, dimensions)
  {
    PositionsAreDistinct(keys.names, dimensions);
    var positions, rest := MovedPositions(keys, dimensions), RemainingPositions(keys, dimensions);
    forall k | 0 <= k < |key| && keys.names[k] !in dimensions
      ensures Holds(RemainingKeys(keys, dimensions).names, RemainingPart(keys, dimensions, key), keys.names[k], key[k])
    {
      assert forall d :: 0 <= d < |positions| ==> keys.names[positions[d]] == dimensions[d] && dimensions[d] in dimensions;
      assert k !in positions;
      var r :| 0 <= r < |rest| && rest[r] == k;
      assert Project(key, rest)[r] == key[k] && Select(keys.names, rest)[r] == keys.names[k];
    }
  }

  /** The column names of merged labels: moved dimensions come first in the
      properties, and last in the samples. */
  lemma NamesOfMerged(axis: Axis, names: seq<string>, newKeys: Option<seq<Row>>, kbs: seq<KeyAndBlock>, sort: bool, k: nat)
    requires Mergeable(kbs, |names|) && k < |kbs|
    ensures var r, b := Merged(axis, names, newKeys, kbs, sort), kbs[k].block;
      && r.properties.names == (if axis.Properties? then names else []) + b.properties.names
      && r.samples.names == b.samples.names + (if axis.Samples? then names else [])
  {
    assert SameStructure(kbs[0].block, kbs[k].block);
    hide ValidBlock, Gather, MergedSampleRows, MergedGradient;
  }

  /** Labels after a move: what a row and a property say about a cell. */
  lemma LabelsSay(axis: Axis, keys: Labels, dimensions: seq<string>, key: Row, sampleNames: seq<string>, sample: Row, propertyNames: seq<string>, property: Row)
    requires ValidLabels(keys) && KnownDimensions(keys, dimensions) && |key| == |keys.names|
    requires |sample| == |sampleNames| && |property| == |propertyNames|
    ensures var moved := MovedPart(keys, dimensions, key);
      var about := MovedLabel(axis, moved, RowLabel(sample, [])).sample;
      && SaysAll(sampleNames + (if axis.Samples? then dimensions else []), about, sampleNames, sample)
      && (axis.Samples? ==> SaysMoved(sampleNames + dimensions, about, keys.names, key, dimensions))
    ensures var moved := MovedPart(keys, dimensions, key);
      && SaysAll((if axis.Properties? then dimensions else []) + propertyNames, MovedProperty(axis, moved, property), propertyNames, property)
      && (axis.Properties? ==> SaysMoved(dimensions + propertyNames, MovedProperty(axis, moved, property), keys.names, key, dimensions))
  {
    MovedPartSays(keys, dimensions, key);
    var moved := MovedPart(keys, dimensions, key);
    hide MovedPart, KnownDimensions, ValidLabels;
    SaysItself(sampleNames, sample);
    SaysItself(propertyNames, property);
    match axis {
      case Samples =>
        InFrontOf(sampleNames, sample, dimensions, moved, keys.names, key, dimensions);
      case Properties =>
        InFrontOf(dimensions, moved, propertyNames, property, keys.names, key, dimensions);
    }
    hide SaysAll, SaysMoved;
    assert sampleNames + [] == sampleNames && [] + propertyNames == propertyNames;
  }

  lemma SaysItself(names: seq<string>, row: Row)
    ensures SaysAll(names, row, names, row)
  {}

  /** Columns put one behind the other say what they said. */
  lemma InFrontOf(frontNames: seq<string>, front: Row, backNames: seq<string>, back: Row, keyNames: seq<string>, key: Row, dimensions: seq<string>)
    requires |front| == |frontNames|
    ensures SaysAll(frontNames + backNames, front + back, frontNames, front)
    ensures SaysAll(frontNames + backNames, front + back, backNames, back)
    ensures SaysMoved(frontNames, front, keyNames, key, dimensions) ==> SaysMoved(frontNames + backNames, front + back, keyNames, key, dimensions)
    ensures SaysMoved(backNames, back, keyNames, key, dimensions) ==> SaysMoved(frontNames + backNames, front + back, keyNames, key, dimensions)
  {
    var names, row := frontNames + backNames, front + back;
    SaysItself(frontNames, front);
    SaysItself(backNames, back);
    forall name, value | Holds(frontNames, front, name, value) ensures Holds(names, row, name, value) {
      HeldInFront(frontNames, front, backNames, back, name, value);
    }
    forall name, value | Holds(backNames, back, name, value) ensures Holds(names, row, name, value) {
      HeldBehind(frontNames, front, backNames, back, name, value);
    }
    hide Holds;
  }

  /** Only the moved part of a key says all of this. */
  lemma OnlyMovedPartSays(keys: Labels, dimensions: seq<string>, key: Row, row: Row)
    requires ValidLabels(keys) && KnownDimensions(keys, dimensions) && |key| == |keys.names|
    requires |row| == |dimensions| && SaysMoved(dimensions, row, keys.names, key, dimensions)
    ensures row == MovedPart(keys, dimensions, key)
  {
    PositionsAreDistinct(keys.names, dimensions);
    var positions := MovedPositions(keys, dimensions);
    forall d | 0 <= d < |row| ensures row[d] == MovedPart(keys, dimensions, key)[d] {
      var k := positions[d];
      assert keys.names[k] == dimensions[d];
      assert Holds(dimensions, row, keys.names[k], key[k]);
    }
  }

  /** The values that were asked for, if any were, include those of the key. */
  ghost predicate AskedFor(newKeys: Option<seq<Row>>, dimensions: seq<string>, keyNames: seq<string>, key: Row) {
    newKeys.Some? ==> exists n :: 0 <= n < |newKeys.value| && SaysMoved(dimensions, newKeys.value[n], keyNames, key, dimensions)
  }

  lemma AskedForIsIn(axis: Axis, t: TensorMap, dimensions: seq<string>, newKeys: Option<seq<Row>>, sort: bool, i: nat)
    requires CanMoveKeys(axis, t, dimensions, newKeys, sort) && i < |t.keys.rows| && AskedFor(newKeys, dimensions, t.keys.names, t.keys.rows[i])
    ensures newKeys.Some? ==> MovedPart(t.keys, dimensions, t.keys.rows[i]) in newKeys.value
  {
    if newKeys.Some? {
      var n :| 0 <= n < |newKeys.value| && SaysMoved(dimensions, newKeys.value[n], t.keys.names, t.keys.rows[i], dimensions);
      hide MoveFails, MoveDemands, MovedPart, KnownDimensions, SaysMoved;
      OnlyMovedPartSays(t.keys, dimensions, t.keys.rows[i], newKeys.value[n]);
    }
  }

  /** The block that a block goes to, with its key and its column names. */
  lemma BlockAfter(axis: Axis, t: TensorMap, dimensions: seq<string>, newKeys: Option<seq<Row>>, sort: bool, i: nat) returns (h: nat)
    requires CanMoveKeys(axis, t, dimensions, newKeys, sort) && i < |t.keys.rows| == |t.blocks|
    ensures var moved := Moved(axis, t, dimensions, newKeys, sort);
      && h < |moved.keys.rows| == |moved.blocks|
      && BlockAt(moved, RemainingPart(t.keys, dimensions, t.keys.rows[i])) == moved.blocks[h]
      && SaysRemaining(moved.keys.names, moved.keys.rows[h], t.keys.names, t.keys.rows[i], dimensions)
      && moved.blocks[h].properties.names == (if axis.Properties? then dimensions else []) + t.blocks[i].properties.names
      && moved.blocks[h].samples.names == t.blocks[i].samples.names + (if axis.Samples? then dimensions else [])
      && moved.blocks[h].components == t.blocks[i].components
  {
    RemainingKeysAreValid(t.keys, dimensions);
    RemainingPartSays(t.keys, dimensions, t.keys.rows[i]);
    MovedCount(axis, t, dimensions, newKeys, sort);
    hide CanMoveKeys, RemainingKeys, RemainingPart, SaysRemaining, GroupIndices, Moved, BlockAt, ValidTensor;
    h := GroupOf(t.keys, dimensions, i);
    RemainingPartIsGroup(t.keys, dimensions, i, h);
    BlockAtKey(Moved(axis, t, dimensions, newKeys, sort), h, RemainingPart(t.keys, dimensions, t.keys.rows[i]));
    LabelsAfter(axis, t, dimensions, newKeys, sort, i, h);
  }

  lemma LabelsAfter(axis: Axis, t: TensorMap, dimensions: seq<string>, newKeys: Option<seq<Row>>, sort: bool, i: nat, g: nat)
    requires CanMoveKeys(axis, t, dimensions, newKeys, sort) && i < |t.keys.rows| == |t.blocks|
    requires g < GroupCount(t, dimensions) && i in GroupIndices(t.keys, dimensions, g)
    ensures |Moved(axis, t, dimensions, newKeys, sort).blocks| == GroupCount(t, dimensions)
    ensures var r, b := Moved(axis, t, dimensions, newKeys, sort).blocks[g], t.blocks[i];
      && r.properties.names == (if axis.Properties? then dimensions else []) + b.properties.names
      && r.samples.names == b.samples.names + (if axis.Samples? then dimensions else [])
      && r.components == b.components
  {
    GroupCanMerge(axis, t, dimensions, newKeys, sort, None, g);
    MovedBlock(axis, t, dimensions, newKeys, sort, g);
    hide CanMoveKeys, GroupIndices, Moved, GroupFails, Merged, RemainingKeys, Mergeable, MovedPart;
    var k := BlockInGroup(t, dimensions, i, g);
    var kbs := Group(t, dimensions, g);
    NamesOfMerged(axis, dimensions, newKeys, kbs, sort, k);
    ComponentsOfMerged(axis, dimensions, newKeys, kbs, sort, k);
  }

  /** The components of all blocks of a merge, and of the result, are equal. */
  lemma ComponentsOfMerged(axis: Axis, names: seq<string>, newKeys: Option<seq<Row>>, kbs: seq<KeyAndBlock>, sort: bool, k: nat)
    requires CanMerge(axis, names, newKeys, kbs, sort, None) && k < |kbs|
    ensures Merged(axis, names, newKeys, kbs, sort).components == kbs[k].block.components
  {}

  lemma CellAtPlace(sheet: Sheet, j: nat, c: Index, q: nat)
    requires j < |sheet.labels| && q < |sheet.properties| && Distinct(sheet.labels) && Distinct(sheet.properties)
    ensures SheetCell(sheet, sheet.labels[j], c, sheet.properties[q]) == Some(Get(sheet.values, Cell(j, c, q)))
  {
    PositionOf(sheet.labels, j);
    PositionOf(sheet.properties, q);
  }

  lemma PlaceOfCell(sheet: Sheet, about: RowLabel, c: Index, property: Row) returns (s: nat, p: nat)
    requires SheetCell(sheet, about, c, property).Some?
    ensures s < |sheet.labels| && sheet.labels[s] == about && p < |sheet.properties| && sheet.properties[p] == property
    ensures SheetCell(sheet, about, c, property) == Some(Get(sheet.values, Cell(s, c, p)))
  {
    s, p := Position(sheet.labels, about).value, Position(sheet.properties, property).value;
  }

  /** Where the cell of row `j` and property `q` is after a move, among the values
      or in a gradient. */
  lemma CellAfter(axis: Axis, t: TensorMap, dimensions: seq<string>, newKeys: Option<seq<Row>>, sort: bool, parameter: Option<string>,
                  i: nat, j: nat, c: Index, q: nat, r: Block) returns (s: nat, p: nat)
    requires CanMoveKeys(axis, t, dimensions, newKeys, sort) && HasData(t.blocks[0], parameter) && i < |t.keys.rows| == |t.blocks|
    requires AskedFor(newKeys, dimensions, t.keys.names, t.keys.rows[i])
    requires var sheet := SheetOf(t.blocks[i], parameter);
      j < |sheet.labels| && q < |sheet.properties| && Distinct(sheet.labels) && Distinct(sheet.properties)
    requires InRange(Counts(ComponentsOf(t.blocks[i], parameter)), c)
    requires r == BlockAt(Moved(axis, t, dimensions, newKeys, sort), RemainingPart(t.keys, dimensions, t.keys.rows[i]))
    ensures var sheet, after, moved := SheetOf(t.blocks[i], parameter), SheetOf(r, parameter), MovedPart(t.keys, dimensions, t.keys.rows[i]);
      && s < |after.labels| && after.labels[s] == MovedLabel(axis, moved, sheet.labels[j])
      && p < |after.properties| && after.properties[p] == MovedProperty(axis, moved, sheet.properties[q])
      && Get(after.values, Cell(s, c, p)) == Get(sheet.values, Cell(j, c, q))
  {
    KeysAreDistinct(t);
    AskedForIsIn(axis, t, dimensions, newKeys, sort, i);
    var key := t.keys.rows[i];
    var sheet, after, moved := SheetOf(t.blocks[i], parameter), SheetOf(r, parameter), MovedPart(t.keys, dimensions, key);
    hide CanMoveKeys, SheetOf, Moved, MovedPart, RemainingPart, BlockAt, ValidTensor, AskedFor, MovedLabel, MovedProperty, ComponentsOf, SheetCell, Distinct;
    var about, property := sheet.labels[j], sheet.properties[q];
    BlockAtKey(t, i, key);
    CellAtPlace(sheet, j, c, q);
    CellIsMoved(axis, t, dimensions, newKeys, sort, parameter, i, about, c, property, key, moved);
    s, p := PlaceOfCell(after, MovedLabel(axis, moved, about), c, MovedProperty(axis, moved, property));
  }

  /** A sample of the new block is about the sample of an old one: it says the
      same under the same names, and, if keys move to the samples, what the key
      says about the moved dimensions. */
  ghost predicate SameSample(axis: Axis, r: Block, s: int, b: Block, j: int, keys: Labels, key: Row, dimensions: seq<string>) {
    && 0 <= s < |r.samples.rows| && 0 <= j < |b.samples.rows|
    && SaysAll(r.samples.names, r.samples.rows[s], b.samples.names, b.samples.rows[j])
    && (axis.Samples? ==> SaysMoved(r.samples.names, r.samples.rows[s], keys.names, key, dimensions))
  }

  /** The same for properties. */
  ghost predicate SameProperty(axis: Axis, r: Block, p: int, b: Block, q: int, keys: Labels, key: Row, dimensions: seq<string>) {
    && 0 <= p < |r.properties.rows| && 0 <= q < |b.properties.rows|
    && SaysAll(r.properties.names, r.properties.rows[p], b.properties.names, b.properties.rows[q])
    && (axis.Properties? ==> SaysMoved(r.properties.names, r.properties.rows[p], keys.names, key, dimensions))
  }

  /** Block `h` after the move is for a key that says what is left of the old key. */
  ghost predicate SameKey(moved: TensorMap, h: nat, keys: Labels, key: Row, dimensions: seq<string>) {
    && h < |moved.keys.rows| == |moved.blocks|
    && SaysRemaining(moved.keys.names, moved.keys.rows[h], keys.names, key, dimensions)
  }

  lemma SizesOfLabels(t: TensorMap, i: nat, j: nat, q: nat)
    requires ValidTensor(t) && i < |t.blocks| && q < |t.blocks[i].properties.rows|
    ensures ValidLabels(t.keys) && i < |t.keys.rows| == |t.blocks| && |t.keys.rows[i]| == |t.keys.names|
    ensures var b := t.blocks[i];
      && Distinct(b.samples.rows) && Distinct(b.properties.rows) && |b.properties.rows[q]| == |b.properties.names|
      && (j < |b.samples.rows| ==> |b.samples.rows[j]| == |b.samples.names|)
  {
    assert ValidBlock(t.blocks[i]);
  }

  /** Every value is moved to a place where the labels say what they said before,
      column by column: the moved dimensions of the key under their names, and the
      old columns under theirs. */
  lemma ValueIsMovedByName(axis: Axis, t: TensorMap, dimensions: seq<string>, newKeys: Option<seq<Row>>, sort: bool, i: nat, j: nat, c: Index, q: nat)
    returns (h: nat, s: nat, p: nat)
    requires CanMoveKeys(axis, t, dimensions, newKeys, sort) && i < |t.blocks|
    requires AskedFor(newKeys, dimensions, t.keys.names, t.keys.rows[i])
    requires j < |t.blocks[i].samples.rows| && q < |t.blocks[i].properties.rows| && InRange(Counts(t.blocks[i].components), c)
    ensures var moved, key, b := Moved(axis, t, dimensions, newKeys, sort), t.keys.rows[i], t.blocks[i];
      && SameKey(moved, h, t.keys, key, dimensions)
      && SameSample(axis, moved.blocks[h], s, b, j, t.keys, key, dimensions)
      && SameProperty(axis, moved.blocks[h], p, b, q, t.keys, key, dimensions)
      && moved.blocks[h].components == b.components
      && Get(moved.blocks[h].values, Cell(s, c, p)) == Get(b.values, Cell(j, c, q))
  {
    SizesOfLabels(t, i, j, q);
    hide CanMoveKeys, Moved, MovedPart, RemainingPart, BlockAt, ValidTensor, AskedFor, SaysAll, SaysMoved, SaysRemaining, KnownDimensions;
    var b := t.blocks[i];
    h := BlockAfter(axis, t, dimensions, newKeys, sort, i);
    var r := Moved(axis, t, dimensions, newKeys, sort).blocks[h];
    s, p := CellAfter(axis, t, dimensions, newKeys, sort, None, i, j, c, q, r);
    KnownInMove(axis, t, dimensions, newKeys, sort);
    LabelsSay(axis, t.keys, dimensions, t.keys.rows[i], b.samples.names, b.samples.rows[j], b.properties.names, b.properties.rows[q]);
  }

  lemma KnownInMove(axis: Axis, t: TensorMap, dimensions: seq<string>, newKeys: Option<seq<Row>>, sort: bool)
    requires CanMoveKeys(axis, t, dimensions, newKeys, sort)
    ensures KnownDimensions(t.keys, dimensions)
  {}

  /** Row `u` of the gradient of a new block is about row `v` of the gradient of an
      old one: they refer to the same sample, and agree in their other columns. */
  ghost predicate SameGradientRow(axis: Axis, r: Block, u: int, b: Block, v: int, parameter: string, keys: Labels, key: Row, dimensions: seq<string>) {
    && parameter in r.gradients && parameter in b.gradients
    && var after, before := r.gradients[parameter].samples, b.gradients[parameter].samples;
    && after.names == before.names && 0 <= u < |after.rows| && 0 <= v < |before.rows|
    && after.rows[u] != [] && before.rows[v] != [] && after.rows[u][1..] == before.rows[v][1..]
    && SameSample(axis, r, after.rows[u][0], b, before.rows[v][0], keys, key, dimensions)
  }

  lemma GradientParts(t: TensorMap, i: nat, parameter: string, v: nat)
    requires ValidTensor(t) && i < |t.blocks| && parameter in t.blocks[i].gradients
    ensures parameter in t.blocks[0].gradients
    ensures var b, g := t.blocks[i], t.blocks[i].gradients[parameter];
      && Distinct(GradientLabels(b.samples.rows, g.samples.rows)) && Distinct(b.properties.rows) && g.properties == b.properties
      && (v < |g.samples.rows| ==> g.samples.rows[v] != [] && 0 <= g.samples.rows[v][0] < |b.samples.rows|)
  {
    assert ValidBlock(t.blocks[i]) && SameStructure(t.blocks[0], t.blocks[i]);
    SameStructureOfGradients(t.blocks[0], t.blocks[i], parameter);
    var b, g := t.blocks[i], t.blocks[i].gradients[parameter];
    assert ValidParts(g) && GradientFits(b, g);
    GradientLabelsAreDistinct(b.samples.rows, g.samples.rows);
  }

  /** The gradient of a block after a move. */
  lemma GradientAfter(axis: Axis, t: TensorMap, dimensions: seq<string>, newKeys: Option<seq<Row>>, sort: bool, i: nat, g: nat, parameter: string)
    requires CanMoveKeys(axis, t, dimensions, newKeys, sort) && i < |t.keys.rows| == |t.blocks| && parameter in t.blocks[i].gradients
    requires parameter in t.blocks[0].gradients
    requires g < GroupCount(t, dimensions) && i in GroupIndices(t.keys, dimensions, g)
    ensures |Moved(axis, t, dimensions, newKeys, sort).blocks| == GroupCount(t, dimensions)
    ensures var r := Moved(axis, t, dimensions, newKeys, sort).blocks[g];
      && parameter in r.gradients
      && r.gradients[parameter].samples.names == t.blocks[i].gradients[parameter].samples.names
      && r.gradients[parameter].properties == r.properties
      && RefersTo(r.gradients[parameter].samples.rows, r.samples.rows)
  {
    GroupCanMerge(axis, t, dimensions, newKeys, sort, Some(parameter), g);
    MovedBlock(axis, t, dimensions, newKeys, sort, g);
    hide CanMoveKeys, GroupIndices, Moved, GroupFails, Merged, RemainingKeys, Mergeable, MovedPart, RefersTo;
    var k := BlockInGroup(t, dimensions, i, g);
    GradientOfMerged(axis, dimensions, newKeys, Group(t, dimensions, g), sort, k, parameter);
  }

  lemma GradientOfMerged(axis: Axis, names: seq<string>, newKeys: Option<seq<Row>>, kbs: seq<KeyAndBlock>, sort: bool, k: nat, parameter: string)
    requires CanMerge(axis, names, newKeys, kbs, sort, Some(parameter)) && k < |kbs|
    ensures var r := Merged(axis, names, newKeys, kbs, sort);
      && parameter in r.gradients && parameter in kbs[k].block.gradients
      && r.gradients[parameter].samples.names == kbs[k].block.gradients[parameter].samples.names
      && r.gradients[parameter].properties == r.properties
      && RefersTo(r.gradients[parameter].samples.rows, r.samples.rows)
  {
    GradientIsPresent(kbs, |names|, k, parameter);
    MergedGradientRowsRefer(axis, kbs, sort, |names|, parameter);
    hide MergeFails, MergeDemands, Gather, MergedSampleRows, MergedGradientRows, MergedProperties, ValidBlock;
  }

  /** The same for the values of gradients, which refer to samples by number. */
  lemma GradientValueIsMovedByName(axis: Axis, t: TensorMap, dimensions: seq<string>, newKeys: Option<seq<Row>>, sort: bool, parameter: string,
                                   i: nat, v: nat, c: Index, q: nat) returns (h: nat, u: nat, p: nat)
    requires CanMoveKeys(axis, t, dimensions, newKeys, sort) && i < |t.blocks| && parameter in t.blocks[i].gradients
    requires AskedFor(newKeys, dimensions, t.keys.names, t.keys.rows[i])
    requires v < |t.blocks[i].gradients[parameter].samples.rows| && q < |t.blocks[i].properties.rows|
    requires InRange(Counts(t.blocks[i].gradients[parameter].components), c)
    ensures var moved, key, b := Moved(axis, t, dimensions, newKeys, sort), t.keys.rows[i], t.blocks[i];
      && SameKey(moved, h, t.keys, key, dimensions)
      && SameGradientRow(axis, moved.blocks[h], u, b, v, parameter, t.keys, key, dimensions)
      && SameProperty(axis, moved.blocks[h], p, b, q, t.keys, key, dimensions)
      && moved.blocks[h].gradients[parameter].properties == moved.blocks[h].properties
      && Get(moved.blocks[h].gradients[parameter].values, Cell(u, c, p)) == Get(b.gradients[parameter].values, Cell(v, c, q))
  {
    GradientParts(t, i, parameter, v);
    var b, key := t.blocks[i], t.keys.rows[i];
    var row := b.gradients[parameter].samples.rows[v];
    SizesOfLabels(t, i, row[0], q);
    hide CanMoveKeys, Moved, MovedPart, RemainingPart, ValidTensor, AskedFor, SaysAll, SaysMoved, SaysRemaining, KnownDimensions, BlockAt;
    h := BlockAfter(axis, t, dimensions, newKeys, sort, i);
    var r := Moved(axis, t, dimensions, newKeys, sort).blocks[h];
    u, p := CellAfter(axis, t, dimensions, newKeys, sort, Some(parameter), i, v, c, q, r);
    KnownInMove(axis, t, dimensions, newKeys, sort);
    GradientAtKey(axis, t, dimensions, newKeys, sort, i, h, parameter);
    LabelsSay(axis, t.keys, dimensions, key, b.samples.names, b.samples.rows[row[0]], b.properties.names, b.properties.rows[q]);
  }

  lemma GradientAtKey(axis: Axis, t: TensorMap, dimensions: seq<string>, newKeys: Option<seq<Row>>, sort: bool, i: nat, h: nat, parameter: string)
    requires CanMoveKeys(axis, t, dimensions, newKeys, sort) && i < |t.keys.rows| == |t.blocks|
    requires parameter in t.blocks[i].gradients && parameter in t.blocks[0].gradients
    requires h < |Moved(axis, t, dimensions, newKeys, sort).blocks|
    requires BlockAt(Moved(axis, t, dimensions, newKeys, sort), RemainingPart(t.keys, dimensions, t.keys.rows[i])) == Moved(axis, t, dimensions, newKeys, sort).blocks[h]
    ensures var r := Moved(axis, t, dimensions, newKeys, sort).blocks[h];
      && parameter in r.gradients
      && r.gradients[parameter].samples.names == t.blocks[i].gradients[parameter].samples.names
      && r.gradients[parameter].properties == r.properties
      && RefersTo(r.gradients[parameter].samples.rows, r.samples.rows)
  {
    RemainingKeysAreValid(t.keys, dimensions);
    MovedCount(axis, t, dimensions, newKeys, sort);
    hide CanMoveKeys, RemainingKeys, RemainingPart, GroupIndices, Moved, BlockAt, ValidTensor, RefersTo;
    var g := GroupOf(t.keys, dimensions, i);
    RemainingPartIsGroup(t.keys, dimensions, i, g);
    BlockAtKey(Moved(axis, t, dimensions, newKeys, sort), g, RemainingPart(t.keys, dimensions, t.keys.rows[i]));
    GradientAfter(axis, t, dimensions, newKeys, sort, i, g, parameter);
  }

  /** Where a cell that is not zero after a move was before. */
  lemma CellBefore(axis: Axis, t: TensorMap, dimensions: seq<string>, newKeys: Option<seq<Row>>, sort: bool, parameter: Option<string>,
                   h: nat, s: nat, c: Index, p: nat, newKey: Row, r: Block) returns (i: nat, j: nat, q: nat)
    requires CanMoveKeys(axis, t, dimensions, newKeys, sort) && HasData(t.blocks[0], parameter)
    requires var moved := Moved(axis, t, dimensions, newKeys, sort);
      && h < |moved.keys.rows| == |moved.blocks| && newKey == moved.keys.rows[h] && r == moved.blocks[h] && Distinct(moved.keys.rows)
    requires var sheet := SheetOf(r, parameter);
      && s < |sheet.labels| && p < |sheet.properties| && Distinct(sheet.labels) && Distinct(sheet.properties)
      && Get(sheet.values, Cell(s, c, p)) != ZERO
    requires InRange(Counts(ComponentsOf(r, parameter)), c)
    ensures i < |t.keys.rows| == |t.blocks| && RemainingPart(t.keys, dimensions, t.keys.rows[i]) == newKey
    ensures var sheet, after, moved := SheetOf(t.blocks[i], parameter), SheetOf(r, parameter), MovedPart(t.keys, dimensions, t.keys.rows[i]);
      && j < |sheet.labels| && after.labels[s] == MovedLabel(axis, moved, sheet.labels[j])
      && q < |sheet.properties| && after.properties[p] == MovedProperty(axis, moved, sheet.properties[q])
      && Get(after.values, Cell(s, c, p)) == Get(sheet.values, Cell(j, c, q))
  {
    KeysAreDistinct(t);
    var sheet := SheetOf(r, parameter);
    hide CanMoveKeys, SheetOf, Moved, MovedPart, RemainingPart, BlockAt, ValidTensor, MovedLabel, MovedProperty, ComponentsOf, SheetCell, Distinct, Locate;
    BlockAtKey(Moved(axis, t, dimensions, newKeys, sort), h, newKey);
    CellAtPlace(sheet, s, c, p);
    i := NonzeroCellHasSource(axis, t, dimensions, newKeys, sort, parameter, newKey, sheet.labels[s], c, sheet.properties[p]);
    var source := Locate(axis, |dimensions|, sheet.labels[s], sheet.properties[p]);
    BlockAtKey(t, i, t.keys.rows[i]);
    j, q := PlaceOfCell(SheetOf(t.blocks[i], parameter), source.about, c, source.property);
  }

  lemma MovedLabelsAreDistinct(axis: Axis, t: TensorMap, dimensions: seq<string>, newKeys: Option<seq<Row>>, sort: bool, h: nat)
    requires CanMoveKeys(axis, t, dimensions, newKeys, sort) && h < |Moved(axis, t, dimensions, newKeys, sort).blocks|
    ensures var moved := Moved(axis, t, dimensions, newKeys, sort);
      && |moved.keys.rows| == |moved.blocks| && Distinct(moved.keys.rows)
      && Distinct(moved.blocks[h].samples.rows) && Distinct(moved.blocks[h].properties.rows)
      && SampleLabels(moved.blocks[h].samples.rows) == SheetOf(moved.blocks[h], None).labels
  {
    MovedIsValid(axis, t, dimensions, newKeys, sort);
    hide CanMoveKeys, Moved;
    assert ValidBlock(Moved(axis, t, dimensions, newKeys, sort).blocks[h]);
  }

  lemma SamplesOfSheet(b: Block)
    ensures SheetOf(b, None) == Sheet(SampleLabels(b.samples.rows), b.properties.rows, b.values)
  {}

  /** Nothing is made up: every value that is not zero was at a key that says the
      same about the remaining dimensions, under labels that say the same. */
  lemma NonzeroValueHasSourceByName(axis: Axis, t: TensorMap, dimensions: seq<string>, newKeys: Option<seq<Row>>, sort: bool, h: nat, s: nat, c: Index, p: nat)
    returns (i: nat, j: nat, q: nat)
    requires CanMoveKeys(axis, t, dimensions, newKeys, sort) && h < |Moved(axis, t, dimensions, newKeys, sort).blocks|
    requires var r := Moved(axis, t, dimensions, newKeys, sort).blocks[h];
      && s < |r.samples.rows| && p < |r.properties.rows| && InRange(Counts(r.components), c) && Get(r.values, Cell(s, c, p)) != 0
    ensures i < |t.blocks| == |t.keys.rows|
    ensures var moved, key, b := Moved(axis, t, dimensions, newKeys, sort), t.keys.rows[i], t.blocks[i];
      && SameKey(moved, h, t.keys, key, dimensions)
      && SameSample(axis, moved.blocks[h], s, b, j, t.keys, key, dimensions)
      && SameProperty(axis, moved.blocks[h], p, b, q, t.keys, key, dimensions)
      && Get(moved.blocks[h].values, Cell(s, c, p)) == Get(b.values, Cell(j, c, q))
  {
    MovedLabelsAreDistinct(axis, t, dimensions, newKeys, sort, h);
    ValidInMove(axis, t, dimensions, newKeys, sort);
    hide CanMoveKeys, Moved, MovedPart, RemainingPart, BlockAt, ValidTensor, SaysAll, SaysMoved, SaysRemaining, KnownDimensions, SheetOf;
    var moved := Moved(axis, t, dimensions, newKeys, sort);
    var r := moved.blocks[h];
    SamplesOfSheet(r);
    SampleLabelsAreDistinct(r.samples.rows);
    i, j, q := CellBefore(axis, t, dimensions, newKeys, sort, None, h, s, c, p, moved.keys.rows[h], r);
    var b, key := t.blocks[i], t.keys.rows[i];
    SamplesOfSheet(b);
    SizesOfLabels(t, i, j, q);
    var g := BlockAfter(axis, t, dimensions, newKeys, sort, i);
    BlockAtKey(moved, h, RemainingPart(t.keys, dimensions, key));
    KeySaysRemaining(axis, t, dimensions, newKeys, sort, i, h);
    KnownInMove(axis, t, dimensions, newKeys, sort);
    LabelsSay(axis, t.keys, dimensions, key, b.samples.names, b.samples.rows[j], b.properties.names, b.properties.rows[q]);
  }

  lemma ValidInMove(axis: Axis, t: TensorMap, dimensions: seq<string>, newKeys: Option<seq<Row>>, sort: bool)
    requires CanMoveKeys(axis, t, dimensions, newKeys, sort)
    ensures ValidTensor(t) && t.blocks != []
  {}

  lemma KeySaysRemaining(axis: Axis, t: TensorMap, dimensions: seq<string>, newKeys: Option<seq<Row>>, sort: bool, i: nat, h: nat)
    requires CanMoveKeys(axis, t, dimensions, newKeys, sort) && i < |t.keys.rows|
    requires var moved := Moved(axis, t, dimensions, newKeys, sort);
      h < |moved.keys.rows| == |moved.blocks| && moved.keys.rows[h] == RemainingPart(t.keys, dimensions, t.keys.rows[i])
    ensures SameKey(Moved(axis, t, dimensions, newKeys, sort), h, t.keys, t.keys.rows[i], dimensions)
  {
    MovedCount(axis, t, dimensions, newKeys, sort);
    assert ValidLabels(t.keys);
    hide MoveFails, MoveDemands, Moved, RemainingPart, RemainingKeys, SaysRemaining;
    RemainingPartSays(t.keys, dimensions, t.keys.rows[i]);
  }

  /** The column names of all blocks after a move. */
  ghost predicate NamesAreMoved(axis: Axis, b: Block, r: Block, dimensions: seq<string>) {
    && r.properties.names == (if axis.Properties? then dimensions else []) + b.properties.names
    && r.samples.names == b.samples.names + (if axis.Samples? then dimensions else [])
  }

  lemma NamesAfter(axis: Axis, t: TensorMap, dimensions: seq<string>, newKeys: Option<seq<Row>>, sort: bool)
    requires ValidTensor(t) && t.keys.rows != []
    ensures forall r :: r in Moved(axis, t, dimensions, newKeys, sort).blocks ==> NamesAreMoved(axis, t.blocks[0], r, dimensions)
  {
    MovedCount(axis, t, dimensions, newKeys, sort);
    KeysAreDistinct(t);
    forall g | 0 <= g < GroupCount(t, dimensions)
      ensures NamesAreMoved(axis, t.blocks[0], Moved(axis, t, dimensions, newKeys, sort).blocks[g], dimensions)
    {
      FirstOfGroup(t, dimensions, g);
      MovedBlock(axis, t, dimensions, newKeys, sort, g);
      hide Moved, Merged, ValidTensor, Mergeable, Group, GroupFails;
      NamesOfMerged(axis, dimensions, newKeys, Group(t, dimensions, g), sort, 0);
    }
    hide Moved, NamesAreMoved, ValidTensor;
  }

  lemma FirstOfGroup(t: TensorMap, dimensions: seq<string>, g: nat)
    requires ValidTensor(t) && t.keys.rows != [] && g < GroupCount(t, dimensions)
    ensures Group(t, dimensions, g) != []
    ensures Group(t, dimensions, g)[0].block.samples.names == t.blocks[0].samples.names
    ensures Group(t, dimensions, g)[0].block.properties.names == t.blocks[0].properties.names
  {
    GroupIsNotEmpty(t.keys, dimensions, g);
    var i := GroupIndices(t.keys, dimensions, g)[0];
    assert i in GroupIndices(t.keys, dimensions, g) && SameStructure(t.blocks[0], t.blocks[i]);
  }

  /** These rows are the requested values in front of the old rows, in this order,
      and no others. */
  ghost predicate AreRequested(rows: seq<Row>, requested: seq<Row>, part: seq<Row>) {
    && |rows| == |requested| * |part|
    && forall k: nat, x: nat {:trigger requested[k], part[x]} :: k < |requested| && x < |part| ==>
         RowAt(rows, k * |part| + x, requested[k] + part[x])
  }

  predicate RowAt(rows: seq<Row>, at: nat, row: Row) {
    at < |rows| && rows[at] == row
  }

  /** With values given for the moved dimensions, every block goes to one with
      exactly these values in its properties, whatever the keys are. */
  lemma RequestedAfter(t: TensorMap, dimensions: seq<string>, requested: seq<Row>, sort: bool, i: nat) returns (h: nat)
    requires CanMoveKeys(Properties, t, dimensions, Some(requested), sort) && i < |t.keys.rows| == |t.blocks|
    ensures var moved := Moved(Properties, t, dimensions, Some(requested), sort);
      SameKey(moved, h, t.keys, t.keys.rows[i], dimensions) && AreRequested(moved.blocks[h].properties.rows, requested, t.blocks[i].properties.rows)
  {
    RemainingKeysAreValid(t.keys, dimensions);
    MovedCount(Properties, t, dimensions, Some(requested), sort);
    hide CanMoveKeys, RemainingKeys, RemainingPart, GroupIndices, Moved, AreRequested;
    h := GroupOf(t.keys, dimensions, i);
    RemainingPartIsGroup(t.keys, dimensions, i, h);
    KeySaysRemaining(Properties, t, dimensions, Some(requested), sort, i, h);
    RequestedInGroup(t, dimensions, requested, sort, i, h);
  }

  lemma RequestedInGroup(t: TensorMap, dimensions: seq<string>, requested: seq<Row>, sort: bool, i: nat, g: nat)
    requires CanMoveKeys(Properties, t, dimensions, Some(requested), sort) && i < |t.keys.rows| == |t.blocks|
    requires g < GroupCount(t, dimensions) && i in GroupIndices(t.keys, dimensions, g)
    ensures |Moved(Properties, t, dimensions, Some(requested), sort).blocks| == GroupCount(t, dimensions)
    ensures AreRequested(Moved(Properties, t, dimensions, Some(requested), sort).blocks[g].properties.rows, requested, t.blocks[i].properties.rows)
  {
    GroupCanMerge(Properties, t, dimensions, Some(requested), sort, None, g);
    MovedBlock(Properties, t, dimensions, Some(requested), sort, g);
    hide CanMoveKeys, GroupIndices, Moved, GroupFails, Merged, RemainingKeys, Mergeable, MovedPart, AreRequested;
    var k := BlockInGroup(t, dimensions, i, g);
    RequestedInMerged(dimensions, requested, Group(t, dimensions, g), sort, k);
  }

  lemma RequestedInMerged(names: seq<string>, requested: seq<Row>, kbs: seq<KeyAndBlock>, sort: bool, k: nat)
    requires CanMerge(Properties, names, Some(requested), kbs, sort, None) && k < |kbs|
    ensures AreRequested(Merged(Properties, names, Some(requested), kbs, sort).properties.rows, requested, kbs[k].block.properties.rows)
  {
    assert kbs[k].block.properties == kbs[0].block.properties;
    hide MergeInput, MergeFails, MergeDemands, MergedSampleRows, Gather, MergedProperties, MergedGradient, AreRequested;
    RequestedRows(names, requested, kbs);
  }

  lemma RequestedRows(names: seq<string>, requested: seq<Row>, kbs: seq<KeyAndBlock>)
    requires MergeInput(Properties, names, Some(requested), kbs) && !MergeFails(Properties, Some(requested), kbs)
    ensures AreRequested(MergedProperties(Properties, names, Some(requested), kbs).rows, requested, kbs[0].block.properties.rows)
  {
    assert kbs != [];
    hide MergeInput, MergeFails, MergedProperties, RowAt;
    var rows, part := MergedProperties(Properties, names, Some(requested), kbs).rows, kbs[0].block.properties.rows;
    forall k: nat, x: nat | k < |requested| && x < |part| ensures RowAt(rows, k * |part| + x, requested[k] + part[x]) {
      RequestedRow(names, requested, kbs, k, x);
    }
    RequestedCount(names, requested, kbs);
  }

  lemma RequestedRow(names: seq<string>, requested: seq<Row>, kbs: seq<KeyAndBlock>, k: nat, x: nat)
    requires MergeInput(Properties, names, Some(requested), kbs) && !MergeFails(Properties, Some(requested), kbs)
    requires k < |requested| && x < |kbs[0].block.properties.rows|
    ensures var part := kbs[0].block.properties.rows;
      RowAt(MergedProperties(Properties, names, Some(requested), kbs).rows, k * |part| + x, requested[k] + part[x])
  {
    hide MergedProperties;
    RequestedProperties(names, requested, kbs, k, x);
  }

  lemma RequestedCount(names: seq<string>, requested: seq<Row>, kbs: seq<KeyAndBlock>)
    requires kbs != []
    ensures |MergedProperties(Properties, names, Some(requested), kbs).rows| == |requested| * |kbs[0].block.properties.rows|
  {
    PropertyRanges.ProductsLength(requested, PropertyRanges.Repeat(|requested|, kbs[0].block.properties.rows));
    PropertyRanges.TotalLengthOfRepeat(|requested|, kbs[0].block.properties.rows);
  }

  /** Every block goes to one that has the requested values in its properties. */
  ghost predicate RequestedEverywhere(t: TensorMap, moved: TensorMap, dimensions: seq<string>, requested: seq<Row>) {
    |t.blocks| == |t.keys.rows| &&
    forall i :: 0 <= i < |t.blocks| ==> HasRequested(t, moved, dimensions, requested, i)
  }

  ghost predicate HasRequested(t: TensorMap, moved: TensorMap, dimensions: seq<string>, requested: seq<Row>, i: nat)
    requires i < |t.blocks| == |t.keys.rows|
  {
    exists h: nat :: SameKey(moved, h, t.keys, t.keys.rows[i], dimensions)
                  && AreRequested(moved.blocks[h].properties.rows, requested, t.blocks[i].properties.rows)
  }

  lemma AllRequested(t: TensorMap, dimensions: seq<string>, requested: seq<Row>, sort: bool)
    requires CanMoveKeys(Properties, t, dimensions, Some(requested), sort)
    ensures RequestedEverywhere(t, Moved(Properties, t, dimensions, Some(requested), sort), dimensions, requested)
  {
    KeysAreDistinct(t);
    hide CanMoveKeys, Moved, AreRequested, SameKey;
    forall i | 0 <= i < |t.blocks| ensures HasRequested(t, Moved(Properties, t, dimensions, Some(requested), sort), dimensions, requested, i) {
      var h := RequestedAfter(t, dimensions, requested, sort, i);
    }
  }

  /** The names of the keys that are left, in their order; or a placeholder. */
  lemma RemainingNames(keys: Labels, dimensions: seq<string>)
    requires ValidLabels(keys) && KnownDimensions(keys, dimensions)
    ensures (forall name :: name in keys.names ==> name in dimensions) ==> RemainingKeys(keys, dimensions) == Labels(["_"], [[0]])
    ensures (exists name :: name in keys.names && name !in dimensions) ==>
      var names := RemainingKeys(keys, dimensions).names;
      && (forall name :: name in names <==> name in keys.names && name !in dimensions)
      && (forall i, j :: 0 <= i < j < |names| ==> Position(keys.names, names[i]).GetOr(0) < Position(keys.names, names[j]).GetOr(0))
  {
    PositionsAreDistinct(keys.names, dimensions);
    var positions, rest := MovedPositions(keys, dimensions), RemainingPositions(keys, dimensions);
    forall k | 0 <= k < |keys.names| ensures k in rest <==> keys.names[k] !in dimensions {
      if keys.names[k] in dimensions {
        var d :| 0 <= d < |dimensions| && dimensions[d] == keys.names[k];
        assert keys.names[positions[d]] == keys.names[k] && positions[d] in positions;
      } else {
        assert forall d :: 0 <= d < |positions| ==> keys.names[positions[d]] == dimensions[d] && dimensions[d] in dimensions;
      }
    }
    if rest == [] {
      assert forall k :: 0 <= k < |keys.names| ==> keys.names[k] in dimensions;
    } else {
      assert rest[0] in rest && keys.names[rest[0]] !in dimensions;
      RestIsListed(keys, dimensions);
    }
  }

  lemma RestIsListed(keys: Labels, dimensions: seq<string>)
    requires Distinct(keys.names) && RemainingPositions(keys, dimensions) != []
    requires forall k :: 0 <= k < |keys.names| ==> (k in RemainingPositions(keys, dimensions) <==> keys.names[k] !in dimensions)
    ensures var names := RemainingKeys(keys, dimensions).names;
      && (forall name :: name in names <==> name in keys.names && name !in dimensions)
      && (forall i, j :: 0 <= i < j < |names| ==> Position(keys.names, names[i]).GetOr(0) < Position(keys.names, names[j]).GetOr(0))
  {
    var rest, names := RemainingPositions(keys, dimensions), RemainingKeys(keys, dimensions).names;
    assert names == Select(keys.names, rest);
    assert forall r :: 0 <= r < |rest| ==> rest[r] in rest;
    hide RemainingKeys, RemainingPositions;
    SelectedInOrder(keys.names, rest, names);
    SelectedNames(keys.names, dimensions, rest, names);
  }

  lemma SelectedInOrder(all: seq<string>, rest: seq<nat>, names: seq<string>)
    requires Distinct(all) && names == Select(all, rest)
    requires forall r :: 0 <= r < |rest| ==> rest[r] < |all|
    requires forall i, j :: 0 <= i < j < |rest| ==> rest[i] < rest[j]
    ensures forall i, j :: 0 <= i < j < |names| ==> Position(all, names[i]).GetOr(0) < Position(all, names[j]).GetOr(0)
  {
    forall r | 0 <= r < |rest| ensures Position(all, names[r]) == Some(rest[r]) {
      PositionOf(all, rest[r]);
    }
  }

  lemma SelectedNames(all: seq<string>, dimensions: seq<string>, rest: seq<nat>, names: seq<string>)
    requires names == Select(all, rest) && forall r :: 0 <= r < |rest| ==> rest[r] < |all|
    requires forall k :: 0 <= k < |all| ==> (k in rest <==> all[k] !in dimensions)
    ensures forall name :: name in names <==> name in all && name !in dimensions
  {
    forall name ensures name in names <==> name in all && name !in dimensions {
      if name in all && name !in dimensions {
        var k :| 0 <= k < |all| && all[k] == name;
        var r :| 0 <= r < |rest| && rest[r] == k;
        assert names[r] == name;
      }
      if name in names {
        var r :| 0 <= r < |names| && names[r] == name;
        assert rest[r] in rest;
      }
    }
  }

  /** Every new key is what is left of an old one. */
  lemma NewKeyHasSource(t: TensorMap, dimensions: seq<string>, h: nat) returns (i: nat)
    requires ValidLabels(t.keys) && t.keys.rows != [] && KnownDimensions(t.keys, dimensions) && h < |RemainingKeys(t.keys, dimensions).rows|
    ensures i < |t.keys.rows|
    ensures SaysRemaining(RemainingKeys(t.keys, dimensions).names, RemainingKeys(t.keys, dimensions).rows[h], t.keys.names, t.keys.rows[i], dimensions)
  {
    GroupIsNotEmpty(t.keys, dimensions, h);
    i := GroupIndices(t.keys, dimensions, h)[0];
    assert i in GroupIndices(t.keys, dimensions, h);
    RemainingPartIsGroup(t.keys, dimensions, i, h);
    RemainingPartSays(t.keys, dimensions, t.keys.rows[i]);
  }
}
