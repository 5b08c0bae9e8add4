/** What moving keys does to the meaning of a whole tensor map: the value at a
    key, a row, components and a property. */
module TensorMeaning {
  import opened Wrappers
  import opened Sequences
  import opened Lexicographic
  import opened RowMajor
  import opened Arrays
  import opened LabelSets
  import opened Blocks
  import opened Tensors
  import opened Keys
  import opened Sheets
  import opened Merging
  import opened MergedBlocks
  import opened Groups
  import opened KeyMoves
  import opened MergeMeaning

  const NO_LABELS := Labels([], [])
  const NO_BLOCK := Block(Array([], map[]), NO_LABELS, [], NO_LABELS, map[])

  /** The block at a key. */
  function BlockAt(t: TensorMap, key: Row): Block {
    match Position(t.keys.rows, key)
    case Some(i) => if i < |t.blocks| then t.blocks[i] else NO_BLOCK
    case None => NO_BLOCK
  }

  /** The value a tensor map has for a key and labels, in the values or in the
      gradient with respect to a parameter. */
  function TensorCell(t: TensorMap, parameter: Option<string>, key: Row, about: RowLabel, c: Index, property: Row): Option<Value> {
    SheetCell(SheetOf(BlockAt(t, key), parameter), about, c, property)
  }

  /** A move that succeeds, for callers who have seen to its demands. */
  ghost predicate CanMoveKeys(axis: Axis, t: TensorMap, dimensions: seq<string>, newKeys: Option<seq<Row>>, sort: bool) {
    && ValidTensor(t) && t.keys.rows != [] && KnownDimensions(t.keys, dimensions) && ValidNames(dimensions)
    && (newKeys.Some? ==> axis.Properties? && newKeys.value != [] && Distinct(newKeys.value) && OfSize(newKeys.value, |dimensions|))
    && !MoveFails(axis, t, dimensions, newKeys) && MoveDemands(axis, t, dimensions, newKeys, sort)
  }

  function MovedPart(keys: Labels, dimensions: seq<string>, key: Row): Row {
    Project(key, MovedPositions(keys, dimensions))
  }

  /** The key that is left, or the placeholder. */
  function RemainingPart(keys: Labels, dimensions: seq<string>, key: Row): Row {
    if RemainingPositions(keys, dimensions) == [] then [0] else Project(key, RemainingPositions(keys, dimensions))
  }

  lemma RemainingPartIsGroup(keys: Labels, dimensions: seq<string>, i: nat, g: nat)
    requires g < |RemainingKeys(keys, dimensions).rows| && i in GroupIndices(keys, dimensions, g)
    ensures Position(RemainingKeys(keys, dimensions).rows, RemainingPart(keys, dimensions, keys.rows[i])) == Some(g)
  {
    FirstOccurrencesIsSet(Projections(keys.rows, RemainingPositions(keys, dimensions)));
    PositionOf(RemainingKeys(keys, dimensions).rows, g);
  }

  lemma GroupCanMerge(axis: Axis, t: TensorMap, dimensions: seq<string>, newKeys: Option<seq<Row>>, sort: bool, parameter: Option<string>, g: nat)
    requires CanMoveKeys(axis, t, dimensions, newKeys, sort) && HasData(t.blocks[0], parameter) && g < GroupCount(t, dimensions)
    ensures CanMerge(axis, dimensions, newKeys, Group(t, dimensions, g), sort, parameter)
  {
    hide ValidBlock, MergeFails, MergeDemands, SameStructure, RemainingKeys, MoveDemands, GroupFails;
    GroupIsMergeable(t, dimensions, g);
    assert !GroupFails(axis, t, dimensions, newKeys, g);
    MovedBlock(axis, t, dimensions, newKeys, sort, g);
    ReachedGroupDemands(axis, t, dimensions, newKeys, sort, g);
    GroupHasData(t, dimensions, parameter, g);
  }

  lemma GroupHasData(t: TensorMap, dimensions: seq<string>, parameter: Option<string>, g: nat)
    requires ValidTensor(t) && t.keys.rows != [] && g < GroupCount(t, dimensions) && HasData(t.blocks[0], parameter)
    ensures Group(t, dimensions, g) != [] && HasData(Group(t, dimensions, g)[0].block, parameter)
  {
    GroupIsNotEmpty(t.keys, dimensions, g);
    var i := GroupIndices(t.keys, dimensions, g)[0];
    assert i in GroupIndices(t.keys, dimensions, g);
    if parameter.Some? {
      SameStructureOfGradients(t.blocks[0], t.blocks[i], parameter.value);
    }
  }

  lemma BlockInGroup(t: TensorMap, dimensions: seq<string>, i: nat, g: nat) returns (k: nat)
    requires |t.blocks| == |t.keys.rows| && i in GroupIndices(t.keys, dimensions, g)
    ensures k < |Group(t, dimensions, g)| && i < |t.blocks|
    ensures Group(t, dimensions, g)[k] == KeyAndBlock(MovedPart(t.keys, dimensions, t.keys.rows[i]), t.blocks[i])
  {
    var indices := GroupIndices(t.keys, dimensions, g);
    k :| 0 <= k < |indices| && indices[k] == i;
  }

  lemma ComponentCountsAgree(axis: Axis, names: seq<string>, newKeys: Option<seq<Row>>, kbs: seq<KeyAndBlock>, sort: bool, parameter: Option<string>, k: nat)
    requires CanMerge(axis, names, newKeys, kbs, sort, parameter) && k < |kbs| && HasRange(axis, newKeys, kbs[k])
    ensures Counts(ComponentsOf(kbs[k].block, parameter)) == Counts(ComponentsOf(kbs[0].block, parameter))
  {
    hide Counts;
    if parameter.Some? {
      GradientIsPresent(kbs, |names|, k, parameter.value);
    }
  }

  lemma CellHasProperty(b: Block, parameter: Option<string>, about: RowLabel, c: Index, property: Row)
    requires SheetCell(SheetOf(b, parameter), about, c, property).Some?
    ensures b.properties.rows != []
  {}

  lemma MergedComponents(axis: Axis, names: seq<string>, newKeys: Option<seq<Row>>, kbs: seq<KeyAndBlock>, sort: bool, parameter: Option<string>)
    requires CanMerge(axis, names, newKeys, kbs, sort, parameter)
    ensures ComponentsOf(Merged(axis, names, newKeys, kbs, sort), parameter) == ComponentsOf(kbs[0].block, parameter)
  {}

  /** The cell of block `i` in the merged block of its group. */
  lemma CellIsInGroup(axis: Axis, t: TensorMap, dimensions: seq<string>, newKeys: Option<seq<Row>>, sort: bool, parameter: Option<string>,
                      i: nat, about: RowLabel, c: Index, property: Row, moved: Row, g: nat)
    requires CanMoveKeys(axis, t, dimensions, newKeys, sort) && HasData(t.blocks[0], parameter) && i < |t.keys.rows| == |t.blocks|
    requires moved == MovedPart(t.keys, dimensions, t.keys.rows[i])
    requires newKeys.Some? ==> moved in newKeys.value
    requires InRange(Counts(ComponentsOf(t.blocks[i], parameter)), c)
    requires g < GroupCount(t, dimensions) && i in GroupIndices(t.keys, dimensions, g)
    ensures |Moved(axis, t, dimensions, newKeys, sort).blocks| == GroupCount(t, dimensions)
    ensures SheetCell(SheetOf(t.blocks[i], parameter), about, c, property).Some? ==>
      SheetCell(SheetOf(Moved(axis, t, dimensions, newKeys, sort).blocks[g], parameter), MovedLabel(axis, moved, about), c, MovedProperty(axis, moved, property))
      == SheetCell(SheetOf(t.blocks[i], parameter), about, c, property)
  {
    GroupCanMerge(axis, t, dimensions, newKeys, sort, parameter, g);
    MovedBlock(axis, t, dimensions, newKeys, sort, g);
    hide CanMerge, CanMoveKeys, GroupIndices, RemainingKeys, MovedLabel, MovedProperty, SheetCell, SheetOf, Moved, MovedPart, ComponentsOf, Merged, Mergeable, MergeFails;
    var k := BlockInGroup(t, dimensions, i, g);
    if SheetCell(SheetOf(t.blocks[i], parameter), about, c, property).Some? {
      CellHasProperty(t.blocks[i], parameter, about, c, property);
      ComponentCountsAgree(axis, dimensions, newKeys, Group(t, dimensions, g), sort, parameter, k);
      SourceCellIsKept(axis, dimensions, newKeys, Group(t, dimensions, g), sort, parameter, k, about, c, property);
    }
  }

  lemma BlockAtKey(t: TensorMap, i: nat, key: Row)
    requires Distinct(t.keys.rows) && i < |t.keys.rows| == |t.blocks| && key == t.keys.rows[i]
    ensures BlockAt(t, key) == t.blocks[i]
  {
    PositionOf(t.keys.rows, i);
  }

  lemma KeysAreDistinct(t: TensorMap)
    requires ValidTensor(t)
    ensures Distinct(t.keys.rows) && |t.keys.rows| == |t.blocks|
  {}

  /** Moving keys keeps every cell: what stood at a key now stands at the
      remaining part of the key, with the moved part in its labels. Where values
      were requested for the moved part, this holds for the requested ones. */
  lemma CellIsMoved(axis: Axis, t: TensorMap, dimensions: seq<string>, newKeys: Option<seq<Row>>, sort: bool, parameter: Option<string>,
                    i: nat, about: RowLabel, c: Index, property: Row, key: Row, moved: Row)
    requires CanMoveKeys(axis, t, dimensions, newKeys, sort) && HasData(t.blocks[0], parameter) && i < |t.keys.rows|
    requires key == t.keys.rows[i] && moved == MovedPart(t.keys, dimensions, key)
    requires newKeys.Some? ==> moved in newKeys.value
    requires InRange(Counts(ComponentsOf(t.blocks[i], parameter)), c)
    ensures TensorCell(t, parameter, key, about, c, property).Some? ==>
      TensorCell(Moved(axis, t, dimensions, newKeys, sort), parameter, RemainingPart(t.keys, dimensions, key),
                 MovedLabel(axis, moved, about), c, MovedProperty(axis, moved, property))
      == TensorCell(t, parameter, key, about, c, property)
  {
    KeysAreDistinct(t);
    RemainingKeysAreValid(t.keys, dimensions);
    MovedCount(axis, t, dimensions, newKeys, sort);
    hide CanMoveKeys, GroupIndices, RemainingKeys, MovedLabel, MovedProperty, SheetCell, SheetOf, Moved, MovedPart, RemainingPart, ComponentsOf, ValidTensor, BlockAt;
    var g := GroupOf(t.keys, dimensions, i);
    BlockAtKey(t, i, key);
    RemainingPartIsGroup(t.keys, dimensions, i, g);
    CellIsInGroup(axis, t, dimensions, newKeys, sort, parameter, i, about, c, property, moved, g);
    BlockAtKey(Moved(axis, t, dimensions, newKeys, sort), g, RemainingPart(t.keys, dimensions, key));
  }

  /** The source of a cell of group `g` that is not zero. */
  lemma GroupCellHasSource(axis: Axis, t: TensorMap, dimensions: seq<string>, newKeys: Option<seq<Row>>, sort: bool, parameter: Option<string>,
                           g: nat, about: RowLabel, c: Index, property: Row) returns (i: nat)
    requires CanMoveKeys(axis, t, dimensions, newKeys, sort) && HasData(t.blocks[0], parameter)
    requires g < GroupCount(t, dimensions) && |Moved(axis, t, dimensions, newKeys, sort).blocks| == GroupCount(t, dimensions)
    requires SheetCell(SheetOf(Moved(axis, t, dimensions, newKeys, sort).blocks[g], parameter), about, c, property).GetOr(ZERO) != ZERO
    requires InRange(Counts(ComponentsOf(Moved(axis, t, dimensions, newKeys, sort).blocks[g], parameter)), c)
    ensures i < |t.keys.rows| == |t.blocks| && i in GroupIndices(t.keys, dimensions, g)
    ensures var s := Locate(axis, |dimensions|, about, property);
      && s.key == MovedPart(t.keys, dimensions, t.keys.rows[i])
      && MovedLabel(axis, s.key, s.about) == about && MovedProperty(axis, s.key, s.property) == property
      && SheetCell(SheetOf(t.blocks[i], parameter), s.about, c, s.property)
         == SheetCell(SheetOf(Moved(axis, t, dimensions, newKeys, sort).blocks[g], parameter), about, c, property)
  {
    KeysAreDistinct(t);
    GroupCanMerge(axis, t, dimensions, newKeys, sort, parameter, g);
    MovedBlock(axis, t, dimensions, newKeys, sort, g);
    hide CanMerge, CanMoveKeys, GroupIndices, RemainingKeys, MovedLabel, MovedProperty, SheetCell, SheetOf, Moved, MovedPart, ComponentsOf, Merged, Mergeable, MergeFails, Locate, ValidTensor, GroupFails;
    MergedComponents(axis, dimensions, newKeys, Group(t, dimensions, g), sort, parameter);
    var k := MergeMeaning.OtherCellsAreZero(axis, dimensions, newKeys, Group(t, dimensions, g), sort, parameter, about, c, property);
    i := BlockOfGroup(t, dimensions, g, k);
  }

  lemma BlockOfGroup(t: TensorMap, dimensions: seq<string>, g: nat, k: nat) returns (i: nat)
    requires |t.blocks| == |t.keys.rows| && k < |Group(t, dimensions, g)|
    ensures i < |t.blocks| && i in GroupIndices(t.keys, dimensions, g)
    ensures Group(t, dimensions, g)[k] == KeyAndBlock(MovedPart(t.keys, dimensions, t.keys.rows[i]), t.blocks[i])
  {
    i := GroupIndices(t.keys, dimensions, g)[k];
  }

  /** Every cell that is not zero after the move was there before it, at a key
      with that remaining part, under labels without the moved part. */
  lemma NonzeroCellHasSource(axis: Axis, t: TensorMap, dimensions: seq<string>, newKeys: Option<seq<Row>>, sort: bool, parameter: Option<string>,
                             key: Row, about: RowLabel, c: Index, property: Row) returns (i: nat)
    requires CanMoveKeys(axis, t, dimensions, newKeys, sort) && HasData(t.blocks[0], parameter)
    requires TensorCell(Moved(axis, t, dimensions, newKeys, sort), parameter, key, about, c, property).GetOr(ZERO) != ZERO
    requires InRange(Counts(ComponentsOf(BlockAt(Moved(axis, t, dimensions, newKeys, sort), key), parameter)), c)
    ensures i < |t.keys.rows| && RemainingPart(t.keys, dimensions, t.keys.rows[i]) == key
    ensures var s := Locate(axis, |dimensions|, about, property);
      && s.key == MovedPart(t.keys, dimensions, t.keys.rows[i])
      && MovedLabel(axis, s.key, s.about) == about && MovedProperty(axis, s.key, s.property) == property
      && TensorCell(t, parameter, t.keys.rows[i], s.about, c, s.property)
         == TensorCell(Moved(axis, t, dimensions, newKeys, sort), parameter, key, about, c, property)
  {
    KeysAreDistinct(t);
    RemainingKeysAreValid(t.keys, dimensions);
    MovedCount(axis, t, dimensions, newKeys, sort);
    var g := Position(RemainingKeys(t.keys, dimensions).rows, key).value;
    hide CanMoveKeys, GroupIndices, RemainingKeys, MovedLabel, MovedProperty, SheetCell, SheetOf, Moved, MovedPart, RemainingPart, ComponentsOf, ValidTensor, BlockAt, Locate;
    BlockAtKey(Moved(axis, t, dimensions, newKeys, sort), g, key);
    i := GroupCellHasSource(axis, t, dimensions, newKeys, sort, parameter, g, about, c, property);
    RemainingPartIsGroup(t.keys, dimensions, i, g);
    BlockAtKey(t, i, t.keys.rows[i]);
  }

  /** A row of a block is about something that a row of the block with the
      remaining key is about, once the moved part of the key is added. */
  lemma RowIsMoved(axis: Axis, t: TensorMap, dimensions: seq<string>, newKeys: Option<seq<Row>>, sort: bool, parameter: Option<string>,
                   i: nat, about: RowLabel, key: Row)
    requires CanMoveKeys(axis, t, dimensions, newKeys, sort) && HasData(t.blocks[0], parameter)
    requires i < |t.keys.rows| == |t.blocks| && key == t.keys.rows[i]
    requires about in SheetOf(t.blocks[i], parameter).labels
    ensures MovedLabel(axis, MovedPart(t.keys, dimensions, key), about)
         in SheetOf(BlockAt(Moved(axis, t, dimensions, newKeys, sort), RemainingPart(t.keys, dimensions, key)), parameter).labels
  {
    RemainingKeysAreValid(t.keys, dimensions);
    MovedCount(axis, t, dimensions, newKeys, sort);
    hide CanMoveKeys, GroupIndices, RemainingKeys, MovedLabel, SheetOf, Moved, MovedPart, RemainingPart, BlockAt;
    var g := GroupOf(t.keys, dimensions, i);
    RemainingPartIsGroup(t.keys, dimensions, i, g);
    BlockAtKey(Moved(axis, t, dimensions, newKeys, sort), g, RemainingPart(t.keys, dimensions, key));
    RowIsInGroup(axis, t, dimensions, newKeys, sort, parameter, i, about, g);
  }

  lemma RowIsInGroup(axis: Axis, t: TensorMap, dimensions: seq<string>, newKeys: Option<seq<Row>>, sort: bool, parameter: Option<string>,
                     i: nat, about: RowLabel, g: nat)
    requires CanMoveKeys(axis, t, dimensions, newKeys, sort) && HasData(t.blocks[0], parameter)
    requires i < |t.keys.rows| == |t.blocks| && about in SheetOf(t.blocks[i], parameter).labels
    requires g < GroupCount(t, dimensions) && i in GroupIndices(t.keys, dimensions, g)
    ensures |Moved(axis, t, dimensions, newKeys, sort).blocks| == GroupCount(t, dimensions)
    ensures MovedLabel(axis, MovedPart(t.keys, dimensions, t.keys.rows[i]), about)
         in SheetOf(Moved(axis, t, dimensions, newKeys, sort).blocks[g], parameter).labels
  {
    GroupCanMerge(axis, t, dimensions, newKeys, sort, parameter, g);
    MovedBlock(axis, t, dimensions, newKeys, sort, g);
    hide CanMerge, CanMoveKeys, GroupIndices, RemainingKeys, MovedLabel, SheetOf, Moved, MovedPart, Merged, Mergeable, MergeFails, GroupFails;
    var k := BlockInGroup(t, dimensions, i, g);
    var labels := SheetOf(t.blocks[i], parameter).labels;
    var j :| 0 <= j < |labels| && labels[j] == about;
    SourceLabelIsMerged(axis, dimensions, newKeys, Group(t, dimensions, g), sort, parameter, k, j);
  }

  /** Every row after the move is about something that a row was about before,
      at a key with that remaining part. */
  lemma MovedRowHasSource(axis: Axis, t: TensorMap, dimensions: seq<string>, newKeys: Option<seq<Row>>, sort: bool, parameter: Option<string>,
                          g: nat, about: RowLabel) returns (i: nat, source: RowLabel)
    requires CanMoveKeys(axis, t, dimensions, newKeys, sort) && HasData(t.blocks[0], parameter)
    requires g < GroupCount(t, dimensions) && |Moved(axis, t, dimensions, newKeys, sort).blocks| == GroupCount(t, dimensions)
    requires about in SheetOf(Moved(axis, t, dimensions, newKeys, sort).blocks[g], parameter).labels
    ensures i < |t.keys.rows| == |t.blocks| && i in GroupIndices(t.keys, dimensions, g)
    ensures source in SheetOf(t.blocks[i], parameter).labels
    ensures about == MovedLabel(axis, MovedPart(t.keys, dimensions, t.keys.rows[i]), source)
  {
    KeysAreDistinct(t);
    GroupCanMerge(axis, t, dimensions, newKeys, sort, parameter, g);
    MovedBlock(axis, t, dimensions, newKeys, sort, g);
    hide CanMerge, CanMoveKeys, GroupIndices, RemainingKeys, MovedLabel, SheetOf, Moved, MovedPart, Merged, Mergeable, MergeFails, GroupFails, SheetsOf, ValidTensor;
    MergedLabelHasSource(axis, dimensions, newKeys, Group(t, dimensions, g), sort, parameter, about);
    var kbs := Group(t, dimensions, g);
    var k, j :| 0 <= k < |kbs| && 0 <= j < |SheetsOf(kbs, parameter)[k].labels| && about == MovedLabel(axis, kbs[k].key, SheetsOf(kbs, parameter)[k].labels[j]);
    SourceHasData(axis, dimensions, newKeys, kbs, sort, parameter, k);
    source := SheetsOf(kbs, parameter)[k].labels[j];
    i := BlockOfGroup(t, dimensions, g, k);
  }

  /** The same, for the block at a key. */
  lemma RowHasSource(axis: Axis, t: TensorMap, dimensions: seq<string>, newKeys: Option<seq<Row>>, sort: bool, parameter: Option<string>,
                     newKey: Row, about: RowLabel) returns (i: nat, source: RowLabel)
    requires CanMoveKeys(axis, t, dimensions, newKeys, sort) && HasData(t.blocks[0], parameter)
    requires about in SheetOf(BlockAt(Moved(axis, t, dimensions, newKeys, sort), newKey), parameter).labels
    ensures i < |t.keys.rows| == |t.blocks| && RemainingPart(t.keys, dimensions, t.keys.rows[i]) == newKey
    ensures source in SheetOf(t.blocks[i], parameter).labels
    ensures about == MovedLabel(axis, MovedPart(t.keys, dimensions, t.keys.rows[i]), source)
  {
    RemainingKeysAreValid(t.keys, dimensions);
    MovedCount(axis, t, dimensions, newKeys, sort);
    var moved := Moved(axis, t, dimensions, newKeys, sort);
    var g := Position(moved.keys.rows, newKey).value;
    hide CanMoveKeys, GroupIndices, RemainingKeys, RemainingPart, MovedPart, MovedLabel, Moved, BlockAt, SheetOf;
    BlockAtKey(moved, g, newKey);
    i, source := MovedRowHasSource(axis, t, dimensions, newKeys, sort, parameter, g, about);
    RemainingPartIsGroup(t.keys, dimensions, i, g);
  }

  /** Where the key of a block is after a move. */
  lemma IndexAfter(axis: Axis, t: TensorMap, dimensions: seq<string>, newKeys: Option<seq<Row>>, sort: bool, i: nat, key: Row) returns (h: nat)
    requires ValidTensor(t) && i < |t.keys.rows| && key == t.keys.rows[i]
    ensures var moved := Moved(axis, t, dimensions, newKeys, sort);
      && h < |moved.keys.rows| == |moved.blocks| && moved.keys == RemainingKeys(t.keys, dimensions)
      && moved.keys.rows[h] == RemainingPart(t.keys, dimensions, key)
      && BlockAt(moved, RemainingPart(t.keys, dimensions, key)) == moved.blocks[h]
  {
    RemainingKeysAreValid(t.keys, dimensions);
    MovedCount(axis, t, dimensions, newKeys, sort);
    hide GroupIndices, RemainingKeys, RemainingPart, Moved, BlockAt;
    h := GroupOf(t.keys, dimensions, i);
    RemainingPartIsGroup(t.keys, dimensions, i, h);
    BlockAtKey(Moved(axis, t, dimensions, newKeys, sort), h, RemainingPart(t.keys, dimensions, key));
  }

  /** Data that the blocks have is still there after a move. */
  lemma DataAfter(axis: Axis, t: TensorMap, dimensions: seq<string>, newKeys: Option<seq<Row>>, sort: bool, parameter: Option<string>)
    requires CanMoveKeys(axis, t, dimensions, newKeys, sort) && HasData(t.blocks[0], parameter)
    ensures var moved := Moved(axis, t, dimensions, newKeys, sort);
      moved.blocks != [] && HasData(moved.blocks[0], parameter)
  {
    RemainingKeysAreValid(t.keys, dimensions);
    MovedCount(axis, t, dimensions, newKeys, sort);
    MovedBlock(axis, t, dimensions, newKeys, sort, 0);
    GroupCanMerge(axis, t, dimensions, newKeys, sort, parameter, 0);
    hide CanMoveKeys, CanMerge, Moved, Mergeable, GroupFails, MergeFails, Merged;
    MergedSheet(axis, dimensions, newKeys, Group(t, dimensions, 0), sort, parameter);
  }
}
