/** Moving two sets of dimensions to the properties, one after the other or at
    once: the same rows and the same values, up to the order of the properties
    and to properties without data. */
module PropertySteps {
  import opened Wrappers
  import opened Sequences
  import opened Lexicographic
  import opened RowMajor
  import opened Arrays
  import opened Blocks
  import opened Tensors
  import opened Keys
  import opened Sheets
  import opened KeyMoves
  import opened MergeMeaning
  import opened TensorMeaning
  import opened KeySplits

  /** How keys are moved to the properties: the dimensions, the values that are
      requested for them, and whether samples are sorted. */
  datatype Move = Move(dimensions: seq<string>, newKeys: Option<seq<Row>>, sort: bool)

  ghost predicate CanMoveToProperties(t: TensorMap, m: Move) {
    CanMoveKeys(Properties, t, m.dimensions, m.newKeys, m.sort)
  }

  function ToProperties(t: TensorMap, m: Move): TensorMap
    requires ValidTensor(t) && t.keys.rows != []
  {
    Moved(Properties, t, m.dimensions, m.newKeys, m.sort)
  }

  predicate IsRequested(m: Move, moved: Row) {
    m.newKeys.Some? ==> moved in m.newKeys.value
  }

  /** Both moves can be made one after the other, and at once. */
  ghost predicate BothWays(t: TensorMap, first: Move, second: Move, both: Move) {
    && both.dimensions == first.dimensions + second.dimensions
    && CanMoveToProperties(t, both)
    && CanMoveToProperties(t, first) && CanMoveToProperties(ToProperties(t, first), second)
  }

  /** A cell that is not zero is inside its array. */
  lemma NonzeroIsInRange(b: Block, parameter: Option<string>, about: RowLabel, c: Index, property: Row)
    requires ValidBlock(b) && SheetCell(SheetOf(b, parameter), about, c, property).GetOr(ZERO) != ZERO
    ensures HasData(b, parameter) && InRange(Counts(ComponentsOf(b, parameter)), c)
  {
    assert HasData(b, parameter);
    ShapeOfData(b, parameter);
    hide ValidBlock, SheetOf, ComponentsOf, HasData;
    var sheet := SheetOf(b, parameter);
    var s, p := Position(sheet.labels, about).value, Position(sheet.properties, property).value;
    InnerIndexInRange(sheet.values.shape, Counts(ComponentsOf(b, parameter)), s, c, p);
  }

  lemma InnerIndexInRange(shape: Index, counts: Index, s: nat, c: Index, p: nat)
    requires |shape| == |counts| + 2 && InRange(shape, Cell(s, c, p))
    requires forall k :: 0 <= k < |counts| ==> shape[k + 1] == counts[k]
    ensures InRange(counts, c)
  {
    var cell := Cell(s, c, p);
    forall k | 0 <= k < |counts| ensures c[k] < counts[k] {
      assert cell[k + 1] == c[k];
    }
  }

  lemma ShapeOfData(b: Block, parameter: Option<string>)
    requires ValidBlock(b) && HasData(b, parameter)
    ensures ValidArray(SheetOf(b, parameter).values) && |SheetOf(b, parameter).values.shape| == |ComponentsOf(b, parameter)| + 2
    ensures forall k :: 0 <= k < |ComponentsOf(b, parameter)| ==>
      SheetOf(b, parameter).values.shape[k + 1] == Counts(ComponentsOf(b, parameter))[k]
  {
    var owner := if parameter.Some? then b.gradients[parameter.value] else b;
    PartsOfValidBlock(owner);
  }

  lemma MapAfter(t: TensorMap, m: Move)
    requires CanMoveToProperties(t, m)
    ensures ValidTensor(ToProperties(t, m)) && ToProperties(t, m).keys == RemainingKeys(t.keys, m.dimensions)
    ensures ToProperties(t, m).keys.rows != []
  {
    RemainingKeysAreValid(t.keys, m.dimensions);
    MovedIsValid(Properties, t, m.dimensions, m.newKeys, m.sort);
  }

  lemma CellOfBlock(t: TensorMap, parameter: Option<string>, key: Row, about: RowLabel, c: Index, property: Row)
    requires ValidTensor(t) && TensorCell(t, parameter, key, about, c, property).GetOr(ZERO) != ZERO
    ensures InRange(Counts(ComponentsOf(BlockAt(t, key), parameter)), c)
  {
    hide SheetCell, ValidBlock, ComponentsOf, SheetOf;
    if key in t.keys.rows {
      var i := Position(t.keys.rows, key).value;
      NonzeroIsInRange(t.blocks[i], parameter, about, c, property);
    } else {
      NothingThere(parameter, about, c, property);
    }
  }

  lemma NothingThere(parameter: Option<string>, about: RowLabel, c: Index, property: Row)
    ensures SheetCell(SheetOf(NO_BLOCK, parameter), about, c, property) == None
  {}

  /** A value that is not zero moves on, if its key is requested. */
  lemma ValueMoves(t: TensorMap, m: Move, parameter: Option<string>, i: nat, about: RowLabel, c: Index, property: Row, key: Row)
    requires CanMoveToProperties(t, m) && HasData(t.blocks[0], parameter) && i < |t.keys.rows| && key == t.keys.rows[i]
    requires IsRequested(m, MovedPart(t.keys, m.dimensions, key))
    requires TensorCell(t, parameter, key, about, c, property).GetOr(ZERO) != ZERO
    ensures TensorCell(ToProperties(t, m), parameter, RemainingPart(t.keys, m.dimensions, key), about, c, MovedPart(t.keys, m.dimensions, key) + property)
         == TensorCell(t, parameter, key, about, c, property)
  {
    KeysAreDistinct(t);
    hide MovedPart, RemainingPart, Moved, TensorCell, ValidTensor, ComponentsOf, BlockAt, HasData;
    CellOfBlock(t, parameter, key, about, c, property);
    BlockAtKey(t, i, key);
    CellIsMoved(Properties, t, m.dimensions, m.newKeys, m.sort, parameter, i, about, c, property, key, MovedPart(t.keys, m.dimensions, key));
  }

  /** A value that is not zero after a move comes from a key with these parts. */
  lemma ValueHasSource(t: TensorMap, m: Move, parameter: Option<string>, newKey: Row, about: RowLabel, c: Index, a: Row, property: Row)
    returns (i: nat)
    requires CanMoveToProperties(t, m) && HasData(t.blocks[0], parameter) && |a| == |m.dimensions|
    requires TensorCell(ToProperties(t, m), parameter, newKey, about, c, a + property).GetOr(ZERO) != ZERO
    ensures i < |t.keys.rows| == |t.blocks| && RemainingPart(t.keys, m.dimensions, t.keys.rows[i]) == newKey
    ensures MovedPart(t.keys, m.dimensions, t.keys.rows[i]) == a
    ensures TensorCell(t, parameter, t.keys.rows[i], about, c, property)
         == TensorCell(ToProperties(t, m), parameter, newKey, about, c, a + property)
  {
    KeysAreDistinct(t);
    MapAfter(t, m);
    hide MovedPart, RemainingPart, Moved, TensorCell, ValidTensor, ComponentsOf, BlockAt, HasData;
    CellOfBlock(ToProperties(t, m), parameter, newKey, about, c, a + property);
    i := NonzeroCellHasSource(Properties, t, m.dimensions, m.newKeys, m.sort, parameter, newKey, about, c, a + property);
    LocateMoved(Properties, a, about, property);
  }

  lemma PartsOfBoth(t: TensorMap, first: Move, second: Move, both: Move, key: Row)
    requires BothWays(t, first, second, both) && |key| == |t.keys.names|
    ensures var middle := ToProperties(t, first);
      && RemainingPart(middle.keys, second.dimensions, RemainingPart(t.keys, first.dimensions, key)) == RemainingPart(t.keys, both.dimensions, key)
      && MovedPart(t.keys, both.dimensions, key)
         == MovedPart(t.keys, first.dimensions, key) + MovedPart(middle.keys, second.dimensions, RemainingPart(t.keys, first.dimensions, key))
      && |MovedPart(t.keys, first.dimensions, key)| == |first.dimensions|
  {
    assert Splits(t.keys, first.dimensions, second.dimensions);
    hide Splits, RemainingPart, Moved, CanMoveToProperties, RemainingKeys;
    MapAfter(t, first);
    PartsSplit(t.keys, first.dimensions, second.dimensions, key);
  }

  lemma KeySizes(t: TensorMap)
    requires ValidTensor(t)
    ensures forall i :: 0 <= i < |t.keys.rows| ==> |t.keys.rows[i]| == |t.keys.names|
  {}

  lemma PrefixesAgree(a: Row, b: Row, x: Row, y: Row)
    requires a + b == x + y && |a| == |x|
    ensures a == x && b == y
  {
    assert (a + b)[..|a|] == a && (a + b)[|a|..] == b;
    assert (x + y)[..|x|] == x && (x + y)[|x|..] == y;
  }

  /** From one step to two. */
  lemma ValueInTwoSteps(t: TensorMap, first: Move, second: Move, both: Move, parameter: Option<string>, newKey: Row,
                        about: RowLabel, c: Index, a: Row, b: Row, property: Row)
    requires BothWays(t, first, second, both) && HasData(t.blocks[0], parameter)
    requires |a| == |first.dimensions| && |b| == |second.dimensions| && IsRequested(first, a) && IsRequested(second, b)
    requires TensorCell(ToProperties(t, both), parameter, newKey, about, c, a + b + property).GetOr(ZERO) != ZERO
    ensures TensorCell(ToProperties(ToProperties(t, first), second), parameter, newKey, about, c, b + (a + property))
         == TensorCell(ToProperties(t, both), parameter, newKey, about, c, a + b + property)
  {
    KeySizes(t);
    hide MovedPart, RemainingPart, ToProperties, TensorCell, ValidTensor, CanMoveToProperties, HasData;
    var i := ValueHasSource(t, both, parameter, newKey, about, c, a + b, property);
    var key := t.keys.rows[i];
    PartsOfBoth(t, first, second, both, key);
    var middle, middleKey := ToProperties(t, first), RemainingPart(t.keys, first.dimensions, key);
    PrefixesAgree(MovedPart(t.keys, first.dimensions, key), MovedPart(middle.keys, second.dimensions, middleKey), a, b);
    ValueMoves(t, first, parameter, i, about, c, property, key);
    var h := MiddleIndex(t, first, i, key);
    MiddleHasData(t, first, parameter);
    ValueMoves(middle, second, parameter, h, about, c, a + property, middleKey);
  }

  lemma MiddleIndex(t: TensorMap, m: Move, i: nat, key: Row) returns (h: nat)
    requires ValidTensor(t) && i < |t.keys.rows| && key == t.keys.rows[i]
    ensures h < |ToProperties(t, m).keys.rows| && ToProperties(t, m).keys.rows[h] == RemainingPart(t.keys, m.dimensions, key)
  {
    hide RemainingPart, Moved, BlockAt;
    h := IndexAfter(Properties, t, m.dimensions, m.newKeys, m.sort, i, key);
  }

  lemma MiddleHasData(t: TensorMap, m: Move, parameter: Option<string>)
    requires CanMoveToProperties(t, m) && HasData(t.blocks[0], parameter)
    ensures ToProperties(t, m).blocks != [] && HasData(ToProperties(t, m).blocks[0], parameter)
  {
    hide Moved;
    DataAfter(Properties, t, m.dimensions, m.newKeys, m.sort, parameter);
  }

  /** From two steps to one. */
  lemma ValueInOneStep(t: TensorMap, first: Move, second: Move, both: Move, parameter: Option<string>, newKey: Row,
                       about: RowLabel, c: Index, a: Row, b: Row, property: Row)
    requires BothWays(t, first, second, both) && HasData(t.blocks[0], parameter)
    requires |a| == |first.dimensions| && |b| == |second.dimensions| && IsRequested(both, a + b)
    requires TensorCell(ToProperties(ToProperties(t, first), second), parameter, newKey, about, c, b + (a + property)).GetOr(ZERO) != ZERO
    ensures TensorCell(ToProperties(t, both), parameter, newKey, about, c, a + b + property)
         == TensorCell(ToProperties(ToProperties(t, first), second), parameter, newKey, about, c, b + (a + property))
  {
    KeySizes(t);
    hide MovedPart, RemainingPart, ToProperties, TensorCell, ValidTensor, CanMoveToProperties, HasData;
    MiddleHasData(t, first, parameter);
    var middle := ToProperties(t, first);
    var h := ValueHasSource(middle, second, parameter, newKey, about, c, b, a + property);
    var middleKey := middle.keys.rows[h];
    var i := ValueHasSource(t, first, parameter, middleKey, about, c, a, property);
    var key := t.keys.rows[i];
    PartsOfBoth(t, first, second, both, key);
    ValueMoves(t, both, parameter, i, about, c, property, key);
  }

  /** One step equals two, for the properties: every value stands under both moved
      parts, in the order in which the moves put them in front, wherever all
      moves were asked for these parts. */
  lemma ValuesAgree(t: TensorMap, first: Move, second: Move, both: Move, parameter: Option<string>, newKey: Row,
                    about: RowLabel, c: Index, a: Row, b: Row, property: Row)
    requires BothWays(t, first, second, both) && HasData(t.blocks[0], parameter)
    requires |a| == |first.dimensions| && |b| == |second.dimensions|
    requires IsRequested(first, a) && IsRequested(second, b) && IsRequested(both, a + b)
    ensures TensorCell(ToProperties(t, both), parameter, newKey, about, c, a + b + property).GetOr(ZERO)
         == TensorCell(ToProperties(ToProperties(t, first), second), parameter, newKey, about, c, b + (a + property)).GetOr(ZERO)
  {
    hide ToProperties, TensorCell, HasData;
    if TensorCell(ToProperties(t, both), parameter, newKey, about, c, a + b + property).GetOr(ZERO) != ZERO {
      ValueInTwoSteps(t, first, second, both, parameter, newKey, about, c, a, b, property);
    } else if TensorCell(ToProperties(ToProperties(t, first), second), parameter, newKey, about, c, b + (a + property)).GetOr(ZERO) != ZERO {
      ValueInOneStep(t, first, second, both, parameter, newKey, about, c, a, b, property);
    }
  }

  /** The keys are the same both ways. */
  lemma KeysAgree(t: TensorMap, first: Move, second: Move, both: Move)
    requires BothWays(t, first, second, both)
    ensures ToProperties(ToProperties(t, first), second).keys == ToProperties(t, both).keys
  {
    assert Splits(t.keys, first.dimensions, second.dimensions);
    hide ToProperties, RemainingKeys, CanMoveToProperties, Splits;
    MapAfter(t, both);
    MapAfter(t, first);
    MapAfter(ToProperties(t, first), second);
    RemainingKeysSplit(t.keys, first.dimensions, second.dimensions);
  }

  /** Some block has data about this row, at this key. */
  predicate HasRow(t: TensorMap, parameter: Option<string>, key: Row, about: RowLabel) {
    about in SheetOf(BlockAt(t, key), parameter).labels
  }

  lemma RowStays(t: TensorMap, m: Move, parameter: Option<string>, i: nat, about: RowLabel, key: Row)
    requires CanMoveToProperties(t, m) && HasData(t.blocks[0], parameter)
    requires i < |t.keys.rows| && key == t.keys.rows[i] && HasRow(t, parameter, key, about)
    ensures HasRow(ToProperties(t, m), parameter, RemainingPart(t.keys, m.dimensions, key), about)
  {
    KeysAreDistinct(t);
    hide RemainingPart, MovedPart, Moved, ValidTensor, BlockAt, SheetOf, HasData;
    BlockAtKey(t, i, key);
    RowIsMoved(Properties, t, m.dimensions, m.newKeys, m.sort, parameter, i, about, key);
  }

  lemma RowWasThere(t: TensorMap, m: Move, parameter: Option<string>, newKey: Row, about: RowLabel) returns (i: nat)
    requires CanMoveToProperties(t, m) && HasData(t.blocks[0], parameter)
    requires HasRow(ToProperties(t, m), parameter, newKey, about)
    ensures i < |t.keys.rows| && RemainingPart(t.keys, m.dimensions, t.keys.rows[i]) == newKey
    ensures HasRow(t, parameter, t.keys.rows[i], about)
  {
    KeysAreDistinct(t);
    hide RemainingPart, MovedPart, Moved, ValidTensor, BlockAt, SheetOf, HasData;
    var source: RowLabel;
    i, source := RowHasSource(Properties, t, m.dimensions, m.newKeys, m.sort, parameter, newKey, about);
    BlockAtKey(t, i, t.keys.rows[i]);
  }

  lemma RowsGoBothWays(t: TensorMap, first: Move, second: Move, both: Move, parameter: Option<string>, i: nat, about: RowLabel, key: Row)
    requires BothWays(t, first, second, both) && HasData(t.blocks[0], parameter)
    requires i < |t.keys.rows| && key == t.keys.rows[i] && HasRow(t, parameter, key, about)
    ensures HasRow(ToProperties(t, both), parameter, RemainingPart(t.keys, both.dimensions, key), about)
    ensures HasRow(ToProperties(ToProperties(t, first), second), parameter, RemainingPart(t.keys, both.dimensions, key), about)
  {
    KeySizes(t);
    hide MovedPart, RemainingPart, ToProperties, HasRow, ValidTensor, CanMoveToProperties, HasData;
    PartsOfBoth(t, first, second, both, key);
    RowStays(t, both, parameter, i, about, key);
    RowStays(t, first, parameter, i, about, key);
    var h := MiddleIndex(t, first, i, key);
    MiddleHasData(t, first, parameter);
    RowStays(ToProperties(t, first), second, parameter, h, about, RemainingPart(t.keys, first.dimensions, key));
  }

  lemma RowFromTwoSteps(t: TensorMap, first: Move, second: Move, both: Move, parameter: Option<string>, newKey: Row, about: RowLabel)
    returns (i: nat)
    requires BothWays(t, first, second, both) && HasData(t.blocks[0], parameter)
    requires HasRow(ToProperties(ToProperties(t, first), second), parameter, newKey, about)
    ensures i < |t.keys.rows| && RemainingPart(t.keys, both.dimensions, t.keys.rows[i]) == newKey
    ensures HasRow(t, parameter, t.keys.rows[i], about)
  {
    KeySizes(t);
    hide MovedPart, RemainingPart, ToProperties, HasRow, ValidTensor, CanMoveToProperties, HasData;
    MiddleHasData(t, first, parameter);
    var middle := ToProperties(t, first);
    var h := RowWasThere(middle, second, parameter, newKey, about);
    i := RowWasThere(t, first, parameter, middle.keys.rows[h], about);
    PartsOfBoth(t, first, second, both, t.keys.rows[i]);
  }

  /** The rows at every key are about the same both ways. */
  lemma RowsAgree(t: TensorMap, first: Move, second: Move, both: Move, parameter: Option<string>, newKey: Row, about: RowLabel)
    requires BothWays(t, first, second, both) && HasData(t.blocks[0], parameter)
    ensures HasRow(ToProperties(t, both), parameter, newKey, about)
       <==> HasRow(ToProperties(ToProperties(t, first), second), parameter, newKey, about)
  {
    hide MovedPart, RemainingPart, ToProperties, HasRow, HasData;
    if HasRow(ToProperties(t, both), parameter, newKey, about) {
      var i := RowWasThere(t, both, parameter, newKey, about);
      RowsGoBothWays(t, first, second, both, parameter, i, about, t.keys.rows[i]);
    }
    if HasRow(ToProperties(ToProperties(t, first), second), parameter, newKey, about) {
      var i := RowFromTwoSteps(t, first, second, both, parameter, newKey, about);
      RowsGoBothWays(t, first, second, both, parameter, i, about, t.keys.rows[i]);
    }
  }
}
