/** With sorted samples, moving two sets of dimensions to the samples one after
    the other gives the same tensor map as moving them together. */
module TwoSteps {
  import opened Wrappers
  import opened Sequences
  import opened Lexicographic
  import opened RowMajor
  import opened Arrays
  import opened LabelSets
  import opened Blocks
  import opened Tensors
  import opened Keys
  import opened Sheets
  import opened Merging
  import opened MergedBlocks
  import opened Groups
  import opened KeyMoves
  import opened MergeMeaning
  import opened TensorMeaning
  import opened KeySplits
  import opened FirstBlocks
  import opened SortedBlocks

  ghost predicate CanMoveToSamples(t: TensorMap, dimensions: seq<string>) {
    CanMoveKeys(Samples, t, dimensions, None, true)
  }

  function ToSamples(t: TensorMap, dimensions: seq<string>): TensorMap
    requires ValidTensor(t) && t.keys.rows != []
  {
    Moved(Samples, t, dimensions, None, true)
  }

  /** What merging keeps of the structure of each gradient. */
  ghost predicate GradientStructureKept(b: Block, r: Block) {
    r.samples.names == b.samples.names && Counts(r.components) == Counts(b.components) && b.gradients == r.gradients == map[]
  }

  /** What merging keeps of the structure of each source block. */
  ghost predicate StructureKept(b: Block, r: Block, names: seq<string>) {
    && r.samples.names == b.samples.names + names && r.components == b.components && r.properties == b.properties
    && r.gradients.Keys == b.gradients.Keys
    && forall p :: p in b.gradients ==> GradientStructureKept(b.gradients[p], r.gradients[p])
  }

  lemma MergedKeepsStructure(names: seq<string>, kbs: seq<KeyAndBlock>, k: nat)
    requires CanMerge(Samples, names, None, kbs, true, None) && k < |kbs|
    ensures StructureKept(kbs[k].block, Merged(Samples, names, None, kbs, true), names)
    ensures RowsAreSorted(Merged(Samples, names, None, kbs, true))
  {
    MergedKeepsLabels(names, kbs, k);
    MergedRowsAreSorted(names, kbs);
    hide CanMerge, GradientStructureKept, RowsAreSorted, Merged;
    var b, r := kbs[k].block, Merged(Samples, names, None, kbs, true);
    forall p | p in b.gradients ensures GradientStructureKept(b.gradients[p], r.gradients[p]) {
      MergedKeepsGradientStructure(names, kbs, k, p);
    }
  }

  lemma MergedKeepsLabels(names: seq<string>, kbs: seq<KeyAndBlock>, k: nat)
    requires CanMerge(Samples, names, None, kbs, true, None) && k < |kbs|
    ensures var b, r := kbs[k].block, Merged(Samples, names, None, kbs, true);
      && r.samples.names == b.samples.names + names && r.components == b.components && r.properties == b.properties
      && r.gradients.Keys == b.gradients.Keys == kbs[0].block.gradients.Keys
  {
    hide Gather, MergedSampleRows, MergedGradient, ValidBlock;
    SameStructureOfGradients(kbs[0].block, kbs[k].block, "");
  }

  lemma MergedKeepsGradientStructure(names: seq<string>, kbs: seq<KeyAndBlock>, k: nat, p: string)
    requires CanMerge(Samples, names, None, kbs, true, None) && k < |kbs| && p in kbs[0].block.gradients
    ensures p in kbs[k].block.gradients
    ensures GradientStructureKept(kbs[k].block.gradients[p], Merged(Samples, names, None, kbs, true).gradients[p])
  {
    hide Gather, MergedSampleRows, MergedGradientRows, ValidBlock, RowNumbersFit;
    GradientIsPresent(kbs, |names|, k, p);
    NoNestedGradients(names, kbs, k, p);
  }

  lemma NoNestedGradients(names: seq<string>, kbs: seq<KeyAndBlock>, k: nat, p: string)
    requires CanMerge(Samples, names, None, kbs, true, None) && k < |kbs| && p in kbs[0].block.gradients
    ensures p in kbs[k].block.gradients && kbs[k].block.gradients[p].gradients == map[]
  {
    hide ValidBlock;
    SameStructureOfGradients(kbs[0].block, kbs[k].block, p);
    SameStructureOfGradients(kbs[0].block.gradients[p], kbs[k].block.gradients[p], "");
  }

  lemma MergedRowsAreSorted(names: seq<string>, kbs: seq<KeyAndBlock>)
    requires kbs != []
    ensures RowsAreSorted(Merged(Samples, names, None, kbs, true))
  {
    hide Gather;
    var r := Merged(Samples, names, None, kbs, true);
    FirstOccurrencesIsSet(AllSampleRows(Samples, kbs));
    SortOfDistinct(FirstOccurrences(AllSampleRows(Samples, kbs)));
    forall p | p in r.gradients ensures StrictlySorted(r.gradients[p].samples.rows) {
      OrderedSetIsSorted(AllGradientRows(Samples, r.samples.rows, kbs, p));
    }
  }

  /** The block with the remaining key keeps the structure of every block of
      its group, is valid, and has sorted rows. */
  lemma StructureIsKept(t: TensorMap, dimensions: seq<string>, i: nat, key: Row)
    requires CanMoveToSamples(t, dimensions) && i < |t.keys.rows| == |t.blocks| && key == t.keys.rows[i]
    ensures var r := BlockAt(ToSamples(t, dimensions), RemainingPart(t.keys, dimensions, key));
      StructureKept(t.blocks[i], r, dimensions) && RowsAreSorted(r)
  {
    RemainingKeysAreValid(t.keys, dimensions);
    MovedCount(Samples, t, dimensions, None, true);
    var g := GroupOf(t.keys, dimensions, i);
    MovedBlock(Samples, t, dimensions, None, true, g);
    assert HasData(t.blocks[0], None);
    hide CanMoveKeys, GroupIndices, RemainingKeys, Moved, MovedPart, RemainingPart, BlockAt, RowsAreSorted, StructureKept, Mergeable, GroupFails, MergeFails, Merged;
    GroupCanMerge(Samples, t, dimensions, None, true, None, g);
    RemainingPartIsGroup(t.keys, dimensions, i, g);
    BlockAtKey(ToSamples(t, dimensions), g, RemainingPart(t.keys, dimensions, key));
    var k := BlockInGroup(t, dimensions, i, g);
    MergedKeepsStructure(dimensions, Group(t, dimensions, g), k);
  }

  /** Both moves can be made one after the other, and at once. */
  ghost predicate BothWays(t: TensorMap, first: seq<string>, second: seq<string>) {
    && CanMoveToSamples(t, first + second)
    && CanMoveToSamples(t, first) && CanMoveToSamples(ToSamples(t, first), second)
  }

  lemma MoveTwiceLabel(first: Row, second: Row, about: RowLabel)
    ensures MovedLabel(Samples, second, MovedLabel(Samples, first, about)) == MovedLabel(Samples, first + second, about)
  {
    assert about.sample + first + second == about.sample + (first + second);
  }

  lemma DataIsKept(t: TensorMap, dimensions: seq<string>, parameter: Option<string>)
    requires CanMoveToSamples(t, dimensions) && HasData(t.blocks[0], parameter)
    ensures ToSamples(t, dimensions).blocks != [] && HasData(ToSamples(t, dimensions).blocks[0], parameter)
  {
    hide CanMoveKeys, Moved;
    DataAfter(Samples, t, dimensions, None, true, parameter);
  }

  /** Where the key of a block is after the first move. */
  lemma MiddleKey(t: TensorMap, dimensions: seq<string>, i: nat, key: Row) returns (h: nat)
    requires ValidTensor(t) && i < |t.keys.rows| && key == t.keys.rows[i]
    ensures h < |ToSamples(t, dimensions).keys.rows| == |ToSamples(t, dimensions).blocks|
    ensures ToSamples(t, dimensions).keys == RemainingKeys(t.keys, dimensions)
    ensures ToSamples(t, dimensions).keys.rows[h] == RemainingPart(t.keys, dimensions, key)
    ensures BlockAt(ToSamples(t, dimensions), RemainingPart(t.keys, dimensions, key)) == ToSamples(t, dimensions).blocks[h]
  {
    hide RemainingKeys, RemainingPart, Moved, BlockAt;
    h := IndexAfter(Samples, t, dimensions, None, true, i, key);
  }

  lemma SampleRowHasSource(t: TensorMap, dimensions: seq<string>, parameter: Option<string>, newKey: Row, about: RowLabel) returns (i: nat, source: RowLabel)
    requires CanMoveToSamples(t, dimensions) && HasData(t.blocks[0], parameter)
    requires about in SheetOf(BlockAt(ToSamples(t, dimensions), newKey), parameter).labels
    ensures i < |t.keys.rows| == |t.blocks| && RemainingPart(t.keys, dimensions, t.keys.rows[i]) == newKey
    ensures source in SheetOf(t.blocks[i], parameter).labels
    ensures about == MovedLabel(Samples, MovedPart(t.keys, dimensions, t.keys.rows[i]), source)
  {
    hide CanMoveKeys, RemainingPart, MovedPart, MovedLabel, Moved, BlockAt, SheetOf;
    i, source := TensorMeaning.RowHasSource(Samples, t, dimensions, None, true, parameter, newKey, about);
  }

  /** A row of a source block after both moves. */
  lemma RowMovesTwice(t: TensorMap, first: seq<string>, second: seq<string>, parameter: Option<string>, i: nat, about: RowLabel, key: Row)
    requires BothWays(t, first, second) && HasData(t.blocks[0], parameter)
    requires i < |t.keys.rows| == |t.blocks| && key == t.keys.rows[i] && about in SheetOf(t.blocks[i], parameter).labels
    ensures MovedLabel(Samples, MovedPart(t.keys, first + second, key), about)
         in SheetOf(BlockAt(ToSamples(ToSamples(t, first), second), RemainingPart(t.keys, first + second, key)), parameter).labels
  {
    assert |key| == |t.keys.names|;
    assert Splits(t.keys, first, second);
    hide CanMoveKeys, RemainingKeys, RemainingPart, MovedPart, MovedLabel, Moved, BlockAt, SheetOf, Splits;
    PartsSplit(t.keys, first, second, key);
    var middle, newKey, m1 := ToSamples(t, first), RemainingPart(t.keys, first, key), MovedPart(t.keys, first, key);
    var h := MiddleKey(t, first, i, key);
    DataIsKept(t, first, parameter);
    RowIsMoved(Samples, t, first, None, true, parameter, i, about, key);
    RowIsMoved(Samples, middle, second, None, true, parameter, h, MovedLabel(Samples, m1, about), newKey);
    MoveTwiceLabel(m1, MovedPart(middle.keys, second, newKey), about);
  }

  lemma RowsAgree(t: TensorMap, first: seq<string>, second: seq<string>, parameter: Option<string>, newKey: Row, about: RowLabel)
    requires BothWays(t, first, second) && HasData(t.blocks[0], parameter)
    requires about in SheetOf(BlockAt(ToSamples(t, first + second), newKey), parameter).labels
    ensures about in SheetOf(BlockAt(ToSamples(ToSamples(t, first), second), newKey), parameter).labels
  {
    hide CanMoveKeys, RemainingKeys, RemainingPart, MovedPart, MovedLabel, Moved, BlockAt, SheetOf;
    var i, source := SampleRowHasSource(t, first + second, parameter, newKey, about);
    RowMovesTwice(t, first, second, parameter, i, source, t.keys.rows[i]);
  }

  lemma RowsAgreeBack(t: TensorMap, first: seq<string>, second: seq<string>, parameter: Option<string>, newKey: Row, about: RowLabel)
    requires BothWays(t, first, second) && HasData(t.blocks[0], parameter)
    requires about in SheetOf(BlockAt(ToSamples(ToSamples(t, first), second), newKey), parameter).labels
    ensures about in SheetOf(BlockAt(ToSamples(t, first + second), newKey), parameter).labels
  {
    assert Splits(t.keys, first, second);
    KeySizes(t);
    hide CanMoveKeys, RemainingKeys, RemainingPart, MovedPart, MovedLabel, Moved, BlockAt, SheetOf, Splits;
    DataIsKept(t, first, parameter);
    var middle := ToSamples(t, first);
    var h, between := SampleRowHasSource(middle, second, parameter, newKey, about);
    var middleKey := middle.keys.rows[h];
    MiddleBlock(t, first, h, middleKey);
    var i, source := SampleRowHasSource(t, first, parameter, middleKey, between);
    var key := t.keys.rows[i];
    PartsSplit(t.keys, first, second, key);
    MovedCount(Samples, t, first, None, true);
    RowIsMoved(Samples, t, first + second, None, true, parameter, i, source, key);
    MoveTwiceLabel(MovedPart(t.keys, first, key), MovedPart(middle.keys, second, middleKey), source);
  }

  lemma KeySizes(t: TensorMap)
    requires ValidTensor(t)
    ensures forall i :: 0 <= i < |t.keys.rows| ==> |t.keys.rows[i]| == |t.keys.names|
    ensures |t.keys.rows| == |t.blocks|
  {}

  lemma MiddleBlock(t: TensorMap, dimensions: seq<string>, h: nat, key: Row)
    requires ValidTensor(t) && t.keys.rows != []
    requires h < |ToSamples(t, dimensions).keys.rows| && key == ToSamples(t, dimensions).keys.rows[h]
    ensures |ToSamples(t, dimensions).keys.rows| == |ToSamples(t, dimensions).blocks|
    ensures BlockAt(ToSamples(t, dimensions), key) == ToSamples(t, dimensions).blocks[h]
  {
    RemainingKeysAreValid(t.keys, dimensions);
    MovedCount(Samples, t, dimensions, None, true);
    hide Moved, BlockAt, RemainingKeys, CanMoveKeys;
    BlockAtKey(ToSamples(t, dimensions), h, key);
  }

  lemma SameComponents(b: Block, r: Block, names: seq<string>, parameter: Option<string>)
    requires StructureKept(b, r, names) && HasData(b, parameter)
    ensures HasData(r, parameter) && Counts(ComponentsOf(r, parameter)) == Counts(ComponentsOf(b, parameter))
  {
    if parameter.Some? {
      assert GradientStructureKept(b.gradients[parameter.value], r.gradients[parameter.value]);
    }
  }

  lemma SourceHas(t: TensorMap, parameter: Option<string>, i: nat)
    requires ValidTensor(t) && i < |t.blocks| && HasData(t.blocks[0], parameter)
    ensures HasData(t.blocks[i], parameter)
  {
    if parameter.Some? {
      SameStructureOfGradients(t.blocks[0], t.blocks[i], parameter.value);
    }
  }

  /** Component indices in range stay in range. */
  lemma RangeIsKept(t: TensorMap, dimensions: seq<string>, parameter: Option<string>, i: nat, key: Row)
    requires CanMoveToSamples(t, dimensions) && i < |t.keys.rows| == |t.blocks| && key == t.keys.rows[i] && HasData(t.blocks[0], parameter)
    ensures Counts(ComponentsOf(BlockAt(ToSamples(t, dimensions), RemainingPart(t.keys, dimensions, key)), parameter))
         == Counts(ComponentsOf(t.blocks[i], parameter))
  {
    SourceHas(t, parameter, i);
    hide CanMoveKeys, RemainingPart, Moved, BlockAt, ComponentsOf, StructureKept, ValidTensor;
    StructureIsKept(t, dimensions, i, key);
    SameComponents(t.blocks[i], BlockAt(ToSamples(t, dimensions), RemainingPart(t.keys, dimensions, key)), dimensions, parameter);
  }

  /** A cell of a source block after one move. */
  lemma CellMoves(t: TensorMap, dimensions: seq<string>, parameter: Option<string>, i: nat, about: RowLabel, c: Index, property: Row, key: Row)
    requires CanMoveToSamples(t, dimensions) && HasData(t.blocks[0], parameter)
    requires i < |t.keys.rows| == |t.blocks| && key == t.keys.rows[i] && InRange(Counts(ComponentsOf(t.blocks[i], parameter)), c)
    requires SheetCell(SheetOf(t.blocks[i], parameter), about, c, property).Some?
    ensures SheetCell(SheetOf(BlockAt(ToSamples(t, dimensions), RemainingPart(t.keys, dimensions, key)), parameter),
                      MovedLabel(Samples, MovedPart(t.keys, dimensions, key), about), c, property)
         == SheetCell(SheetOf(t.blocks[i], parameter), about, c, property)
  {
    KeysAreDistinct(t);
    hide CanMoveKeys, RemainingPart, MovedPart, MovedLabel, Moved, BlockAt, SheetOf, SheetCell, ComponentsOf, ValidTensor, RemainingKeys, InRange, Counts, HasData;
    BlockAtKey(t, i, key);
    var moved := MovedPart(t.keys, dimensions, key);
    assert MovedProperty(Samples, moved, property) == property;
    assert TensorCell(t, parameter, key, about, c, property).Some?;
    hide MovedProperty;
    CellIsMoved(Samples, t, dimensions, None, true, parameter, i, about, c, property, key, moved);
  }

  lemma CellMovesTwice(t: TensorMap, first: seq<string>, second: seq<string>, parameter: Option<string>, i: nat,
                       about: RowLabel, c: Index, property: Row, key: Row)
    requires BothWays(t, first, second) && HasData(t.blocks[0], parameter)
    requires i < |t.keys.rows| == |t.blocks| && key == t.keys.rows[i] && InRange(Counts(ComponentsOf(t.blocks[i], parameter)), c)
    requires SheetCell(SheetOf(t.blocks[i], parameter), about, c, property).Some?
    ensures SheetCell(SheetOf(BlockAt(ToSamples(ToSamples(t, first), second), RemainingPart(t.keys, first + second, key)), parameter),
                      MovedLabel(Samples, MovedPart(t.keys, first + second, key), about), c, property)
         == SheetCell(SheetOf(t.blocks[i], parameter), about, c, property)
  {
    assert |key| == |t.keys.names|;
    assert Splits(t.keys, first, second);
    hide CanMoveKeys, RemainingKeys, RemainingPart, MovedPart, MovedLabel, Moved, BlockAt, SheetOf, Splits, SheetCell, ComponentsOf;
    PartsSplit(t.keys, first, second, key);
    var middle, newKey, m1 := ToSamples(t, first), RemainingPart(t.keys, first, key), MovedPart(t.keys, first, key);
    var h := MiddleKey(t, first, i, key);
    DataIsKept(t, first, parameter);
    RangeIsKept(t, first, parameter, i, key);
    CellMoves(t, first, parameter, i, about, c, property, key);
    CellMoves(middle, second, parameter, h, MovedLabel(Samples, m1, about), c, property, newKey);
    MoveTwiceLabel(m1, MovedPart(middle.keys, second, newKey), about);
  }

  /** The source of a cell that is not zero. */
  lemma CellHasSource(t: TensorMap, dimensions: seq<string>, parameter: Option<string>, newKey: Row, about: RowLabel, c: Index, property: Row)
    returns (i: nat, source: RowLabel)
    requires CanMoveToSamples(t, dimensions) && HasData(t.blocks[0], parameter)
    requires InRange(Counts(ComponentsOf(BlockAt(ToSamples(t, dimensions), newKey), parameter)), c)
    requires SheetCell(SheetOf(BlockAt(ToSamples(t, dimensions), newKey), parameter), about, c, property).GetOr(ZERO) != ZERO
    ensures i < |t.keys.rows| == |t.blocks| && RemainingPart(t.keys, dimensions, t.keys.rows[i]) == newKey
    ensures about == MovedLabel(Samples, MovedPart(t.keys, dimensions, t.keys.rows[i]), source)
    ensures InRange(Counts(ComponentsOf(t.blocks[i], parameter)), c)
    ensures SheetCell(SheetOf(t.blocks[i], parameter), source, c, property)
         == SheetCell(SheetOf(BlockAt(ToSamples(t, dimensions), newKey), parameter), about, c, property)
  {
    KeysAreDistinct(t);
    hide CanMoveKeys, RemainingPart, MovedPart, MovedLabel, Moved, BlockAt, SheetOf, SheetCell, ComponentsOf, ValidTensor;
    i := NonzeroCellHasSource(Samples, t, dimensions, None, true, parameter, newKey, about, c, property);
    source := Locate(Samples, |dimensions|, about, property).about;
    BlockAtKey(t, i, t.keys.rows[i]);
    RangeIsKept(t, dimensions, parameter, i, t.keys.rows[i]);
  }

  lemma CellsAgree(t: TensorMap, first: seq<string>, second: seq<string>, parameter: Option<string>, newKey: Row,
                   about: RowLabel, c: Index, property: Row)
    requires BothWays(t, first, second) && HasData(t.blocks[0], parameter)
    requires InRange(Counts(ComponentsOf(BlockAt(ToSamples(t, first + second), newKey), parameter)), c)
    requires SheetCell(SheetOf(BlockAt(ToSamples(t, first + second), newKey), parameter), about, c, property).GetOr(ZERO) != ZERO
    ensures SheetCell(SheetOf(BlockAt(ToSamples(ToSamples(t, first), second), newKey), parameter), about, c, property)
         == SheetCell(SheetOf(BlockAt(ToSamples(t, first + second), newKey), parameter), about, c, property)
  {
    hide CanMoveKeys, RemainingKeys, RemainingPart, MovedPart, MovedLabel, Moved, BlockAt, SheetOf, SheetCell, ComponentsOf;
    var i, source := CellHasSource(t, first + second, parameter, newKey, about, c, property);
    CellMovesTwice(t, first, second, parameter, i, source, c, property, t.keys.rows[i]);
  }

  lemma CellsAgreeBack(t: TensorMap, first: seq<string>, second: seq<string>, parameter: Option<string>, newKey: Row,
                       about: RowLabel, c: Index, property: Row)
    requires BothWays(t, first, second) && HasData(t.blocks[0], parameter)
    requires InRange(Counts(ComponentsOf(BlockAt(ToSamples(ToSamples(t, first), second), newKey), parameter)), c)
    requires SheetCell(SheetOf(BlockAt(ToSamples(ToSamples(t, first), second), newKey), parameter), about, c, property).GetOr(ZERO) != ZERO
    ensures SheetCell(SheetOf(BlockAt(ToSamples(ToSamples(t, first), second), newKey), parameter), about, c, property)
         == SheetCell(SheetOf(BlockAt(ToSamples(t, first + second), newKey), parameter), about, c, property)
  {
    assert Splits(t.keys, first, second);
    KeySizes(t);
    hide CanMoveKeys, RemainingKeys, RemainingPart, MovedPart, MovedLabel, Moved, BlockAt, SheetOf, Splits, SheetCell, ComponentsOf;
    DataIsKept(t, first, parameter);
    MovedCount(Samples, t, first, None, true);
    var middle := ToSamples(t, first);
    var h, between := CellHasSource(middle, second, parameter, newKey, about, c, property);
    var middleKey := middle.keys.rows[h];
    MiddleBlock(t, first, h, middleKey);
    var i, source := CellHasSource(t, first, parameter, middleKey, between, c, property);
    var key := t.keys.rows[i];
    PartsSplit(t.keys, first, second, key);
    CellMoves(t, first + second, parameter, i, source, c, property, key);
    MoveTwiceLabel(MovedPart(t.keys, first, key), MovedPart(middle.keys, second, middleKey), source);
  }

  lemma BlockOfKey(t: TensorMap, dimensions: seq<string>, newKey: Row) returns (i: nat)
    requires CanMoveToSamples(t, dimensions) && newKey in ToSamples(t, dimensions).keys.rows
    ensures i < |t.keys.rows| == |t.blocks| && RemainingPart(t.keys, dimensions, t.keys.rows[i]) == newKey
  {
    KeysAreDistinct(t);
    MovedCount(Samples, t, dimensions, None, true);
    var rows := ToSamples(t, dimensions).keys.rows;
    var g :| 0 <= g < |rows| && rows[g] == newKey;
    hide CanMoveKeys, RemainingPart, Moved, ValidTensor, GroupIndices, RemainingKeys;
    GroupIsNotEmpty(t.keys, dimensions, g);
    i := GroupIndices(t.keys, dimensions, g)[0];
    IndexInGroup(t.keys, dimensions, g, i);
    RemainingPartIsGroup(t.keys, dimensions, i, g);
  }

  lemma IndexInGroup(keys: Labels, dimensions: seq<string>, g: nat, i: nat)
    requires i in GroupIndices(keys, dimensions, g)
    ensures i < |keys.rows|
  {}

  lemma StructuresAgree(b: Block, middle: Block, two: Block, one: Block, first: seq<string>, second: seq<string>)
    requires StructureKept(b, middle, first) && StructureKept(middle, two, second) && StructureKept(b, one, first + second)
    requires forall p :: p in one.gradients && p in two.gradients ==> one.gradients[p].components == two.gradients[p].components
    ensures SameBlockStructure(one, two)
  {
    assert b.samples.names + first + second == b.samples.names + (first + second);
    forall p | p in one.gradients ensures SameGradientStructure(one.gradients[p], two.gradients[p]) {
      assert GradientStructureKept(b.gradients[p], middle.gradients[p]);
    }
  }

  /** Both ways, the components are those of the first block of the group. */
  lemma SameComponentsBothWays(t: TensorMap, first: seq<string>, second: seq<string>, i: nat, h: nat, parameter: Option<string>)
    requires BothWays(t, first, second) && HasData(t.blocks[0], parameter)
    requires i < |t.keys.rows| == |t.blocks| && IsFirst(t.keys, first + second, RemainingPart(t.keys, first + second, t.keys.rows[i]), i)
    requires h < |ToSamples(t, first).keys.rows| == |ToSamples(t, first).blocks|
    requires ToSamples(t, first).keys.rows[h] == RemainingPart(t.keys, first, t.keys.rows[i])
    requires BlockAt(ToSamples(t, first), RemainingPart(t.keys, first, t.keys.rows[i])) == ToSamples(t, first).blocks[h]
    ensures ComponentsOf(BlockAt(ToSamples(t, first + second), RemainingPart(t.keys, first + second, t.keys.rows[i])), parameter)
         == ComponentsOf(BlockAt(ToSamples(ToSamples(t, first), second), RemainingPart(t.keys, first + second, t.keys.rows[i])), parameter)
  {
    assert Splits(t.keys, first, second);
    KeySizes(t);
    MovedCount(Samples, t, first, None, true);
    hide CanMoveKeys, RemainingKeys, RemainingPart, MovedPart, Moved, BlockAt, Splits, ValidTensor, ComponentsOf, IsFirst, HasData;
    var middle := ToSamples(t, first);
    PartsSplit(t.keys, first, second, t.keys.rows[i]);
    FirstsCompose(t.keys, first, second, i, h);
    DataIsKept(t, first, parameter);
    ComponentsAreFirst(Samples, t, first + second, None, true, parameter, i);
    ComponentsAreFirst(Samples, t, first, None, true, parameter, i);
    ComponentsAreFirst(Samples, middle, second, None, true, parameter, h);
  }

  lemma SameStructureBothWays(t: TensorMap, first: seq<string>, second: seq<string>, newKey: Row)
    requires BothWays(t, first, second) && newKey in ToSamples(t, first + second).keys.rows
    ensures var one, two := BlockAt(ToSamples(t, first + second), newKey), BlockAt(ToSamples(ToSamples(t, first), second), newKey);
      SameBlockStructure(one, two) && RowsAreSorted(one) && RowsAreSorted(two)
  {
    assert Splits(t.keys, first, second);
    KeySizes(t);
    hide CanMoveKeys, RemainingKeys, RemainingPart, MovedPart, Moved, BlockAt, StructureKept, RowsAreSorted, SameBlockStructure, Splits, ValidTensor, IsFirst;
    var some := BlockOfKey(t, first + second, newKey);
    var i := FirstOf(t.keys, first + second, some);
    var key := t.keys.rows[i];
    FirstHasKey(t.keys, first + second, newKey, i);
    PartsSplit(t.keys, first, second, key);
    StructureIsKept(t, first + second, i, key);
    StructureIsKept(t, first, i, key);
    var h := MiddleKey(t, first, i, key);
    var middle, middleKey := ToSamples(t, first), RemainingPart(t.keys, first, key);
    StructureIsKept(middle, second, h, middleKey);
    var one, two := BlockAt(ToSamples(t, first + second), newKey), BlockAt(ToSamples(middle, second), newKey);
    forall p | p in one.gradients && p in two.gradients ensures one.gradients[p].components == two.gradients[p].components {
      SourceOfData(t, first + second, newKey, Some(p));
      SameComponentsBothWays(t, first, second, i, h, Some(p));
    }
    StructuresAgree(t.blocks[i], middle.blocks[h], two, one, first, second);
  }

  lemma FirstHasKey(keys: Labels, dimensions: seq<string>, newKey: Row, i: nat)
    requires IsFirst(keys, dimensions, newKey, i)
    ensures i < |keys.rows| && RemainingPart(keys, dimensions, keys.rows[i]) == newKey
  {}

  lemma SameCellsBothWays(t: TensorMap, first: seq<string>, second: seq<string>, parameter: Option<string>, newKey: Row,
                          about: RowLabel, c: Index, property: Row)
    requires BothWays(t, first, second) && HasData(t.blocks[0], parameter)
    requires var one, two := BlockAt(ToSamples(t, first + second), newKey), BlockAt(ToSamples(ToSamples(t, first), second), newKey);
      && InRange(Counts(ComponentsOf(one, parameter)), c) && ComponentsOf(one, parameter) == ComponentsOf(two, parameter)
      && SheetOf(one, parameter).properties == SheetOf(two, parameter).properties
      && (about in SheetOf(one, parameter).labels <==> about in SheetOf(two, parameter).labels)
    ensures SheetCell(SheetOf(BlockAt(ToSamples(ToSamples(t, first), second), newKey), parameter), about, c, property)
         == SheetCell(SheetOf(BlockAt(ToSamples(t, first + second), newKey), parameter), about, c, property)
  {
    var one, two := BlockAt(ToSamples(t, first + second), newKey), BlockAt(ToSamples(ToSamples(t, first), second), newKey);
    hide CanMoveKeys, BothWays, RemainingKeys, RemainingPart, MovedPart, Moved, BlockAt, ComponentsOf, SheetOf;
    if SheetCell(SheetOf(one, parameter), about, c, property).GetOr(ZERO) != ZERO {
      CellsAgree(t, first, second, parameter, newKey, about, c, property);
    } else if SheetCell(SheetOf(two, parameter), about, c, property).GetOr(ZERO) != ZERO {
      CellsAgreeBack(t, first, second, parameter, newKey, about, c, property);
    }
  }

  lemma SameData(one: Block, two: Block, parameter: Option<string>)
    requires SameBlockStructure(one, two) && HasData(one, parameter)
    ensures HasData(two, parameter) && ComponentsOf(one, parameter) == ComponentsOf(two, parameter)
    ensures SheetOf(one, parameter).properties == SheetOf(two, parameter).properties
  {}

  lemma SameRowsBothWays(t: TensorMap, first: seq<string>, second: seq<string>, parameter: Option<string>, newKey: Row)
    requires BothWays(t, first, second) && HasData(t.blocks[0], parameter)
    ensures SameRows(BlockAt(ToSamples(t, first + second), newKey), BlockAt(ToSamples(ToSamples(t, first), second), newKey), parameter)
  {
    var one, two := BlockAt(ToSamples(t, first + second), newKey), BlockAt(ToSamples(ToSamples(t, first), second), newKey);
    hide CanMoveKeys, BothWays, RemainingKeys, RemainingPart, MovedPart, Moved, BlockAt, SheetOf;
    forall about ensures about in SheetOf(one, parameter).labels <==> about in SheetOf(two, parameter).labels {
      if about in SheetOf(one, parameter).labels {
        RowsAgree(t, first, second, parameter, newKey, about);
      } else if about in SheetOf(two, parameter).labels {
        RowsAgreeBack(t, first, second, parameter, newKey, about);
      }
    }
  }

  lemma SameMeaningBothWays(t: TensorMap, first: seq<string>, second: seq<string>, newKey: Row)
    requires BothWays(t, first, second) && newKey in ToSamples(t, first + second).keys.rows
    ensures SameMeaning(BlockAt(ToSamples(t, first + second), newKey), BlockAt(ToSamples(ToSamples(t, first), second), newKey))
  {
    var one, two := BlockAt(ToSamples(t, first + second), newKey), BlockAt(ToSamples(ToSamples(t, first), second), newKey);
    hide CanMoveKeys, BothWays, RemainingKeys, RemainingPart, MovedPart, Moved, BlockAt, SheetOf, HasData, SameBlockStructure, ComponentsOf, SheetCell, RowsAreSorted;
    SameStructureBothWays(t, first, second, newKey);
    forall parameter: Option<string> | HasData(one, parameter) ensures SameRows(one, two, parameter) && SameCells(one, two, parameter) {
      SourceOfData(t, first + second, newKey, parameter);
      SameRowsBothWays(t, first, second, parameter, newKey);
      SameData(one, two, parameter);
      forall about, c, property | InRange(Counts(ComponentsOf(one, parameter)), c)
        ensures SheetCell(SheetOf(one, parameter), about, c, property) == SheetCell(SheetOf(two, parameter), about, c, property)
      {
        SameCellsBothWays(t, first, second, parameter, newKey, about, c, property);
      }
    }
  }

  /** Data of a merged block comes from data of the sources. */
  lemma SourceOfData(t: TensorMap, dimensions: seq<string>, newKey: Row, parameter: Option<string>)
    requires CanMoveToSamples(t, dimensions) && newKey in ToSamples(t, dimensions).keys.rows
    requires HasData(BlockAt(ToSamples(t, dimensions), newKey), parameter)
    ensures HasData(t.blocks[0], parameter)
  {
    var i := BlockOfKey(t, dimensions, newKey);
    StructureIsKept(t, dimensions, i, t.keys.rows[i]);
    if parameter.Some? {
      SameStructureOfGradients(t.blocks[0], t.blocks[i], parameter.value);
    }
  }

  lemma ValidAfter(t: TensorMap, dimensions: seq<string>)
    requires CanMoveToSamples(t, dimensions)
    ensures ValidTensor(ToSamples(t, dimensions)) && ToSamples(t, dimensions).keys.rows != []
    ensures ToSamples(t, dimensions).keys == RemainingKeys(t.keys, dimensions)
  {
    RemainingKeysAreValid(t.keys, dimensions);
    MovedIsValid(Samples, t, dimensions, None, true);
  }

  lemma ValidBlockAt(t: TensorMap, g: nat)
    requires ValidTensor(t) && g < |t.keys.rows|
    ensures |t.blocks| == |t.keys.rows| && BlockAt(t, t.keys.rows[g]) == t.blocks[g] && ValidBlock(t.blocks[g])
  {
    BlockAtKey(t, g, t.keys.rows[g]);
  }

  lemma BothAreValid(t: TensorMap, first: seq<string>, second: seq<string>)
    requires BothWays(t, first, second)
    ensures ValidTensor(ToSamples(t, first + second)) && ValidTensor(ToSamples(ToSamples(t, first), second))
    ensures ToSamples(t, first + second).keys == ToSamples(ToSamples(t, first), second).keys
  {
    assert Splits(t.keys, first, second);
    hide CanMoveKeys, RemainingKeys, Moved, Splits;
    RemainingKeysSplit(t.keys, first, second);
    ValidAfter(t, first + second);
    ValidAfter(t, first);
    ValidAfter(ToSamples(t, first), second);
  }

  lemma BlocksAgree(t: TensorMap, first: seq<string>, second: seq<string>, g: nat)
    requires BothWays(t, first, second) && g < |ToSamples(t, first + second).keys.rows|
    ensures var one, two := ToSamples(t, first + second), ToSamples(ToSamples(t, first), second);
      g < |one.blocks| && g < |two.blocks| && one.blocks[g] == two.blocks[g]
  {
    var one, two := ToSamples(t, first + second), ToSamples(ToSamples(t, first), second);
    BothAreValid(t, first, second);
    hide CanMoveKeys, BothWays, RemainingKeys, Moved, BlockAt, SameBlockStructure, SameMeaning, RowsAreSorted, ValidTensor, ValidBlock;
    ValidBlockAt(one, g);
    ValidBlockAt(two, g);
    SameStructureBothWays(t, first, second, one.keys.rows[g]);
    SameMeaningBothWays(t, first, second, one.keys.rows[g]);
    SameBlocks(one.blocks[g], two.blocks[g]);
  }

  lemma TensorsAreSame(one: TensorMap, two: TensorMap)
    requires ValidTensor(one) && ValidTensor(two) && one.keys == two.keys
    requires forall g :: 0 <= g < |one.keys.rows| ==> g < |one.blocks| && g < |two.blocks| && one.blocks[g] == two.blocks[g]
    ensures one == two
  {
    assert one.blocks == two.blocks;
  }

  /** One step equals two: the same keys, samples, values and gradients. */
  lemma TwoStepsAreOne(t: TensorMap, first: seq<string>, second: seq<string>)
    requires BothWays(t, first, second)
    ensures ToSamples(ToSamples(t, first), second) == ToSamples(t, first + second)
  {
    var one, two := ToSamples(t, first + second), ToSamples(ToSamples(t, first), second);
    BothAreValid(t, first, second);
    hide CanMoveKeys, BothWays, RemainingKeys, Moved, ValidTensor;
    forall g | 0 <= g < |one.keys.rows| ensures g < |one.blocks| && g < |two.blocks| && one.blocks[g] == two.blocks[g] {
      BlocksAgree(t, first, second, g);
    }
    TensorsAreSame(one, two);
  }
}
