/** Moving dimensions of the keys to another axis, for a whole tensor map: the
    result, the errors, and what callers must see to. */
module KeyMoves {
  import opened Wrappers
  import opened Sequences
  import opened Lexicographic
  import opened LabelSets
  import opened Blocks
  import opened Tensors
  import opened Keys
  import opened Sheets
  import opened Merging
  import opened MergedBlocks
  import opened Groups

  /** The tensor map after the move: one merged block per remaining key. */
  function Moved(axis: Axis, t: TensorMap, dimensions: seq<string>, newKeys: Option<seq<Row>>, sort: bool): TensorMap
    requires ValidTensor(t) && t.keys.rows != []
  {
    TensorMap(RemainingKeys(t.keys, dimensions),
      seq(GroupCount(t, dimensions), g requires 0 <= g < GroupCount(t, dimensions) =>
        GroupIsMergeable(t, dimensions, g);
        Merged(axis, dimensions, newKeys, Group(t, dimensions, g), sort)))
  }

  ghost predicate GroupFails(axis: Axis, t: TensorMap, dimensions: seq<string>, newKeys: Option<seq<Row>>, g: nat)
    requires ValidTensor(t) && t.keys.rows != []
  {
    Group(t, dimensions, g) != [] && MergeFails(axis, newKeys, Group(t, dimensions, g))
  }

  ghost predicate MoveFails(axis: Axis, t: TensorMap, dimensions: seq<string>, newKeys: Option<seq<Row>>)
    requires ValidTensor(t) && t.keys.rows != []
  {
    || (exists d :: d in dimensions && d !in t.keys.names)
    || (exists g :: 0 <= g < GroupCount(t, dimensions) && GroupFails(axis, t, dimensions, newKeys, g))
  }

  ghost predicate NoneFailsBefore(axis: Axis, t: TensorMap, dimensions: seq<string>, newKeys: Option<seq<Row>>, g: nat)
    requires ValidTensor(t) && t.keys.rows != []
  {
    forall h :: 0 <= h < g ==> !GroupFails(axis, t, dimensions, newKeys, h)
  }

  /** What the caller must see to for every group that is reached. */
  ghost predicate MoveDemands(axis: Axis, t: TensorMap, dimensions: seq<string>, newKeys: Option<seq<Row>>, sort: bool)
    requires ValidTensor(t) && t.keys.rows != []
  {
    KnownDimensions(t.keys, dimensions) ==>
      forall g :: 0 <= g < GroupCount(t, dimensions) && NoneFailsBefore(axis, t, dimensions, newKeys, g) ==>
        GroupDemands(axis, t, dimensions, newKeys, sort, g)
  }

  ghost predicate GroupDemands(axis: Axis, t: TensorMap, dimensions: seq<string>, newKeys: Option<seq<Row>>, sort: bool, g: nat)
    requires ValidTensor(t) && t.keys.rows != []
  {
    Group(t, dimensions, g) != [] && MergeDemands(axis, dimensions, newKeys, Group(t, dimensions, g), sort)
  }

  /** All merged blocks are valid and have the same structure, so building the
      new tensor map succeeds. */
  lemma MovedIsValid(axis: Axis, t: TensorMap, dimensions: seq<string>, newKeys: Option<seq<Row>>, sort: bool)
    requires ValidTensor(t) && t.keys.rows != [] && KnownDimensions(t.keys, dimensions) && ValidNames(dimensions)
    requires newKeys.Some? ==> axis.Properties? && newKeys.value != [] && Distinct(newKeys.value) && OfSize(newKeys.value, |dimensions|)
    requires !MoveFails(axis, t, dimensions, newKeys) && MoveDemands(axis, t, dimensions, newKeys, sort)
    ensures ValidTensor(Moved(axis, t, dimensions, newKeys, sort))
  {
    var r := Moved(axis, t, dimensions, newKeys, sort);
    RemainingKeysAreValid(t.keys, dimensions);
    forall g | 0 <= g < |r.blocks| ensures ValidBlock(r.blocks[g]) && SameStructure(r.blocks[0], r.blocks[g]) {
      MovedBlockIsValid(axis, t, dimensions, newKeys, sort, g);
    }
  }

  lemma MovedBlockIsValid(axis: Axis, t: TensorMap, dimensions: seq<string>, newKeys: Option<seq<Row>>, sort: bool, g: nat)
    requires ValidTensor(t) && t.keys.rows != [] && KnownDimensions(t.keys, dimensions) && ValidNames(dimensions)
    requires newKeys.Some? ==> axis.Properties? && newKeys.value != [] && Distinct(newKeys.value) && OfSize(newKeys.value, |dimensions|)
    requires !MoveFails(axis, t, dimensions, newKeys) && MoveDemands(axis, t, dimensions, newKeys, sort)
    requires g < GroupCount(t, dimensions)
    ensures var r := Moved(axis, t, dimensions, newKeys, sort);
      ValidBlock(r.blocks[g]) && SameStructure(r.blocks[0], r.blocks[g])
  {
    hide ValidBlock, MergeDemands, MergeFails, SameStructure, Merged, RemainingKeys;
    GroupIsMergeable(t, dimensions, g);
    GroupIsMergeable(t, dimensions, 0);
    assert !GroupFails(axis, t, dimensions, newKeys, g);
    assert NoneFailsBefore(axis, t, dimensions, newKeys, g);
    assert GroupDemands(axis, t, dimensions, newKeys, sort, g);
    MergedIsValid(axis, dimensions, newKeys, Group(t, dimensions, g), sort);
    GroupsHaveSameStructure(t, dimensions, g);
    MergedHaveSameStructure(axis, dimensions, newKeys, Group(t, dimensions, 0), Group(t, dimensions, g), sort);
  }

  lemma GroupsHaveSameStructure(t: TensorMap, dimensions: seq<string>, g: nat)
    requires ValidTensor(t) && t.keys.rows != [] && g < GroupCount(t, dimensions)
    ensures Group(t, dimensions, 0) != [] && Group(t, dimensions, g) != []
    ensures SameStructure(Group(t, dimensions, 0)[0].block, Group(t, dimensions, g)[0].block)
  {
    GroupIsNotEmpty(t.keys, dimensions, 0);
    GroupIsNotEmpty(t.keys, dimensions, g);
    var i, j := GroupIndices(t.keys, dimensions, 0)[0], GroupIndices(t.keys, dimensions, g)[0];
    assert i in GroupIndices(t.keys, dimensions, 0) && j in GroupIndices(t.keys, dimensions, g);
    assert SameStructure(t.blocks[0], t.blocks[i]) && SameStructure(t.blocks[0], t.blocks[j]);
  }

  lemma MovedCount(axis: Axis, t: TensorMap, dimensions: seq<string>, newKeys: Option<seq<Row>>, sort: bool)
    requires ValidTensor(t) && t.keys.rows != []
    ensures |Moved(axis, t, dimensions, newKeys, sort).blocks| == GroupCount(t, dimensions)
    ensures Moved(axis, t, dimensions, newKeys, sort).keys == RemainingKeys(t.keys, dimensions)
  {}

  lemma MovedBlock(axis: Axis, t: TensorMap, dimensions: seq<string>, newKeys: Option<seq<Row>>, sort: bool, g: nat)
    requires ValidTensor(t) && t.keys.rows != [] && g < GroupCount(t, dimensions)
    ensures Mergeable(Group(t, dimensions, g), |dimensions|)
    ensures |Moved(axis, t, dimensions, newKeys, sort).blocks| == GroupCount(t, dimensions)
    ensures Moved(axis, t, dimensions, newKeys, sort).blocks[g] == Merged(axis, dimensions, newKeys, Group(t, dimensions, g), sort)
    ensures GroupFails(axis, t, dimensions, newKeys, g) <==> MergeFails(axis, newKeys, Group(t, dimensions, g))
  {
    hide MergeFails, MergeDemands, Merged;
    GroupIsMergeable(t, dimensions, g);
  }

  lemma ReachedGroupDemands(axis: Axis, t: TensorMap, dimensions: seq<string>, newKeys: Option<seq<Row>>, sort: bool, g: nat)
    requires ValidTensor(t) && t.keys.rows != [] && g < GroupCount(t, dimensions)
    requires MoveDemands(axis, t, dimensions, newKeys, sort) && KnownDimensions(t.keys, dimensions)
    requires NoneFailsBefore(axis, t, dimensions, newKeys, g)
    ensures Group(t, dimensions, g) != [] && MergeDemands(axis, dimensions, newKeys, Group(t, dimensions, g), sort)
  {
    hide MergeFails, MergeDemands, Merged, ValidTensor, GroupFails;
    assert GroupDemands(axis, t, dimensions, newKeys, sort, g);
  }
}
