/** Moving dimensions of the keys to the samples. */
module KeysToSamples {
  import opened Wrappers
  import opened Lexicographic
  import opened LabelSets
  import opened Blocks
  import opened Tensors
  import opened Keys
  import opened Sheets
  import opened Merging
  import opened MergedBlocks
  import opened BlockMerging
  import opened Groups
  import opened KeyMoves
  import opened RowOrders
  import opened NamedColumns
  import opened TensorBlocks

  /** Merge the given blocks along the sample axis. */
  method MergeBlocksAlongSamples(kbs: seq<KeyAndBlock>, extractedNames: seq<string>, sort: bool) returns (r: Result<TensorBlock>)
    requires MergeInput(Samples, extractedNames, None, kbs) && MergeDemands(Samples, extractedNames, None, kbs, sort)
    ensures r.Ok? <==> !MergeFails(Samples, None, kbs)
    ensures r.Ok? ==> fresh(r.value.Repr) && r.value.Valid() && r.value.Model == Merged(Samples, extractedNames, None, kbs, sort)
    ensures r.Err? ==> r.error == InvalidParameter
  {
    StartOfMerge(Samples, extractedNames, None, kbs, sort);
    hide MergeFails, MergeDemands, MergeInput, Mergeable, ValidBlock, MergedSampleRows, Merged, Ascending;
    var checked := CheckBlocks(kbs, true, Samples, None);
    if checked.Err? {
      return Err(checked.error);
    }
    var names := kbs[0].block.samples.names + extractedNames;
    var merged, mappings := MergeSamples(kbs, names, sort, Samples, |extractedNames|);
    var properties := kbs[0].block.properties;
    var ranges := seq(|kbs|, _ => Some(0));
    var block := BuildMerged(kbs, merged, properties, mappings, ranges, Samples, extractedNames, None, sort);
    return Ok(block);
  }

  /** Merge the blocks of one group. */
  method MergeGroup(t: TensorMap, removed: RemovedDimensions, names: seq<string>, sort: bool, g: nat) returns (r: Result<Block>)
    requires ValidTensor(t) && t.keys.rows != [] && ValidNames(names) && KnownDimensions(t.keys, names)
    requires removed == RemovedDimensions(RemainingKeys(t.keys, names), MovedPositions(t.keys, names))
    requires g < GroupCount(t, names)
    requires MoveDemands(Samples, t, names, None, sort) && NoneFailsBefore(Samples, t, names, None, g)
    ensures r.Ok? <==> !GroupFails(Samples, t, names, None, g)
    ensures r.Err? ==> r.error == InvalidParameter
    ensures r.Ok? ==> r.value == Moved(Samples, t, names, None, sort).blocks[g]
  {
    hide MergeFails, MergeDemands, Merged, ValidBlock, RemainingKeys, Group, Mergeable, MoveDemands, GroupFails, Moved;
    MovedBlock(Samples, t, names, None, sort, g);
    ReachedGroupDemands(Samples, t, names, None, sort, g);
    var kbs := BlocksOfGroup(t, removed, g, names);
    var block := MergeBlocksAlongSamples(kbs, names, sort);
    if block.Err? {
      return Err(block.error);
    }
    return Ok(block.value.Value());
  }

  /** Move dimensions of the keys to the samples, merging the blocks whose
      remaining keys agree. Values for the moved dimensions can not be given. */
  method KeysToSamples(t: TensorMap, keysToMove: Labels, sort: bool) returns (r: Result<TensorMap>)
    requires ValidTensor(t) && ValidLabels(keysToMove)
    requires t.keys.rows != [] && keysToMove.rows == [] ==> MoveDemands(Samples, t, keysToMove.names, None, sort)
    ensures r.Err? <==> t.keys.rows == [] || keysToMove.rows != [] || MoveFails(Samples, t, keysToMove.names, None)
    ensures r.Err? ==> r.error == InvalidParameter
    ensures r.Ok? ==> ValidTensor(r.value) && r.value == Moved(Samples, t, keysToMove.names, None, sort)
    ensures r.Ok? ==> forall b :: b in r.value.blocks ==> RowsAscend(b, sort)
    ensures r.Ok? ==> forall b :: b in r.value.blocks ==> NamesAreMoved(Samples, t.blocks[0], b, keysToMove.names)
  {
    hide MoveDemands, GroupFails, Moved, RowsAscend, NamesAreMoved;
    if t.keys.rows == [] {
      return Err(InvalidParameter);
    }
    if |keysToMove.rows| > 0 {
      return Err(InvalidParameter);
    }
    var names := keysToMove.names;
    var removed := RemoveDimensionsFromKeys(t.keys, names);
    if removed.Err? {
      return Err(removed.error);
    }
    MovedCount(Samples, t, names, None, sort);
    ghost var wanted := Moved(Samples, t, names, None, sort);
    var newBlocks: seq<Block> := [];
    for g := 0 to |removed.value.newKeys.rows|
      invariant newBlocks == wanted.blocks[..g]
      invariant NoneFailsBefore(Samples, t, names, None, g)
    {
      var block := MergeGroup(t, removed.value, names, sort, g);
      if block.Err? {
        return Err(block.error);
      }
      newBlocks := newBlocks + [block.value];
    }
    MovedIsValid(Samples, t, names, None, sort);
    MovedRowsAscend(Samples, t, names, None, sort);
    NamesAfter(Samples, t, names, None, sort);
    var tensor := NewTensorMap(removed.value.newKeys, newBlocks);
    return tensor;
  }
}
