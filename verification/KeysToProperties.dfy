/** Moving dimensions of the keys to the properties. */
module KeysToProperties {
  import opened Wrappers
  import opened Sequences
  import opened Lexicographic
  import opened LabelSets
  import opened Blocks
  import opened Tensors
  import opened Keys
  import opened Sheets
  import opened Merging
  import opened PropertyRanges
  import opened MergedBlocks
  import opened BlockMerging
  import opened Groups
  import opened KeyMoves
  import opened RowOrders
  import opened NamedColumns
  import opened TensorBlocks

  /** The property labels of the merged block. */
  method NewProperties(kbs: seq<KeyAndBlock>, keysToMove: Option<Labels>, extractedNames: seq<string>, ghost newKeys: Option<seq<Row>>, ghost sort: bool)
    returns (properties: Labels)
    requires newKeys == (if keysToMove.None? then None else Some(keysToMove.value.rows))
    requires MergeInput(Properties, extractedNames, newKeys, kbs) && !MergeFails(Properties, newKeys, kbs)
    requires MergeDemands(Properties, extractedNames, newKeys, kbs, sort)
    ensures properties == MergedProperties(Properties, extractedNames, newKeys, kbs)
    ensures properties.names == extractedNames + kbs[0].block.properties.names
  {
    RangePartsAreSound(newKeys, extractedNames, kbs);
    MergedPropertiesAreValid(Properties, extractedNames, newKeys, kbs, sort);
    hide ValidBlock, Products, MergeDemands, Mergeable;
    var parts := seq(|kbs|, i requires 0 <= i < |kbs| => kbs[i].block.properties.rows);
    var rows: seq<Row>;
    match keysToMove {
      case Some(requested) =>
        FirstIsDistinct(kbs, |extractedNames|);
        rows := CollectRequestedProperties(requested.rows, parts, kbs[0].block.properties.rows, |extractedNames|);
      case None =>
        var keys := seq(|kbs|, i requires 0 <= i < |kbs| => kbs[i].key);
        assert keys == KeysOf(kbs) && parts == PropertyParts(kbs);
        rows := CollectProperties(keys, parts, |extractedNames|);
    }
    var names := extractedNames + kbs[0].block.properties.names;
    ChunksOfFlatten(rows, |names|);
    properties := FromValues(names, Flatten(rows));
  }

  lemma FirstIsDistinct(kbs: seq<KeyAndBlock>, m: nat)
    requires Mergeable(kbs, m)
    ensures Distinct(kbs[0].block.properties.rows)
  {
    assert ValidBlock(kbs[0].block);
  }

  /** Merge the given blocks along the property axis. */
  method MergeBlocksAlongProperties(kbs: seq<KeyAndBlock>, keysToMove: Option<Labels>, extractedNames: seq<string>, sort: bool)
    returns (r: Result<TensorBlock>)
    requires var newKeys := if keysToMove.None? then None else Some(keysToMove.value.rows);
      MergeInput(Properties, extractedNames, newKeys, kbs) && MergeDemands(Properties, extractedNames, newKeys, kbs, sort)
    ensures var newKeys := if keysToMove.None? then None else Some(keysToMove.value.rows);
      && (r.Ok? <==> !MergeFails(Properties, newKeys, kbs))
      && (r.Ok? ==> fresh(r.value.Repr) && r.value.Valid() && r.value.Model == Merged(Properties, extractedNames, newKeys, kbs, sort))
      && (r.Err? ==> r.error == InvalidParameter)
  {
    ghost var newKeys := if keysToMove.None? then None else Some(keysToMove.value.rows);
    StartOfMerge(Properties, extractedNames, newKeys, kbs, sort);
    hide MergeFails, MergeDemands, MergeInput, Mergeable, ValidBlock, MergedSampleRows, MergedProperties, Merged, Ascending;
    var checked := CheckBlocks(kbs, keysToMove.Some?, Properties, newKeys);
    if checked.Err? {
      return Err(checked.error);
    }
    var merged, mappings := MergeSamples(kbs, kbs[0].block.samples.names, sort, Properties, |extractedNames|);
    var properties := NewProperties(kbs, keysToMove, extractedNames, newKeys, sort);
    var ranges := CollectRanges(kbs, properties.rows);
    var block := BuildMerged(kbs, merged, properties, mappings, ranges, Properties, extractedNames, newKeys, sort);
    return Ok(block);
  }

  /** The values requested for the moved dimensions, if there are any. */
  function Requested(keysToMove: Labels): Option<seq<Row>> {
    if keysToMove.rows == [] then None else Some(keysToMove.rows)
  }

  /** Merge the blocks of one group. */
  method MergeGroup(t: TensorMap, removed: RemovedDimensions, keysToMove: Labels, sort: bool, g: nat) returns (r: Result<Block>)
    requires ValidTensor(t) && t.keys.rows != [] && ValidLabels(keysToMove) && KnownDimensions(t.keys, keysToMove.names)
    requires removed == RemovedDimensions(RemainingKeys(t.keys, keysToMove.names), MovedPositions(t.keys, keysToMove.names))
    requires g < GroupCount(t, keysToMove.names)
    requires MoveDemands(Properties, t, keysToMove.names, Requested(keysToMove), sort)
    requires NoneFailsBefore(Properties, t, keysToMove.names, Requested(keysToMove), g)
    ensures r.Ok? <==> !GroupFails(Properties, t, keysToMove.names, Requested(keysToMove), g)
    ensures r.Err? ==> r.error == InvalidParameter
    ensures r.Ok? ==> r.value == Moved(Properties, t, keysToMove.names, Requested(keysToMove), sort).blocks[g]
  {
    hide MergeFails, MergeDemands, Merged, ValidBlock, RemainingKeys, Group, Mergeable, MoveDemands, GroupFails, Moved;
    MovedBlock(Properties, t, keysToMove.names, Requested(keysToMove), sort, g);
    ReachedGroupDemands(Properties, t, keysToMove.names, Requested(keysToMove), sort, g);
    var requested := if |keysToMove.rows| == 0 then None else Some(keysToMove);
    var kbs := BlocksOfGroup(t, removed, g, keysToMove.names);
    var block := MergeBlocksAlongProperties(kbs, requested, keysToMove.names, sort);
    if block.Err? {
      return Err(block.error);
    }
    return Ok(block.value.Value());
  }

  /** Move dimensions of the keys to the properties, merging the blocks whose
      remaining keys agree. */
  method KeysToProperties(t: TensorMap, keysToMove: Labels, sort: bool) returns (r: Result<TensorMap>)
    requires ValidTensor(t) && ValidLabels(keysToMove)
    requires t.keys.rows != [] ==> MoveDemands(Properties, t, keysToMove.names, Requested(keysToMove), sort)
    ensures r.Err? <==> t.keys.rows == [] || MoveFails(Properties, t, keysToMove.names, Requested(keysToMove))
    ensures r.Err? ==> r.error == InvalidParameter
    ensures r.Ok? ==> ValidTensor(r.value) && r.value == Moved(Properties, t, keysToMove.names, Requested(keysToMove), sort)
    ensures r.Ok? ==> forall b :: b in r.value.blocks ==> RowsAscend(b, sort)
    ensures r.Ok? ==> forall b :: b in r.value.blocks ==> NamesAreMoved(Properties, t.blocks[0], b, keysToMove.names)
    ensures r.Ok? && keysToMove.rows != [] ==> RequestedEverywhere(t, r.value, keysToMove.names, keysToMove.rows)
  {
    hide MoveDemands, GroupFails, Moved, RowsAscend, NamesAreMoved, RequestedEverywhere;
    if t.keys.rows == [] {
      return Err(InvalidParameter);
    }
    ghost var newKeys := Requested(keysToMove);
    var removed := RemoveDimensionsFromKeys(t.keys, keysToMove.names);
    if removed.Err? {
      return Err(removed.error);
    }
    MovedCount(Properties, t, keysToMove.names, newKeys, sort);
    ghost var wanted := Moved(Properties, t, keysToMove.names, newKeys, sort);
    var newBlocks: seq<Block> := [];
    for g := 0 to |removed.value.newKeys.rows|
      invariant newBlocks == wanted.blocks[..g]
      invariant NoneFailsBefore(Properties, t, keysToMove.names, newKeys, g)
    {
      var block := MergeGroup(t, removed.value, keysToMove, sort, g);
      if block.Err? {
        return Err(block.error);
      }
      newBlocks := newBlocks + [block.value];
    }
    MovedIsValid(Properties, t, keysToMove.names, newKeys, sort);
    MovedRowsAscend(Properties, t, keysToMove.names, newKeys, sort);
    NamesAfter(Properties, t, keysToMove.names, newKeys, sort);
    if keysToMove.rows != [] {
      AllRequested(t, keysToMove.names, keysToMove.rows, sort);
    }
    var tensor := NewTensorMap(removed.value.newKeys, newBlocks);
    return tensor;
  }
}
