/** The groups of blocks that are merged together: those whose keys agree on
    the dimensions that stay. */
module Groups {
  import opened Wrappers
  import opened Sequences
  import opened Lexicographic
  import opened LabelSets
  import opened Blocks
  import opened Tensors
  import opened Keys
  import opened Sheets
  import opened Merging
  import opened MergedBlocks

  /** What the keys of group `g` have in common. */
  function GroupEntry(keys: Labels, dimensions: seq<string>, g: nat): Row {
    var remaining := RemainingKeys(keys, dimensions);
    if RemainingPositions(keys, dimensions) == [] || g >= |remaining.rows| then [] else remaining.rows[g]
  }

  function GroupIndices(keys: Labels, dimensions: seq<string>, g: nat): seq<nat> {
    Matching(keys.rows, RemainingPositions(keys, dimensions), GroupEntry(keys, dimensions, g))
  }

  /** The blocks at `indices` with the moved part of their keys. */
  function Picked(t: TensorMap, positions: seq<nat>, indices: seq<nat>): (r: seq<KeyAndBlock>)
    requires |t.blocks| == |t.keys.rows|
    requires forall i :: i in indices ==> 0 <= i < |t.blocks|
    ensures |r| == |indices|
    ensures forall k :: 0 <= k < |r| ==>
      indices[k] in indices && r[k] == KeyAndBlock(Project(t.keys.rows[indices[k]], positions), t.blocks[indices[k]])
  {
    seq(|indices|, k requires 0 <= k < |indices| =>
      assert indices[k] in indices;
      KeyAndBlock(Project(t.keys.rows[indices[k]], positions), t.blocks[indices[k]]))
  }

  function Group(t: TensorMap, dimensions: seq<string>, g: nat): seq<KeyAndBlock>
    requires |t.blocks| == |t.keys.rows|
  {
    Picked(t, MovedPositions(t.keys, dimensions), GroupIndices(t.keys, dimensions, g))
  }

  function GroupCount(t: TensorMap, dimensions: seq<string>): nat {
    |RemainingKeys(t.keys, dimensions).rows|
  }

  ghost predicate KnownDimensions(keys: Labels, dimensions: seq<string>) {
    Distinct(dimensions) && forall d :: d in dimensions ==> d in keys.names
  }

  lemma ProjectEntry(row: Row, positions: seq<nat>, p: nat, other: Row)
    requires p in positions && p < |row| == |other|
    requires Project(row, positions) == Project(other, positions)
    ensures row[p] == other[p]
  {
    var k :| 0 <= k < |positions| && positions[k] == p;
    assert Project(row, positions)[k] == row[p] && Project(other, positions)[k] == other[p];
  }

  /** A key is determined by its moved and its remaining part. */
  lemma KeyFromParts(keys: Labels, dimensions: seq<string>, a: Row, b: Row)
    requires |a| == |b| == |keys.names|
    requires Project(a, MovedPositions(keys, dimensions)) == Project(b, MovedPositions(keys, dimensions))
    requires Project(a, RemainingPositions(keys, dimensions)) == Project(b, RemainingPositions(keys, dimensions))
    ensures a == b
  {
    forall p | 0 <= p < |a| ensures a[p] == b[p] {
      if p in MovedPositions(keys, dimensions) {
        ProjectEntry(a, MovedPositions(keys, dimensions), p, b);
      } else {
        assert p in RemainingPositions(keys, dimensions);
        ProjectEntry(a, RemainingPositions(keys, dimensions), p, b);
      }
    }
  }

  /** Every block belongs to the group of its remaining key. */
  lemma GroupOf(keys: Labels, dimensions: seq<string>, i: nat) returns (g: nat)
    requires i < |keys.rows|
    ensures g < |RemainingKeys(keys, dimensions).rows|
    ensures i in GroupIndices(keys, dimensions, g)
  {
    var rest := RemainingPositions(keys, dimensions);
    if rest == [] {
      g := 0;
      assert Project(keys.rows[i], rest) == [];
    } else {
      var all := Projections(keys.rows, rest);
      FirstOccurrencesIsSet(all);
      assert all[i] in FirstOccurrences(all);
      g :| 0 <= g < |RemainingKeys(keys, dimensions).rows| && RemainingKeys(keys, dimensions).rows[g] == all[i];
    }
  }

  ghost predicate InSomeGroup(keys: Labels, dimensions: seq<string>, i: nat) {
    exists g :: 0 <= g < |RemainingKeys(keys, dimensions).rows| && i in GroupIndices(keys, dimensions, g)
  }

  lemma GroupsAreDisjoint(keys: Labels, dimensions: seq<string>, g: nat, h: nat, i: nat)
    requires g < |RemainingKeys(keys, dimensions).rows| && h < |RemainingKeys(keys, dimensions).rows|
    requires i in GroupIndices(keys, dimensions, g) && i in GroupIndices(keys, dimensions, h)
    ensures g == h
  {
    FirstOccurrencesIsSet(Projections(keys.rows, RemainingPositions(keys, dimensions)));
  }

  lemma GroupIsNotEmpty(keys: Labels, dimensions: seq<string>, g: nat)
    requires keys.rows != [] && g < |RemainingKeys(keys, dimensions).rows|
    ensures GroupIndices(keys, dimensions, g) != []
  {
    var rest := RemainingPositions(keys, dimensions);
    if rest == [] {
      assert Project(keys.rows[0], rest) == [];
      assert 0 in GroupIndices(keys, dimensions, g);
    } else {
      var all := Projections(keys.rows, rest);
      FirstOccurrencesIsSet(all);
      assert FirstOccurrences(all)[g] in all;
      var i :| 0 <= i < |all| && all[i] == FirstOccurrences(all)[g];
      assert i in GroupIndices(keys, dimensions, g);
    }
  }

  /** Grouping is a partition: each block is in one group, once, and the groups
      list their blocks in the order of the keys. */
  lemma GroupsPartitionTheBlocks(keys: Labels, dimensions: seq<string>)
    requires keys.rows != []
    ensures forall i :: 0 <= i < |keys.rows| ==> InSomeGroup(keys, dimensions, i)
    ensures forall g, h, i :: 0 <= g < h < |RemainingKeys(keys, dimensions).rows| && i in GroupIndices(keys, dimensions, g) ==>
      i !in GroupIndices(keys, dimensions, h)
    ensures forall g :: 0 <= g < |RemainingKeys(keys, dimensions).rows| ==>
      && GroupIndices(keys, dimensions, g) != []
      && forall k, l :: 0 <= k < l < |GroupIndices(keys, dimensions, g)| ==>
           GroupIndices(keys, dimensions, g)[k] < GroupIndices(keys, dimensions, g)[l] < |keys.rows|
  {
    hide GroupIndices, RemainingKeys;
    forall i | 0 <= i < |keys.rows| ensures InSomeGroup(keys, dimensions, i) {
      var g := GroupOf(keys, dimensions, i);
    }
    forall g, h, i | 0 <= g < h < |RemainingKeys(keys, dimensions).rows| && i in GroupIndices(keys, dimensions, g)
      ensures i !in GroupIndices(keys, dimensions, h)
    {
      if i in GroupIndices(keys, dimensions, h) {
        GroupsAreDisjoint(keys, dimensions, g, h, i);
      }
    }
    forall g | 0 <= g < |RemainingKeys(keys, dimensions).rows|
      ensures GroupIndices(keys, dimensions, g) != []
      ensures forall k, l :: 0 <= k < l < |GroupIndices(keys, dimensions, g)| ==>
        GroupIndices(keys, dimensions, g)[k] < GroupIndices(keys, dimensions, g)[l] < |keys.rows|
    {
      GroupIsNotEmpty(keys, dimensions, g);
      GroupIsAscending(keys, dimensions, g);
    }
  }

  lemma GroupIsAscending(keys: Labels, dimensions: seq<string>, g: nat)
    ensures forall k, l :: 0 <= k < l < |GroupIndices(keys, dimensions, g)| ==>
      GroupIndices(keys, dimensions, g)[k] < GroupIndices(keys, dimensions, g)[l] < |keys.rows|
  {
    var indices := GroupIndices(keys, dimensions, g);
    forall k, l | 0 <= k < l < |indices| ensures indices[k] < indices[l] < |keys.rows| {
      assert indices[l] in indices;
    }
  }

  /** With a single remaining key every block is in its group, so taking all
      blocks at once is the same as looking for the matching ones. */
  lemma SingleGroupHasAllBlocks(keys: Labels, dimensions: seq<string>)
    requires |RemainingKeys(keys, dimensions).rows| == 1
    ensures GroupIndices(keys, dimensions, 0) == seq(|keys.rows|, i => i)
  {
    hide RemainingKeys, GroupEntry;
    forall i | 0 <= i < |keys.rows|
      ensures Project(keys.rows[i], RemainingPositions(keys, dimensions)) == GroupEntry(keys, dimensions, 0)
    {
      var g := GroupOf(keys, dimensions, i);
      assert g == 0;
    }
    AllMatch(keys.rows, RemainingPositions(keys, dimensions), GroupEntry(keys, dimensions, 0));
  }

  lemma {:induction false} AllMatch(rows: seq<Row>, positions: seq<nat>, entry: Row)
    requires forall i :: 0 <= i < |rows| ==> Project(rows[i], positions) == entry
    ensures Matching(rows, positions, entry) == seq(|rows|, i => i)
  {
    if rows != [] {
      AllMatch(rows[..|rows| - 1], positions, entry);
    }
  }

  /** The blocks of a group can be merged: their moved keys are distinct,
      because the keys are and the remaining parts agree. */
  lemma GroupIsMergeable(t: TensorMap, dimensions: seq<string>, g: nat)
    requires ValidTensor(t) && t.keys.rows != []
    requires g < GroupCount(t, dimensions)
    ensures Mergeable(Group(t, dimensions, g), |dimensions|)
  {
    var indices, kbs := GroupIndices(t.keys, dimensions, g), Group(t, dimensions, g);
    GroupIsNotEmpty(t.keys, dimensions, g);
    forall k, l | 0 <= k < l < |kbs| ensures KeysOf(kbs)[k] != KeysOf(kbs)[l] {
      GroupIsAscending(t.keys, dimensions, g);
      var a, b := t.keys.rows[indices[k]], t.keys.rows[indices[l]];
      assert indices[k] in indices && indices[l] in indices;
      if KeysOf(kbs)[k] == KeysOf(kbs)[l] {
        KeyFromParts(t.keys, dimensions, a, b);
      }
    }
    forall k | 0 <= k < |kbs| ensures ValidBlock(kbs[k].block) && SameStructure(kbs[0].block, kbs[k].block) {
      assert indices[0] in indices && indices[k] in indices;
      assert SameStructure(t.blocks[0], t.blocks[indices[0]]) && SameStructure(t.blocks[0], t.blocks[indices[k]]);
    }
  }

  method MovedKey(key: Row, positions: seq<nat>) returns (moved: Row)
    requires forall k :: 0 <= k < |positions| ==> positions[k] < |key|
    ensures moved == Project(key, positions)
  {
    moved := [];
    for k := 0 to |positions|
      invariant moved == Project(key, positions)[..k]
    {
      moved := moved + [key[positions[k]]];
    }
  }

  /** The blocks at `indices` with the moved part of their keys. */
  method PickBlocks(t: TensorMap, positions: seq<nat>, indices: seq<nat>) returns (kbs: seq<KeyAndBlock>)
    requires |t.blocks| == |t.keys.rows|
    requires forall i, k :: 0 <= i < |t.keys.rows| && 0 <= k < |positions| ==> positions[k] < |t.keys.rows[i]|
    requires forall i :: i in indices ==> 0 <= i < |t.blocks|
    ensures kbs == Picked(t, positions, indices)
  {
    kbs := [];
    for k := 0 to |indices|
      invariant kbs == Picked(t, positions, indices)[..k]
    {
      assert indices[k] in indices;
      var moved := MovedKey(t.keys.rows[indices[k]], positions);
      kbs := kbs + [KeyAndBlock(moved, t.blocks[indices[k]])];
    }
  }

  /** The single entry of a selection names the columns it was taken from. */
  lemma SelectionFindsGroup(keys: Labels, dimensions: seq<string>, positions: seq<nat>)
    requires ValidLabels(keys)
    requires ArePositions(keys.names, Select(keys.names, RemainingPositions(keys, dimensions)), positions)
    ensures positions == RemainingPositions(keys, dimensions)
  {
    var rest := RemainingPositions(keys, dimensions);
    forall k | 0 <= k < |rest| ensures positions[k] == rest[k] {
      assert rest[k] in rest;
      assert keys.names[positions[k]] == keys.names[rest[k]];
    }
  }

  /** The blocks to merge for one remaining key: all of them if there is only
      one key, and the ones that match it otherwise. */
  method BlocksOfGroup(t: TensorMap, removed: RemovedDimensions, g: nat, ghost dimensions: seq<string>)
    returns (kbs: seq<KeyAndBlock>)
    requires ValidTensor(t) && t.keys.rows != [] && KnownDimensions(t.keys, dimensions)
    requires removed == RemovedDimensions(RemainingKeys(t.keys, dimensions), MovedPositions(t.keys, dimensions))
    requires g < |removed.newKeys.rows|
    ensures kbs == Group(t, dimensions, g)
  {
    hide ValidBlock, RemainingKeys, GroupIndices, Matching, SameStructure;
    PositionsAreDistinct(t.keys.names, dimensions);
    RemainingKeysAreValid(t.keys, dimensions);
    if |removed.newKeys.rows| == 1 {
      SingleGroupHasAllBlocks(t.keys, dimensions);
      kbs := PickBlocks(t, removed.positions, seq(|t.keys.rows|, i => i));
    } else {
      var selection := Labels(removed.newKeys.names, [removed.newKeys.rows[g]]);
      SelectionOfGroup(t.keys, dimensions, g);
      var matching := BlocksMatching(t, selection);
      ghost var positions :| ArePositions(t.keys.names, selection.names, positions)
                          && matching.value == Matching(t.keys.rows, positions, selection.rows[0]);
      SelectionFindsGroup(t.keys, dimensions, positions);
      kbs := PickBlocks(t, removed.positions, matching.value);
    }
  }

  /** Several remaining keys have dimensions, which the selection names. */
  lemma SelectionOfGroup(keys: Labels, dimensions: seq<string>, g: nat)
    requires |RemainingKeys(keys, dimensions).rows| > 1 && g < |RemainingKeys(keys, dimensions).rows|
    ensures var names := RemainingKeys(keys, dimensions).names;
      && names != [] && (forall i :: 0 <= i < |names| ==> names[i] in keys.names)
      && names == Select(keys.names, RemainingPositions(keys, dimensions))
    ensures GroupIndices(keys, dimensions, g) == Matching(keys.rows, RemainingPositions(keys, dimensions), RemainingKeys(keys, dimensions).rows[g])
  {
    SelectedNamesAreKnown(keys, dimensions);
  }

  lemma SelectedNamesAreKnown(keys: Labels, dimensions: seq<string>)
    requires RemainingPositions(keys, dimensions) != []
    ensures forall i :: 0 <= i < |RemainingKeys(keys, dimensions).names| ==> RemainingKeys(keys, dimensions).names[i] in keys.names
    ensures RemainingKeys(keys, dimensions).names != []
  {
    var rest := RemainingPositions(keys, dimensions);
    assert forall k :: 0 <= k < |rest| ==> rest[k] in rest;
  }

  /** The merged blocks all have the same structure. */
  lemma MergedHaveSameStructure(axis: Axis, names: seq<string>, newKeys: Option<seq<Row>>, a: seq<KeyAndBlock>, b: seq<KeyAndBlock>, sort: bool)
    requires a != [] && b != [] && SameStructure(a[0].block, b[0].block)
    ensures SameStructure(Merged(axis, names, newKeys, a, sort), Merged(axis, names, newKeys, b, sort))
  {
    hide Gather, MergedProperties, MergedSampleRows, MergedGradientRows, Counts, NamesOf;
    var ma, mb := Merged(axis, names, newKeys, a, sort), Merged(axis, names, newKeys, b, sort);
    SameStructureOfGradients(a[0].block, b[0].block, "");
    forall p | p in ma.gradients
      ensures p in mb.gradients
      ensures MetadataOf(ma.gradients[p]) == MetadataOf(mb.gradients[p])
      ensures GradientMapOf(ma.gradients[p]) == GradientMapOf(mb.gradients[p])
    {
      SameStructureOfGradients(a[0].block, b[0].block, p);
    }
    assert ma.properties.names == mb.properties.names by {
      MergedPropertyNames(axis, names, newKeys, a, b);
    }
    assert GradientMapOf(ma).gradients == GradientMapOf(mb).gradients;
  }

  lemma MergedPropertyNames(axis: Axis, names: seq<string>, newKeys: Option<seq<Row>>, a: seq<KeyAndBlock>, b: seq<KeyAndBlock>)
    requires a != [] && b != [] && SameStructure(a[0].block, b[0].block)
    ensures MergedProperties(axis, names, newKeys, a).names == MergedProperties(axis, names, newKeys, b).names
  {}
}
