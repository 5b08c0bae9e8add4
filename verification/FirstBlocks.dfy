/** The first block of each group: its component labels become those of the
    merged block and of its gradients. */
module FirstBlocks {
  import opened Wrappers
  import opened Sequences
  import opened Lexicographic
  import opened LabelSets
  import opened Tensors
  import opened Keys
  import opened Sheets
  import opened Merging
  import opened MergedBlocks
  import opened Groups
  import opened KeyMoves
  import opened MergeMeaning
  import opened TensorMeaning
  import opened KeySplits

  /** Key `i` is the first one with the given remaining part. */
  ghost predicate IsFirst(keys: Labels, dimensions: seq<string>, newKey: Row, i: nat) {
    && i < |keys.rows| && RemainingPart(keys, dimensions, keys.rows[i]) == newKey
    && forall j :: 0 <= j < i ==> RemainingPart(keys, dimensions, keys.rows[j]) != newKey
  }

  lemma {:induction false} FirstOf(keys: Labels, dimensions: seq<string>, i: nat) returns (f: nat)
    requires i < |keys.rows|
    ensures IsFirst(keys, dimensions, RemainingPart(keys, dimensions, keys.rows[i]), f) && f <= i
  {
    hide RemainingPart;
    if j: nat :| j < i && RemainingPart(keys, dimensions, keys.rows[j]) == RemainingPart(keys, dimensions, keys.rows[i]) {
      f := FirstOf(keys, dimensions, j);
    } else {
      f := i;
    }
  }

  lemma FirstInGroup(t: TensorMap, dimensions: seq<string>, g: nat, i: nat)
    requires |t.blocks| == |t.keys.rows| && g < |RemainingKeys(t.keys, dimensions).rows|
    requires i in GroupIndices(t.keys, dimensions, g)
    requires i < |t.keys.rows| && IsFirst(t.keys, dimensions, RemainingPart(t.keys, dimensions, t.keys.rows[i]), i)
    ensures Group(t, dimensions, g) != [] && Group(t, dimensions, g)[0].block == t.blocks[i]
  {
    GroupIsAscending(t.keys, dimensions, g);
    hide RemainingKeys, RemainingPart;
    var indices := GroupIndices(t.keys, dimensions, g);
    var k :| 0 <= k < |indices| && indices[k] == i;
    assert indices[0] in indices && indices[0] <= i;
    RemainingPartIsGroup(t.keys, dimensions, i, g);
    RemainingPartIsGroup(t.keys, dimensions, indices[0], g);
    assert RemainingPart(t.keys, dimensions, t.keys.rows[indices[0]]) == RemainingPart(t.keys, dimensions, t.keys.rows[i]);
  }

  /** The components of a moved block, and of its gradients, are those of the
      first block with that remaining key. */
  lemma ComponentsAreFirst(axis: Axis, t: TensorMap, dimensions: seq<string>, newKeys: Option<seq<Row>>, sort: bool, parameter: Option<string>, i: nat)
    requires CanMoveKeys(axis, t, dimensions, newKeys, sort) && HasData(t.blocks[0], parameter)
    requires i < |t.keys.rows| == |t.blocks| && IsFirst(t.keys, dimensions, RemainingPart(t.keys, dimensions, t.keys.rows[i]), i)
    ensures ComponentsOf(BlockAt(Moved(axis, t, dimensions, newKeys, sort), RemainingPart(t.keys, dimensions, t.keys.rows[i])), parameter)
         == ComponentsOf(t.blocks[i], parameter)
  {
    RemainingKeysAreValid(t.keys, dimensions);
    MovedCount(axis, t, dimensions, newKeys, sort);
    var g := GroupOf(t.keys, dimensions, i);
    MovedBlock(axis, t, dimensions, newKeys, sort, g);
    GroupCanMerge(axis, t, dimensions, newKeys, sort, parameter, g);
    FirstInGroup(t, dimensions, g, i);
    hide CanMoveKeys, CanMerge, GroupIndices, RemainingKeys, Moved, RemainingPart, BlockAt, Merged, ComponentsOf, GroupFails, MergeFails, Mergeable;
    RemainingPartIsGroup(t.keys, dimensions, i, g);
    BlockAtKey(Moved(axis, t, dimensions, newKeys, sort), g, RemainingPart(t.keys, dimensions, t.keys.rows[i]));
    MergedComponents(axis, dimensions, newKeys, Group(t, dimensions, g), sort, parameter);
  }

  lemma RemainingIsProjection(keys: Labels, dimensions: seq<string>, j: nat)
    requires RemainingPositions(keys, dimensions) != [] && j < |keys.rows|
    ensures |Projections(keys.rows, RemainingPositions(keys, dimensions))| == |keys.rows|
    ensures Projections(keys.rows, RemainingPositions(keys, dimensions))[j] == RemainingPart(keys, dimensions, keys.rows[j])
  {}

  lemma FirstIsPosition(keys: Labels, dimensions: seq<string>, newKey: Row, i: nat)
    requires RemainingPositions(keys, dimensions) != [] && IsFirst(keys, dimensions, newKey, i)
    ensures Position(Projections(keys.rows, RemainingPositions(keys, dimensions)), newKey) == Some(i)
  {
    var all := Projections(keys.rows, RemainingPositions(keys, dimensions));
    RemainingIsProjection(keys, dimensions, i);
    var j := Position(all, newKey).value;
    RemainingIsProjection(keys, dimensions, j);
    assert all[i] == newKey && newKey !in all[..j];
    assert j <= i;
  }

  /** Remaining keys are listed in the order of the first keys they come from. */
  lemma FirstsAscend(keys: Labels, dimensions: seq<string>, l: nat, h: nat, i: nat, j: nat)
    requires l < h < |RemainingKeys(keys, dimensions).rows|
    requires IsFirst(keys, dimensions, RemainingKeys(keys, dimensions).rows[l], i)
    requires IsFirst(keys, dimensions, RemainingKeys(keys, dimensions).rows[h], j)
    ensures i < j
  {
    var rest := RemainingPositions(keys, dimensions);
    FirstPlacesAscend(Projections(keys.rows, rest), l, h);
    FirstIsPosition(keys, dimensions, RemainingKeys(keys, dimensions).rows[l], i);
    FirstIsPosition(keys, dimensions, RemainingKeys(keys, dimensions).rows[h], j);
  }

  /** The first key for both removals is the first for the first removal, and
      what is left of it is the first for the second. */
  lemma FirstsCompose(keys: Labels, first: seq<string>, second: seq<string>, i: nat, h: nat)
    requires ValidLabels(keys) && Splits(keys, first, second) && i < |keys.rows|
    requires IsFirst(keys, first + second, RemainingPart(keys, first + second, keys.rows[i]), i)
    requires var middle := RemainingKeys(keys, first);
      h < |middle.rows| && middle.rows[h] == RemainingPart(keys, first, keys.rows[i])
    ensures IsFirst(keys, first, RemainingPart(keys, first, keys.rows[i]), i)
    ensures var middle := RemainingKeys(keys, first);
      IsFirst(middle, second, RemainingPart(middle, second, middle.rows[h]), h)
  {
    hide RemainingKeys, RemainingPart, MovedPart, Splits;
    var middle, key := RemainingKeys(keys, first), keys.rows[i];
    PartsSplit(keys, first, second, key);
    forall j | 0 <= j < i ensures RemainingPart(keys, first, keys.rows[j]) != RemainingPart(keys, first, key) {
      PartsSplit(keys, first, second, keys.rows[j]);
    }
    forall l | 0 <= l < h ensures RemainingPart(middle, second, middle.rows[l]) != RemainingPart(middle, second, middle.rows[h]) {
      var j := SourceOfKey(keys, first, l);
      FirstsAscend(keys, first, l, h, j, i);
      PartsSplit(keys, first, second, keys.rows[j]);
    }
  }

  lemma SourceOfKey(keys: Labels, dimensions: seq<string>, l: nat) returns (j: nat)
    requires keys.rows != [] && l < |RemainingKeys(keys, dimensions).rows|
    ensures IsFirst(keys, dimensions, RemainingKeys(keys, dimensions).rows[l], j)
  {
    GroupIsNotEmpty(keys, dimensions, l);
    var indices := GroupIndices(keys, dimensions, l);
    GroupIsAscending(keys, dimensions, l);
    hide RemainingKeys, RemainingPart, GroupIndices;
    assert indices[0] in indices;
    RemainingPartIsGroup(keys, dimensions, indices[0], l);
    j := FirstOf(keys, dimensions, indices[0]);
  }
}
