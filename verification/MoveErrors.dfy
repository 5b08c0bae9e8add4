/** When moving keys returns an error, stated on the blocks of the original tensor
    map and the columns of its keys. */
module MoveErrors {
  import opened Wrappers
  import opened Sequences
  import opened Lexicographic
  import opened LabelSets
  import opened Blocks
  import opened Tensors
  import opened Keys
  import opened Sheets
  import opened Merging
  import opened MergedBlocks
  import opened Groups
  import opened KeyMoves
  import opened TensorMeaning

  /** Two keys agree on every dimension that stays. */
  ghost predicate SameRemaining(keys: Labels, dimensions: seq<string>, a: Row, b: Row)
    requires |a| == |b| == |keys.names|
  {
    forall k :: 0 <= k < |a| && keys.names[k] !in dimensions ==> a[k] == b[k]
  }

  /** Two blocks that can not be merged: with different components, or, when the
      properties are not merged or are given, with different properties. */
  ghost predicate Differ(axis: Axis, newKeys: Option<seq<Row>>, a: Block, b: Block) {
    || a.components != b.components
    || ((axis.Samples? || newKeys.Some?) && a.properties != b.properties)
  }

  ghost predicate HasNested(b: Block) {
    exists p :: p in b.gradients && b.gradients[p].gradients != map[]
  }

  ghost predicate SomeDiffer(axis: Axis, t: TensorMap, dimensions: seq<string>, newKeys: Option<seq<Row>>)
    requires ValidTensor(t)
  {
    exists i, j :: 0 <= i < |t.blocks| && 0 <= j < |t.blocks|
                && SameRemaining(t.keys, dimensions, t.keys.rows[i], t.keys.rows[j]) && Differ(axis, newKeys, t.blocks[i], t.blocks[j])
  }

  lemma MovedColumnsAre(keys: Labels, dimensions: seq<string>)
    requires ValidLabels(keys) && KnownDimensions(keys, dimensions)
    ensures forall k :: 0 <= k < |keys.names| ==> (k in RemainingPositions(keys, dimensions) <==> keys.names[k] !in dimensions)
  {
    PositionsAreDistinct(keys.names, dimensions);
    var positions := MovedPositions(keys, dimensions);
    forall k | 0 <= k < |keys.names| ensures k in positions <==> keys.names[k] in dimensions {
      if keys.names[k] in dimensions {
        var d :| 0 <= d < |dimensions| && dimensions[d] == keys.names[k];
        assert keys.names[positions[d]] == keys.names[k] && positions[d] in positions;
      } else {
        assert forall d :: 0 <= d < |positions| ==> keys.names[positions[d]] == dimensions[d] && dimensions[d] in dimensions;
      }
    }
  }

  lemma SameRemainingExactly(keys: Labels, dimensions: seq<string>, a: Row, b: Row)
    requires ValidLabels(keys) && KnownDimensions(keys, dimensions) && |a| == |b| == |keys.names|
    ensures SameRemaining(keys, dimensions, a, b) <==> RemainingPart(keys, dimensions, a) == RemainingPart(keys, dimensions, b)
  {
    MovedColumnsAre(keys, dimensions);
    var rest := RemainingPositions(keys, dimensions);
    if SameRemaining(keys, dimensions, a, b) {
      forall r | 0 <= r < |rest| ensures Project(a, rest)[r] == Project(b, rest)[r] {
        assert rest[r] in rest;
      }
    } else {
      var k :| 0 <= k < |a| && keys.names[k] !in dimensions && a[k] != b[k];
      var r :| 0 <= r < |rest| && rest[r] == k;
      assert Project(a, rest)[r] != Project(b, rest)[r];
    }
  }

  lemma NestedIsStructure(a: Block, b: Block)
    requires SameStructure(a, b)
    ensures HasNested(a) ==> HasNested(b)
  {
    if p :| p in a.gradients && a.gradients[p].gradients != map[] {
      SameStructureOfGradients(a, b, p);
      var q :| q in a.gradients[p].gradients;
      SameStructureOfGradients(a.gradients[p], b.gradients[p], q);
      assert q in b.gradients[p].gradients;
    }
  }

  lemma NestedEverywhere(t: TensorMap, i: nat)
    requires ValidTensor(t) && i < |t.blocks|
    ensures HasNested(t.blocks[i]) <==> HasNested(t.blocks[0])
  {
    NestedIsStructure(t.blocks[0], t.blocks[i]);
    NestedIsStructure(t.blocks[i], t.blocks[0]);
  }

  lemma FailsByDifference(axis: Axis, newKeys: Option<seq<Row>>, kbs: seq<KeyAndBlock>)
    requires kbs != []
    ensures MergeFails(axis, newKeys, kbs) <==>
      HasNested(kbs[0].block) || exists k :: 0 <= k < |kbs| && Differ(axis, newKeys, kbs[0].block, kbs[k].block)
  {
    if k :| 0 <= k < |kbs| && kbs[k].block.components != kbs[0].block.components {
      assert Differ(axis, newKeys, kbs[0].block, kbs[k].block);
    }
    if k :| 0 <= k < |kbs| && (axis.Samples? || newKeys.Some?) && kbs[k].block.properties != kbs[0].block.properties {
      assert Differ(axis, newKeys, kbs[0].block, kbs[k].block);
    }
  }

  lemma FailsByPairs(axis: Axis, newKeys: Option<seq<Row>>, kbs: seq<KeyAndBlock>)
    requires kbs != []
    ensures MergeFails(axis, newKeys, kbs) <==>
      || HasNested(kbs[0].block)
      || exists x, y :: 0 <= x < |kbs| && 0 <= y < |kbs| && Differ(axis, newKeys, kbs[x].block, kbs[y].block)
  {
    FailsByDifference(axis, newKeys, kbs);
    hide MergeFails, HasNested;
    forall x, y | 0 <= x < |kbs| && 0 <= y < |kbs| && Differ(axis, newKeys, kbs[x].block, kbs[y].block)
      ensures exists k :: 0 <= k < |kbs| && Differ(axis, newKeys, kbs[0].block, kbs[k].block)
    {
      assert Differ(axis, newKeys, kbs[0].block, kbs[x].block) || Differ(axis, newKeys, kbs[0].block, kbs[y].block);
    }
  }

  /** Two blocks of group `g` that can not be merged. */
  ghost predicate DifferInGroup(axis: Axis, t: TensorMap, dimensions: seq<string>, newKeys: Option<seq<Row>>, g: nat)
    requires |t.blocks| == |t.keys.rows|
  {
    exists i, j :: i in GroupIndices(t.keys, dimensions, g) && j in GroupIndices(t.keys, dimensions, g)
                && Differ(axis, newKeys, t.blocks[i], t.blocks[j])
  }

  lemma DifferInGroupExactly(axis: Axis, t: TensorMap, dimensions: seq<string>, newKeys: Option<seq<Row>>, g: nat)
    requires |t.blocks| == |t.keys.rows|
    ensures var kbs := Group(t, dimensions, g);
      DifferInGroup(axis, t, dimensions, newKeys, g) <==>
        exists x, y :: 0 <= x < |kbs| && 0 <= y < |kbs| && Differ(axis, newKeys, kbs[x].block, kbs[y].block)
  {
    hide Differ;
    var indices, kbs := GroupIndices(t.keys, dimensions, g), Group(t, dimensions, g);
    if DifferInGroup(axis, t, dimensions, newKeys, g) {
      var i, j :| i in indices && j in indices && Differ(axis, newKeys, t.blocks[i], t.blocks[j]);
      var x :| 0 <= x < |indices| && indices[x] == i;
      var y :| 0 <= y < |indices| && indices[y] == j;
      assert Differ(axis, newKeys, kbs[x].block, kbs[y].block);
    }
    if x, y :| 0 <= x < |kbs| && 0 <= y < |kbs| && Differ(axis, newKeys, kbs[x].block, kbs[y].block) {
      assert indices[x] in indices && indices[y] in indices;
    }
  }

  /** A group fails exactly if it has nested gradients, or two blocks that differ. */
  lemma GroupFailsExactly(axis: Axis, t: TensorMap, dimensions: seq<string>, newKeys: Option<seq<Row>>, g: nat)
    requires ValidTensor(t) && t.keys.rows != [] && g < GroupCount(t, dimensions)
    ensures GroupFails(axis, t, dimensions, newKeys, g) <==> HasNested(t.blocks[0]) || DifferInGroup(axis, t, dimensions, newKeys, g)
  {
    GroupIsNotEmpty(t.keys, dimensions, g);
    KeysAreDistinct(t);
    var first := GroupIndices(t.keys, dimensions, g)[0];
    assert first in GroupIndices(t.keys, dimensions, g);
    NestedEverywhere(t, first);
    assert Group(t, dimensions, g) != [] && Group(t, dimensions, g)[0].block == t.blocks[first];
    hide ValidTensor, GroupIndices, RemainingKeys, MergeFails, HasNested, Differ, Group, DifferInGroup;
    FailsByPairs(axis, newKeys, Group(t, dimensions, g));
    DifferInGroupExactly(axis, t, dimensions, newKeys, g);
  }

  /** Moving keys fails exactly for unknown dimensions, gradients of gradients, or
      two blocks that would be merged, but have different components or, where it
      matters, different properties. */
  lemma MoveFailsExactly(axis: Axis, t: TensorMap, dimensions: seq<string>, newKeys: Option<seq<Row>>)
    requires ValidTensor(t) && t.keys.rows != [] && Distinct(dimensions)
    ensures MoveFails(axis, t, dimensions, newKeys) <==>
      || (exists d :: d in dimensions && d !in t.keys.names)
      || HasNested(t.blocks[0]) || SomeDiffer(axis, t, dimensions, newKeys)
  {
    if forall d :: d in dimensions ==> d in t.keys.names {
      assert KnownDimensions(t.keys, dimensions);
      KeysAreDistinct(t);
      var g0 := GroupOf(t.keys, dimensions, 0);
      GroupFailsExactly(axis, t, dimensions, newKeys, g0);
      hide GroupFails, HasNested, Differ, GroupIndices, RemainingKeys;
      if HasNested(t.blocks[0]) {
        assert GroupFails(axis, t, dimensions, newKeys, g0);
      } else if SomeDiffer(axis, t, dimensions, newKeys) {
        var g := DifferenceFails(axis, t, dimensions, newKeys);
        assert GroupFails(axis, t, dimensions, newKeys, g);
      }
      forall g | 0 <= g < GroupCount(t, dimensions) && GroupFails(axis, t, dimensions, newKeys, g)
        ensures HasNested(t.blocks[0]) || SomeDiffer(axis, t, dimensions, newKeys)
      {
        FailureDiffers(axis, t, dimensions, newKeys, g);
      }
    }
  }

  lemma DifferenceFails(axis: Axis, t: TensorMap, dimensions: seq<string>, newKeys: Option<seq<Row>>) returns (g: nat)
    requires ValidTensor(t) && t.keys.rows != [] && KnownDimensions(t.keys, dimensions) && SomeDiffer(axis, t, dimensions, newKeys)
    ensures g < GroupCount(t, dimensions) && GroupFails(axis, t, dimensions, newKeys, g)
  {
    KeysAreDistinct(t);
    hide Differ, RemainingKeys, RemainingPart, GroupFails, SameRemaining, GroupIndices;
    var i, j :| 0 <= i < |t.blocks| && 0 <= j < |t.blocks|
      && SameRemaining(t.keys, dimensions, t.keys.rows[i], t.keys.rows[j]) && Differ(axis, newKeys, t.blocks[i], t.blocks[j]);
    SameRemainingExactly(t.keys, dimensions, t.keys.rows[i], t.keys.rows[j]);
    g := GroupOf(t.keys, dimensions, i);
    var h := GroupOf(t.keys, dimensions, j);
    RemainingPartIsGroup(t.keys, dimensions, i, g);
    RemainingPartIsGroup(t.keys, dimensions, j, h);
    GroupFailsExactly(axis, t, dimensions, newKeys, g);
  }

  lemma FailureDiffers(axis: Axis, t: TensorMap, dimensions: seq<string>, newKeys: Option<seq<Row>>, g: nat)
    requires ValidTensor(t) && t.keys.rows != [] && KnownDimensions(t.keys, dimensions)
    requires g < GroupCount(t, dimensions) && GroupFails(axis, t, dimensions, newKeys, g)
    ensures HasNested(t.blocks[0]) || SomeDiffer(axis, t, dimensions, newKeys)
  {
    GroupFailsExactly(axis, t, dimensions, newKeys, g);
    KeysAreDistinct(t);
    hide Differ, RemainingKeys, RemainingPart, GroupFails, SameRemaining, HasNested;
    if !HasNested(t.blocks[0]) {
      var i, j :| i in GroupIndices(t.keys, dimensions, g) && j in GroupIndices(t.keys, dimensions, g) && Differ(axis, newKeys, t.blocks[i], t.blocks[j]);
      RemainingPartIsGroup(t.keys, dimensions, i, g);
      RemainingPartIsGroup(t.keys, dimensions, j, g);
      SameRemainingExactly(t.keys, dimensions, t.keys.rows[i], t.keys.rows[j]);
    }
  }
}
