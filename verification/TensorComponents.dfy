/** Moving a component to the properties in all blocks of a tensor map. */
module TensorComponents {
  import opened Wrappers
  import opened Blocks
  import opened Tensors
  import opened ComponentMoves
  import opened BlockMoves
  import opened TensorBlocks

  /** A new block with the same contents, and its own gradients. */
  method CloneBlock(b: Block) returns (r: TensorBlock)
    ensures fresh(r.Repr) && r.Consistent() && r.Model == b
    decreases b
  {
    r := new TensorBlock.Create(b.values, b.samples, b.components, b.properties);
    var todo := b.gradients.Keys;
    assert b.(gradients := map[]) == WithGradients(b, b.gradients.Keys - todo) by {
      assert WithGradients(b, b.gradients.Keys - todo).gradients == map[];
    }
    while todo != {}
      invariant todo <= b.gradients.Keys
      invariant fresh(r.Repr) && r.Consistent() && r.Model == WithGradients(b, b.gradients.Keys - todo)
      decreases todo
    {
      hide TensorBlock.Consistent;
      var p :| p in todo;
      OneMoreGradient(b, b.gradients.Keys - todo, p);
      var gradient := CloneBlock(b.gradients[p]);
      assert b.gradients.Keys - (todo - {p}) == (b.gradients.Keys - todo) + {p};
      AddClone(r, p, gradient);
      todo := todo - {p};
    }
    assert WithGradients(b, b.gradients.Keys).gradients == b.gradients;
  }

  method AddClone(r: TensorBlock, p: string, gradient: TensorBlock)
    requires r.Consistent() && gradient.Consistent() && r.Repr !! gradient.Repr
    requires p !in r.Model.gradients
    modifies r
    ensures r.Consistent() && r.Repr == old(r.Repr) + gradient.Repr
    ensures r.Model == old(r.Model).(gradients := old(r.Model.gradients)[p := gradient.Model])
  {
    assert r.Model == r.Assembled();
    r.InsertGradient(p, gradient);
  }

  /** All blocks with the component moved. */
  ghost function ComponentsMoved(t: TensorMap, dimensions: seq<string>): TensorMap
    requires ValidTensor(t)
  {
    TensorMap(t.keys, seq(|t.blocks|, i requires 0 <= i < |t.blocks| => MoveComponent(t.blocks[i], dimensions)))
  }

  /** Blocks with the same structure have the component at the same place. */
  lemma SameAxis(a: Block, b: Block, dimensions: seq<string>)
    requires MetadataOf(a) == MetadataOf(b)
    ensures ComponentAxis(a, dimensions) == ComponentAxis(b, dimensions) && CanMove(a, dimensions) == CanMove(b, dimensions)
  {
    assert NamesOf(a.components) == NamesOf(b.components);
  }

  ghost predicate Moves(b: Block, dimensions: seq<string>) {
    dimensions != [] && ComponentAxis(b, dimensions).Some?
  }

  lemma MovedLabels(b: Block, dimensions: seq<string>)
    requires ValidBlock(b) && Moves(b, dimensions)
    ensures var r, axis := MoveComponent(b, dimensions), ComponentAxis(b, dimensions).value;
      && r.samples == b.samples && NamesOf(r.components) == RemoveAt(NamesOf(b.components), axis)
      && r.properties.names == dimensions + b.properties.names
  {
    var axis := ComponentAxis(b, dimensions).value;
    assert NamesOf(RemoveAt(b.components, axis)) == RemoveAt(NamesOf(b.components), axis);
    assert NamesOf(b.components)[axis] == b.components[axis].names;
  }

  lemma MovedGradients(b: Block, dimensions: seq<string>, p: string)
    requires ValidBlock(b) && Moves(b, dimensions)
    ensures MoveComponent(b, dimensions).gradients.Keys == b.gradients.Keys
    ensures p in b.gradients ==> ValidBlock(b.gradients[p]) && MoveComponent(b, dimensions).gradients[p] == MoveComponent(b.gradients[p], dimensions)
  {}

  lemma NotMoved(b: Block, dimensions: seq<string>)
    requires ValidBlock(b) && !Moves(b, dimensions)
    ensures MoveComponent(b, dimensions) == b
  {}

  lemma MovedMetadata(a: Block, b: Block, dimensions: seq<string>)
    requires ValidBlock(a) && ValidBlock(b) && MetadataOf(a) == MetadataOf(b)
    ensures MetadataOf(MoveComponent(a, dimensions)) == MetadataOf(MoveComponent(b, dimensions))
  {
    hide ValidBlock, MoveComponent, NamesOf, ComponentAxis;
    SameAxis(a, b, dimensions);
    if Moves(a, dimensions) {
      MovedLabels(a, dimensions);
      MovedLabels(b, dimensions);
    } else {
      NotMoved(a, dimensions);
      NotMoved(b, dimensions);
    }
  }

  lemma {:induction false} MovedGradientMap(a: Block, b: Block, dimensions: seq<string>)
    requires ValidBlock(a) && ValidBlock(b) && MetadataOf(a) == MetadataOf(b) && GradientMapOf(a) == GradientMapOf(b)
    ensures GradientMapOf(MoveComponent(a, dimensions)) == GradientMapOf(MoveComponent(b, dimensions))
    decreases a
  {
    hide ValidBlock, MoveComponent, GradientMapOf, MetadataOf, ComponentAxis;
    SameAxis(a, b, dimensions);
    if Moves(a, dimensions) {
      SameStructureOfGradients(a, b, "");
      MovedGradients(a, dimensions, "");
      MovedGradients(b, dimensions, "");
      var ma, mb := MoveComponent(a, dimensions), MoveComponent(b, dimensions);
      forall p | p in ma.gradients
        ensures MetadataOf(ma.gradients[p]) == MetadataOf(mb.gradients[p]) && GradientMapOf(ma.gradients[p]) == GradientMapOf(mb.gradients[p])
      {
        MovedGradients(a, dimensions, p);
        MovedGradients(b, dimensions, p);
        SameStructureOfGradients(a, b, p);
        MovedMetadata(a.gradients[p], b.gradients[p], dimensions);
        MovedGradientMap(a.gradients[p], b.gradients[p], dimensions);
      }
      SameGradientMaps(ma, mb);
    } else {
      NotMoved(a, dimensions);
      NotMoved(b, dimensions);
    }
  }

  /** The blocks still have the same structure as each other. */
  lemma MovedStructure(a: Block, b: Block, dimensions: seq<string>)
    requires ValidBlock(a) && ValidBlock(b) && SameStructure(a, b)
    ensures SameStructure(MoveComponent(a, dimensions), MoveComponent(b, dimensions))
  {
    hide ValidBlock, MoveComponent, GradientMapOf, MetadataOf, ComponentAxis;
    SameAxis(a, b, dimensions);
    MovedMetadata(a, b, dimensions);
    MovedGradientMap(a, b, dimensions);
    if Moves(a, dimensions) {
      MovedLabels(a, dimensions);
      MovedLabels(b, dimensions);
    } else {
      NotMoved(a, dimensions);
      NotMoved(b, dimensions);
    }
  }

  ghost predicate AllDemand(t: TensorMap, dimensions: seq<string>) {
    forall i :: 0 <= i < |t.blocks| ==> MoveDemands(t.blocks[i], dimensions)
  }

  ghost predicate AllCanMove(t: TensorMap, dimensions: seq<string>) {
    forall i :: 0 <= i < |t.blocks| ==> CanMove(t.blocks[i], dimensions)
  }

  /** The tensor map stays valid, although nothing checks it again. */
  lemma ComponentsMovedIsValid(t: TensorMap, dimensions: seq<string>)
    requires ValidTensor(t) && AllDemand(t, dimensions) && AllCanMove(t, dimensions)
    ensures ValidTensor(ComponentsMoved(t, dimensions))
  {
    hide ValidBlock, SameStructure, CanMove, MoveDemands;
    var r := ComponentsMoved(t, dimensions);
    forall i | 0 <= i < |r.blocks| ensures ValidBlock(r.blocks[i]) && SameStructure(r.blocks[0], r.blocks[i]) {
      MoveComponentIsValid(t.blocks[i], dimensions);
      MovedStructure(t.blocks[0], t.blocks[i], dimensions);
    }
  }

  lemma BlocksAreValid(t: TensorMap)
    requires ValidTensor(t)
    ensures forall i :: 0 <= i < |t.blocks| ==> ValidBlock(t.blocks[i])
  {}

  lemma NothingMoves(t: TensorMap)
    requires ValidTensor(t)
    ensures ComponentsMoved(t, []) == t && AllCanMove(t, [])
  {
    hide SameStructure;
    forall i | 0 <= i < |t.blocks| ensures ComponentsMoved(t, []).blocks[i] == t.blocks[i] {
      NotMoved(t.blocks[i], []);
    }
    assert ComponentsMoved(t, []).blocks == t.blocks;
  }

  /** Move a component in a copy of one block. */
  method MoveInCopy(b: Block, dimensions: seq<string>) returns (r: Result<Block>)
    requires ValidBlock(b) && MoveDemands(b, dimensions)
    ensures r.Ok? <==> CanMove(b, dimensions)
    ensures r.Ok? ==> r.value == MoveComponent(b, dimensions)
    ensures r.Err? ==> r.error == InvalidParameter
  {
    hide ValidBlock, MoveDemands, CanMove;
    var block := CloneBlock(b);
    var moved := block.ComponentsToProperties(dimensions);
    if moved.Err? {
      return Err(moved.error);
    }
    return Ok(block.Value());
  }

  method MoveAll(blocks: seq<Block>, dimensions: seq<string>) returns (r: Result<seq<Block>>)
    requires forall i :: 0 <= i < |blocks| ==> ValidBlock(blocks[i]) && MoveDemands(blocks[i], dimensions)
    ensures r.Ok? <==> forall i :: 0 <= i < |blocks| ==> CanMove(blocks[i], dimensions)
    ensures r.Ok? ==> |r.value| == |blocks| && forall i :: 0 <= i < |blocks| ==> r.value[i] == MoveComponent(blocks[i], dimensions)
    ensures r.Err? ==> r.error == InvalidParameter
  {
    hide CanMove, MoveDemands, MoveComponent, ValidBlock;
    var moved: seq<Block> := [];
    for i := 0 to |blocks|
      invariant |moved| == i && forall k :: 0 <= k < i ==> moved[k] == MoveComponent(blocks[k], dimensions)
      invariant forall k :: 0 <= k < i ==> CanMove(blocks[k], dimensions)
    {
      var block := MoveInCopy(blocks[i], dimensions);
      if block.Err? {
        return Err(block.error);
      }
      moved := moved + [block.value];
    }
    return Ok(moved);
  }

  /** Move the component with the given name to the properties, in copies of all
      blocks; the tensor map itself does not change. */
  method ComponentsToProperties(t: TensorMap, dimensions: seq<string>) returns (r: Result<TensorMap>)
    requires ValidTensor(t) && AllDemand(t, dimensions)
    ensures r.Ok? <==> AllCanMove(t, dimensions)
    ensures r.Ok? ==> ValidTensor(r.value) && r.value == ComponentsMoved(t, dimensions)
    ensures r.Err? ==> r.error == InvalidParameter
  {
    if dimensions == [] {
      NothingMoves(t);
      return Ok(t);
    }
    BlocksAreValid(t);
    hide CanMove, MoveDemands, MoveComponent, ValidBlock, SameStructure;
    var blocks := MoveAll(t.blocks, dimensions);
    if blocks.Err? {
      return Err(blocks.error);
    }
    ComponentsMovedIsValid(t, dimensions);
    assert blocks.value == ComponentsMoved(t, dimensions).blocks;
    return Ok(TensorMap(t.keys, blocks.value));
  }
}
