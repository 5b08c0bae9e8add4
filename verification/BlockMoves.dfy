/** Moving a component of a block, and of all its gradients, to the properties. */
module BlockMoves {
  import opened Wrappers
  import opened Sequences
  import opened Lexicographic
  import opened RowMajor
  import opened Arrays
  import opened LabelSets
  import opened Blocks
  import opened PropertyRanges
  import opened ComponentMoves

  /** Every entry of the component in front of every old property. */
  function JoinedProperties(component: Labels, properties: Labels): Labels {
    Labels(component.names + properties.names, Products(component.rows, Repeat(|component.rows|, properties.rows)))
  }

  function ComponentAxis(b: Block, dimensions: seq<string>): Option<nat> {
    Position(NamesOf(b.components), dimensions)
  }

  predicate CanMove(b: Block, dimensions: seq<string>) {
    dimensions == [] || ComponentAxis(b, dimensions).Some?
  }

  /** What the caller must see to, or the original aborts: the properties have a
      dimension, and none is called like the moved one. */
  ghost predicate MoveDemands(b: Block, dimensions: seq<string>) {
    dimensions != [] && ComponentAxis(b, dimensions).Some? ==>
      b.properties.names != [] && Distinct(dimensions + b.properties.names)
  }

  /** The new shape: the last axis gets the new properties, and the axis of the
      component is removed. */
  function ShapeWithout(shape: seq<nat>, axis: nat, properties: nat): seq<nat>
    requires axis + 1 < |shape|
  {
    RemoveAt(shape[|shape| - 1 := properties], axis + 1)
  }

  /** The block with the component moved, recursively for its gradients. */
  ghost function MoveComponent(b: Block, dimensions: seq<string>): Block
    requires ValidBlock(b)
    decreases b
  {
    if dimensions == [] || ComponentAxis(b, dimensions).None? then b
    else
      var axis := ComponentAxis(b, dimensions).value;
      var properties := JoinedProperties(b.components[axis], b.properties);
      Block(MoveAxis(b.values, axis + 1, |b.components|, ShapeWithout(b.values.shape, axis, |properties.rows|)),
            b.samples, RemoveAt(b.components, axis), properties,
            map p | p in b.gradients :: MoveComponent(b.gradients[p], dimensions))
  }

  lemma ShapeIsMoved(b: Block, axis: nat)
    requires ValidParts(b) && axis < |b.components|
    ensures var properties := JoinedProperties(b.components[axis], b.properties);
      && |properties.rows| == |b.components[axis].rows| * |b.properties.rows|
      && ShapeWithout(b.values.shape, axis, |properties.rows|)
         == MovedShape(|b.samples.rows|, Counts(b.components), |b.properties.rows|, axis)
         == BlockShape(b.samples, RemoveAt(b.components, axis), properties)
  {
    var component, part := b.components[axis].rows, b.properties.rows;
    ProductsLength(component, Repeat(|component|, part));
    TotalLengthOfRepeat(|component|, part);
    assert Counts(RemoveAt(b.components, axis)) == RemoveAt(Counts(b.components), axis);
  }

  /** Joined property `m * P + p` is about component entry `m` and property `p`. */
  lemma JoinedPropertyAt(component: Labels, properties: Labels, m: nat, p: nat)
    requires m < |component.rows| && p < |properties.rows|
    ensures m * |properties.rows| + p < |JoinedProperties(component, properties).rows|
    ensures JoinedProperties(component, properties).rows[m * |properties.rows| + p] == component.rows[m] + properties.rows[p]
  {
    var parts := Repeat(|component.rows|, properties.rows);
    var start := m * |properties.rows|;
    assert parts[..m] == Repeat(m, properties.rows);
    TotalLengthOfRepeat(m, properties.rows);
    ProductsAt(component.rows, parts, m, start, p);
  }

  lemma JoinedPropertiesAreValid(component: Labels, properties: Labels)
    requires ValidLabels(component) && ValidLabels(properties)
    requires component.names != [] && Distinct(component.names + properties.names)
    ensures ValidLabels(JoinedProperties(component, properties))
  {
    var parts := Repeat(|component.rows|, properties.rows);
    var all := Products(component.rows, parts);
    ProductsAreDistinct(component.rows, parts, |component.names|);
    forall q | 0 <= q < |all| ensures |all[q]| == |component.names| + |properties.names| {
      var i := InProducts(component.rows, parts, q);
      var p :| 0 <= p < |parts[i]| && parts[i][p] == all[q][|component.rows[i]|..];
    }
  }

  /** The gradients have the components of the block as their last ones, so the
      component is found there too, at the same distance from the end. */
  lemma GradientAxis(b: Block, p: string, dimensions: seq<string>) returns (front: seq<Labels>, at: nat)
    requires ValidBlock(b) && p in b.gradients && ComponentAxis(b, dimensions).Some?
    ensures b.gradients[p].components == front + b.components
    ensures at == |front| + ComponentAxis(b, dimensions).value
    ensures ComponentAxis(b.gradients[p], dimensions) == Some(at)
  {
    var g := b.gradients[p];
    assert ValidParts(g) && GradientFits(b, g);
    front := g.components[..|g.components| - |b.components|];
    at := |front| + ComponentAxis(b, dimensions).value;
    assert g.components == front + b.components;
    AxisBehind(front, b.components, dimensions, ComponentAxis(b, dimensions).value, at);
  }

  lemma AxisBehind(front: seq<Labels>, components: seq<Labels>, dimensions: seq<string>, axis: nat, at: nat)
    requires Position(NamesOf(components), dimensions) == Some(axis) && at == |front| + axis
    requires Distinct(NamesOf(front + components))
    ensures Position(NamesOf(front + components), dimensions) == Some(at)
  {
    assert NamesOf(front + components)[at] == dimensions;
    PositionOf(NamesOf(front + components), at);
  }

  lemma NamesOfRest(components: seq<Labels>, axis: nat)
    requires axis < |components| && Distinct(NamesOf(components)) && ValidComponents(components)
    ensures Distinct(NamesOf(RemoveAt(components, axis))) && ValidComponents(RemoveAt(components, axis))
  {
    var rest := RemoveAt(components, axis);
    assert forall i :: 0 <= i < |rest| ==> rest[i] == components[if i < axis then i else i + 1];
  }

  lemma MovedPartsAreValid(b: Block, dimensions: seq<string>)
    requires ValidBlock(b) && dimensions != [] && ComponentAxis(b, dimensions).Some? && MoveDemands(b, dimensions)
    ensures ValidParts(MoveComponent(b, dimensions))
  {
    var axis := ComponentAxis(b, dimensions).value;
    ShapeIsMoved(b, axis);
    NamesOfRest(b.components, axis);
    JoinedPropertiesAreValid(b.components[axis], b.properties);
    MovedIsValid(b.values, |b.samples.rows|, Counts(b.components), |b.properties.rows|, axis);
  }

  lemma MovedGradientFits(b: Block, dimensions: seq<string>, p: string)
    requires ValidBlock(b) && p in b.gradients
    requires dimensions != [] && ComponentAxis(b, dimensions).Some?
    ensures GradientFits(MoveComponent(b, dimensions), MoveComponent(b.gradients[p], dimensions))
  {
    var g := b.gradients[p];
    assert ValidParts(g) && GradientFits(b, g);
    var front, at := GradientAxis(b, p, dimensions);
    MovedShapeOf(b, dimensions);
    MovedShapeOf(g, dimensions);
    MovedGradientComponents(b, g, front, ComponentAxis(b, dimensions).value, at);
    FitsAfterMove(b, g, MoveComponent(b, dimensions), MoveComponent(g, dimensions), front);
  }

  /** The labels of a moved block. */
  lemma MovedShapeOf(b: Block, dimensions: seq<string>)
    requires ValidBlock(b) && dimensions != [] && ComponentAxis(b, dimensions).Some?
    ensures var moved, axis := MoveComponent(b, dimensions), ComponentAxis(b, dimensions).value;
      && moved.samples == b.samples
      && moved.components == RemoveAt(b.components, axis)
      && moved.properties == JoinedProperties(b.components[axis], b.properties)
  {}

  lemma MovedGradientComponents(b: Block, g: Block, front: seq<Labels>, axis: nat, at: nat)
    requires g.components == front + b.components && axis < |b.components| && at == |front| + axis
    requires Distinct(NamesOf(g.components)) && ValidComponents(g.components)
    ensures RemoveAt(g.components, at) == front + RemoveAt(b.components, axis)
    ensures g.components[at] == b.components[axis]
    ensures ValidComponents(RemoveAt(g.components, at))
  {
    NamesOfRest(g.components, at);
    RestBehind(front, b.components, axis, at);
  }

  lemma RestBehind(front: seq<Labels>, components: seq<Labels>, axis: nat, at: nat)
    requires axis < |components| && at == |front| + axis
    ensures RemoveAt(front + components, at) == front + RemoveAt(components, axis)
    ensures (front + components)[at] == components[axis]
  {}

  lemma FitsAfterMove(b: Block, g: Block, moved: Block, movedGradient: Block, front: seq<Labels>)
    requires GradientFits(b, g)
    requires moved.samples == b.samples && movedGradient.samples == g.samples
    requires movedGradient.components == front + moved.components && ValidComponents(movedGradient.components)
    requires movedGradient.properties == moved.properties
    ensures GradientFits(moved, movedGradient)
  {}

  /** Moving a component keeps the invariant of the whole tree. */
  lemma {:induction false} MoveComponentIsValid(b: Block, dimensions: seq<string>)
    requires ValidBlock(b) && CanMove(b, dimensions) && MoveDemands(b, dimensions)
    ensures ValidBlock(MoveComponent(b, dimensions))
    decreases b
  {
    if dimensions != [] {
      MovedPartsAreValid(b, dimensions);
      forall p | p in b.gradients
        ensures ValidParameter(p) && ValidBlock(MoveComponent(b.gradients[p], dimensions))
        ensures GradientFits(MoveComponent(b, dimensions), MoveComponent(b.gradients[p], dimensions))
      {
        var front, at := GradientAxis(b, p, dimensions);
        MoveComponentIsValid(b.gradients[p], dimensions);
        MovedGradientFits(b, dimensions, p);
      }
    }
  }

  /** Component entry `c[axis]` and property `p` of the old block are the joined
      property `c[axis] * P + p` of the new one, under the name of the component
      in front of the names of the properties, and the values follow. */
  ghost predicate BlockMoved(b: Block, moved: Block, axis: nat)
    requires axis < |b.components|
  {
    && moved.samples == b.samples
    && moved.components == RemoveAt(b.components, axis)
    && moved.properties.names == b.components[axis].names + b.properties.names
    && CellsMoved(b.values, moved.values, |b.samples.rows|, Counts(b.components), |b.properties.rows|, axis)
    && forall m, p :: 0 <= m < |b.components[axis].rows| && 0 <= p < |b.properties.rows| ==>
         JoinedAt(b.components[axis].rows[m], b.properties.rows[p], moved.properties.rows, m * |b.properties.rows| + p)
  }

  ghost predicate JoinedAt(entry: Row, property: Row, rows: seq<Row>, q: nat) {
    q < |rows| && rows[q] == entry + property
  }

  ghost predicate TreeMoved(b: Block, dimensions: seq<string>)
    requires ValidBlock(b) && ComponentAxis(b, dimensions).Some?
    decreases b
  {
    && BlockMoved(b, MoveComponent(b, dimensions), ComponentAxis(b, dimensions).value)
    && forall p :: p in b.gradients ==>
         ComponentAxis(b.gradients[p], dimensions).Some? && TreeMoved(b.gradients[p], dimensions)
  }

  predicate BlockOrderKept(b: Block, axis: nat)
    requires axis < |b.components|
  {
    OrderKept(|b.samples.rows|, Counts(b.components), |b.properties.rows|, axis)
  }

  lemma OneBlockMoves(b: Block, dimensions: seq<string>)
    requires ValidBlock(b) && dimensions != [] && ComponentAxis(b, dimensions).Some?
    requires BlockOrderKept(b, ComponentAxis(b, dimensions).value)
    ensures BlockMoved(b, MoveComponent(b, dimensions), ComponentAxis(b, dimensions).value)
  {
    hide Product, OrderKept, InRange, CellsMoved, JoinedProperties, JoinedAt, MoveAxis, RemoveAt;
    var axis := ComponentAxis(b, dimensions).value;
    JoinedNames(b.components[axis], b.properties);
    ShapeIsMoved(b, axis);
    MoveKeepsCells(b.values, |b.samples.rows|, Counts(b.components), |b.properties.rows|, axis);
    JoinedPropertiesAt(b.components[axis], b.properties);
  }

  lemma JoinedNames(component: Labels, properties: Labels)
    ensures JoinedProperties(component, properties).names == component.names + properties.names
  {}

  lemma JoinedPropertiesAt(component: Labels, properties: Labels)
    ensures forall m: nat, p: nat | m < |component.rows| && p < |properties.rows| ::
      JoinedAt(component.rows[m], properties.rows[p], JoinedProperties(component, properties).rows, m * |properties.rows| + p)
  {
    hide JoinedProperties;
    forall m: nat, p: nat | m < |component.rows| && p < |properties.rows|
      ensures JoinedAt(component.rows[m], properties.rows[p], JoinedProperties(component, properties).rows, m * |properties.rows| + p)
    {
      JoinedPropertyAt(component, properties, m, p);
    }
  }

  /** The gradients jump over the same axes, so the order is kept there too. */
  lemma OrderKeptInGradients(b: Block, dimensions: seq<string>, p: string)
    requires ValidBlock(b) && p in b.gradients && ComponentAxis(b, dimensions).Some?
    requires BlockOrderKept(b, ComponentAxis(b, dimensions).value)
    ensures ComponentAxis(b.gradients[p], dimensions).Some?
    ensures BlockOrderKept(b.gradients[p], ComponentAxis(b.gradients[p], dimensions).value)
  {
    var g := b.gradients[p];
    assert ValidParts(g) && GradientFits(b, g);
    var front, at := GradientAxis(b, p, dimensions);
    OrderCarries(b, g, front, ComponentAxis(b, dimensions).value, at);
  }

  lemma OrderCarries(b: Block, g: Block, front: seq<Labels>, axis: nat, at: nat)
    requires GradientFits(b, g) && ValidComponents(b.components)
    requires g.components == front + b.components && axis < |b.components| && at == |front| + axis
    requires BlockOrderKept(b, axis)
    ensures BlockOrderKept(g, at)
  {
    assert Counts(g.components) == Counts(front) + Counts(b.components);
    assert |g.samples.rows| > 0 ==> 0 <= g.samples.rows[0][0] < |b.samples.rows|;
    OrderBehind(|b.samples.rows|, |g.samples.rows|, Counts(front), Counts(b.components), Counts(g.components), |b.properties.rows|, axis, at);
  }

  lemma OrderBehind(n: nat, gradientCount: nat, front: seq<nat>, components: seq<nat>, all: seq<nat>, p: nat, axis: nat, at: nat)
    requires all == front + components && axis < |components| && at == |front| + axis
    requires forall i :: 0 <= i < |all| ==> all[i] > 0
    requires n == 0 ==> gradientCount == 0
    requires OrderKept(n, components, p, axis)
    ensures OrderKept(gradientCount, all, p, at)
  {
    assert forall i :: 0 <= i < |components| ==> components[i] == all[|front| + i];
    EmptyShape(n, components, p);
    EmptyShape(gradientCount, all, p);
    if axis < |components| - 1 {
      assert Between(all, at) == Between(components, axis);
      assert Last(all) == Last(components);
    }
  }

  lemma EmptyShape(n: nat, components: seq<nat>, p: nat)
    requires forall i :: 0 <= i < |components| ==> components[i] > 0
    ensures Product(Shape(n, components, p)) == 0 <==> n == 0 || p == 0
  {
    var shape := Shape(n, components, p);
    ProductZero(shape);
    assert shape[0] == n && shape[|components| + 1] == p;
    assert forall i :: 0 <= i < |components| ==> shape[i + 1] == components[i];
  }

  /** With the order kept, moving a component keeps the meaning of the values of
      the block and of all nested gradients. */
  lemma {:induction false} MoveKeepsMeaning(b: Block, dimensions: seq<string>)
    requires ValidBlock(b) && dimensions != [] && ComponentAxis(b, dimensions).Some?
    requires BlockOrderKept(b, ComponentAxis(b, dimensions).value)
    ensures TreeMoved(b, dimensions)
    decreases b
  {
    OneBlockMoves(b, dimensions);
    forall p | p in b.gradients
      ensures ComponentAxis(b.gradients[p], dimensions).Some? && TreeMoved(b.gradients[p], dimensions)
    {
      OrderKeptInGradients(b, dimensions, p);
      MoveKeepsMeaning(b.gradients[p], dimensions);
    }
  }

  ghost predicate FitsBlock(b: Block, values: Array) {
    ValidArray(values) && values.shape == b.values.shape
  }

  lemma WithValuesIsValid(b: Block, values: Array)
    requires ValidBlock(b) && FitsBlock(b, values)
    ensures ValidBlock(b.(values := values))
  {
    var c := b.(values := values);
    assert ValidParts(c);
    forall p | p in c.gradients ensures ValidParameter(p) && ValidBlock(c.gradients[p]) && GradientFits(c, c.gradients[p]) {
      assert GradientFits(b, b.gradients[p]);
    }
  }

  /** The condition is exact: blocks with these labels keep their meaning
      whatever their values if, and only if, the order is kept. */
  lemma MoveKeepsMeaningExactly(b: Block, dimensions: seq<string>)
    requires ValidBlock(b) && dimensions != [] && ComponentAxis(b, dimensions).Some?
    ensures BlockOrderKept(b, ComponentAxis(b, dimensions).value) <==>
      forall values: Array | FitsBlock(b, values) :: ValidBlock(b.(values := values)) && TreeMoved(b.(values := values), dimensions)
  {
    var axis := ComponentAxis(b, dimensions).value;
    if BlockOrderKept(b, axis) {
      forall values: Array | FitsBlock(b, values)
        ensures ValidBlock(b.(values := values)) && TreeMoved(b.(values := values), dimensions)
      {
        WithValuesIsValid(b, values);
        MoveKeepsMeaning(b.(values := values), dimensions);
      }
    } else {
      var values := MoveLosesCells(|b.samples.rows|, Counts(b.components), |b.properties.rows|, axis);
      assert FitsBlock(b, values);
      WithValuesIsValid(b, values);
      ShapeIsMoved(b, axis);
      assert !TreeMoved(b.(values := values), dimensions);
    }
  }
}
