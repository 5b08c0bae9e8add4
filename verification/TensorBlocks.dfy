/** The mutable block: it owns its array and, recursively, its gradients. */
module TensorBlocks {
  import opened Wrappers
  import opened Sequences
  import opened Lexicographic
  import opened Arrays
  import opened LabelSets
  import opened Blocks
  import opened PropertyRanges
  import opened ComponentMoves
  import opened BlockMoves

  /** Component labels have one dimension and at least one entry. */
  method CheckComponentLabels(components: seq<Labels>) returns (r: Result<()>)
    ensures r.Ok? <==> ValidComponents(components)
    ensures r.Err? ==> r.error == InvalidParameter
  {
    for i := 0 to |components|
      invariant forall k :: 0 <= k < i ==> |components[k].names| == 1 && components[k].rows != []
    {
      if |components[i].names| != 1 {
        return Err(InvalidParameter);
      }
      if |components[i].rows| == 0 {
        return Err(InvalidParameter);
      }
    }
    return Ok(());
  }

  /** The number of different component names. */
  method CountNames(components: seq<Labels>) returns (n: nat)
    ensures n == |components| <==> Distinct(NamesOf(components))
  {
    var seen: set<seq<string>> := {};
    ghost var names := NamesOf(components);
    for i := 0 to |components|
      invariant |seen| <= i
      invariant forall x :: x in seen <==> x in names[..i]
      invariant |seen| == i <==> Distinct(names[..i])
    {
      DistinctAppend(names[..i], names[i]);
      assert names[..i + 1] == names[..i] + [names[i]];
      if components[i].names in seen {
        assert seen + {components[i].names} == seen;
      }
      seen := seen + {components[i].names};
    }
    n := |seen|;
    assert names[..|components|] == names;
  }

  /** The shape of the array agrees with the number of entries in each label. */
  method CheckDataAndLabels(values: Array, samples: Labels, components: seq<Labels>, properties: Labels) returns (r: Result<()>)
    ensures r.Ok? <==> values.shape == BlockShape(samples, components, properties) && Distinct(NamesOf(components))
    ensures r.Err? ==> r.error == InvalidParameter
  {
    var shape := values.shape;
    ghost var wanted := BlockShape(samples, components, properties);
    if |shape| != |components| + 2 {
      return Err(InvalidParameter);
    }
    if shape[0] != |samples.rows| {
      assert shape[0] != wanted[0];
      return Err(InvalidParameter);
    }
    var n := CountNames(components);
    if n != |components| {
      return Err(InvalidParameter);
    }
    var axis := 1;
    for i := 0 to |components|
      invariant axis == i + 1
      invariant shape[..axis] == wanted[..axis]
    {
      assert wanted[axis] == |components[i].rows|;
      if shape[axis] != |components[i].rows| {
        return Err(InvalidParameter);
      }
      axis := axis + 1;
    }
    assert wanted[axis] == |properties.rows|;
    if shape[axis] != |properties.rows| {
      return Err(InvalidParameter);
    }
    assert shape == shape[..axis] + [shape[axis]] && wanted == wanted[..axis] + [wanted[axis]];
    return Ok(());
  }

  /** Append every property behind one entry of the component. */
  method JoinEntry(before: seq<int>, entry: Row, rows: seq<Row>, ghost done: seq<Row>) returns (values: seq<int>)
    requires before == Flatten(done)
    ensures values == Flatten(done + Prefixed(entry, rows))
  {
    values := before;
    ghost var added := Prefixed(entry, rows);
    assert done + added[..0] == done;
    for p := 0 to |rows|
      invariant values == Flatten(done + added[..p])
    {
      TakeOneMore(done, added, p);
      FlattenAppend(done + added[..p], added[p]);
      assert values + entry + rows[p] == values + added[p];
      values := values + entry + rows[p];
    }
    assert added[..|rows|] == added;
  }

  /** The joined properties, one value after the other. */
  method JoinValues(component: seq<Row>, properties: seq<Row>) returns (values: seq<int>)
    ensures values == Flatten(Products(component, Repeat(|component|, properties)))
  {
    values := [];
    ghost var parts := Repeat(|component|, properties);
    for m := 0 to |component|
      invariant values == Flatten(Products(component[..m], parts[..m]))
    {
      values := JoinEntry(values, component[m], properties, Products(component[..m], parts[..m]));
      assert component[..m + 1][..m] == component[..m] && parts[..m + 1][..m] == parts[..m];
    }
    assert component[..|component|] == component && parts[..|parts|] == parts;
  }

  /** Every entry of the component in front of every property. */
  method JoinProperties(component: Labels, properties: Labels) returns (r: Labels)
    requires ValidLabels(component) && ValidLabels(properties) && component.names != []
    ensures r == JoinedProperties(component, properties)
  {
    var values := JoinValues(component.rows, properties.rows);
    var names := component.names + properties.names;
    JoinedRowsHaveSize(component, properties);
    ChunksOfFlatten(JoinedProperties(component, properties).rows, |names|);
    r := FromValues(names, values);
  }

  lemma JoinedRowsHaveSize(component: Labels, properties: Labels)
    requires ValidLabels(component) && ValidLabels(properties)
    ensures OfSize(JoinedProperties(component, properties).rows, |component.names + properties.names|)
  {
    var parts := Repeat(|component.rows|, properties.rows);
    var all := Products(component.rows, parts);
    forall q | 0 <= q < |all| ensures |all[q]| == |component.names| + |properties.names| {
      var i := InProducts(component.rows, parts, q);
      var p :| 0 <= p < |parts[i]| && parts[i][p] == all[q][|component.rows[i]|..];
    }
  }

  lemma AxisFound(components: seq<Labels>, dimensions: seq<string>, axis: nat)
    requires axis <= |components|
    requires forall k :: 0 <= k < axis ==> components[k].names != dimensions
    requires axis < |components| ==> components[axis].names == dimensions
    ensures Position(NamesOf(components), dimensions) == if axis < |components| then Some(axis) else None
  {
    var names := NamesOf(components);
    if axis < |components| {
      assert names[axis] == dimensions;
      assert names[Position(names, dimensions).value] == dimensions;
    }
  }

  /** The gradients of a block that can move a component can move it too. */
  lemma ReadyToMove(b: Block, dimensions: seq<string>, wanted: Block)
    requires ValidBlock(b) && dimensions != [] && ComponentAxis(b, dimensions).Some? && MoveDemands(b, dimensions)
    requires wanted == MoveComponent(b, dimensions)
    ensures wanted.gradients.Keys == b.gradients.Keys
    ensures forall p :: p in b.gradients ==> MovesTo(b.gradients[p], dimensions, wanted.gradients[p])
  {
    assert wanted.gradients.Keys == b.gradients.Keys;
    forall p | p in b.gradients ensures MovesTo(b.gradients[p], dimensions, wanted.gradients[p]) {
      GradientMoves(b, p, dimensions);
    }
  }

  lemma GradientMoves(b: Block, p: string, dimensions: seq<string>)
    requires ValidBlock(b) && p in b.gradients
    requires dimensions != [] && ComponentAxis(b, dimensions).Some? && MoveDemands(b, dimensions)
    ensures p in MoveComponent(b, dimensions).gradients
    ensures MovesTo(b.gradients[p], dimensions, MoveComponent(b, dimensions).gradients[p])
  {
    var front, at := GradientAxis(b, p, dimensions);
    assert GradientFits(b, b.gradients[p]);
  }

  /** `b` is ready to move the component, and should become `wanted`. */
  ghost predicate MovesTo(b: Block, dimensions: seq<string>, wanted: Block) {
    ValidBlock(b) && CanMove(b, dimensions) && MoveDemands(b, dimensions) && wanted == MoveComponent(b, dimensions)
  }

  /** The sizes and names that a new block must have, axis by axis. */
  lemma WellLabelledExactly(values: Array, samples: Labels, components: seq<Labels>, properties: Labels)
    ensures WellLabelled(values, samples, components, properties) <==>
      && |values.shape| == |components| + 2
      && values.shape[0] == |samples.rows| && values.shape[|components| + 1] == |properties.rows|
      && (forall k :: 1 <= k <= |components| ==> values.shape[k] == |components[k - 1].rows|)
      && (forall i :: 0 <= i < |components| ==> components[i].rows != [] && |components[i].names| == 1)
      && (forall i, j :: 0 <= i < j < |components| ==> components[i].names != components[j].names)
  {
    ShapeExactly(values.shape, samples, components, properties);
    NamesExactly(components);
    hide Distinct, BlockShape;
  }

  lemma ShapeExactly(shape: seq<nat>, samples: Labels, components: seq<Labels>, properties: Labels)
    ensures shape == BlockShape(samples, components, properties) <==>
      && |shape| == |components| + 2
      && shape[0] == |samples.rows| && shape[|components| + 1] == |properties.rows|
      && forall k :: 1 <= k <= |components| ==> shape[k] == |components[k - 1].rows|
  {
    var wanted := BlockShape(samples, components, properties);
    assert |wanted| == |components| + 2 && wanted[0] == |samples.rows| && wanted[|components| + 1] == |properties.rows|;
    assert forall k :: 1 <= k <= |components| ==> wanted[k] == |components[k - 1].rows|;
    hide BlockShape, Counts;
    assert shape == wanted <==> |shape| == |wanted| && forall k :: 0 <= k < |wanted| ==> shape[k] == wanted[k];
  }

  lemma NamesExactly(components: seq<Labels>)
    ensures Distinct(NamesOf(components)) <==> forall i, j :: 0 <= i < j < |components| ==> components[i].names != components[j].names
  {
    assert forall i :: 0 <= i < |components| ==> NamesOf(components)[i] == components[i].names;
  }

  ghost predicate Lists(parameters: seq<string>, keys: set<string>) {
    Distinct(parameters) && forall p :: p in parameters <==> p in keys
  }

  lemma ListedAfterInsert(parameters: seq<string>, keys: set<string>, p: string)
    requires Lists(parameters, keys) && p !in keys
    ensures Lists(parameters + [p], keys + {p})
  {}

  class TensorBlock {
    var values: Array
    const samples: Labels
    var components: seq<Labels>
    var properties: Labels
    var gradients: map<string, TensorBlock>
    /** The keys of `gradients`, in the order in which they were added. */
    var gradientParameters: seq<string>

    /** This block and all its nested gradients. */
    ghost var Repr: set<TensorBlock>
    /** This block as a value. */
    ghost var Model: Block

    /** The gradients are listed, no two of them share a block, and the model
        follows the fields, here and in all gradients. */
    ghost predicate Consistent()
      reads this, Repr
      ensures Consistent() ==> this in Repr
      decreases Repr
    {
      && OwnsGradients()
      && Lists(gradientParameters, gradients.Keys)
      && (forall p :: p in gradients ==> gradients[p].Consistent())
      && Model == Assembled()
    }

    /** The gradients are inside `Repr`, apart from each other. */
    ghost predicate OwnsGradients()
      reads this, Repr
    {
      && this in Repr
      && (forall p :: p in gradients ==> gradients[p] in Repr && gradients[p].Repr <= Repr && this !in gradients[p].Repr)
      && (forall p, q :: p in gradients && q in gradients && p != q ==> gradients[p].Repr !! gradients[q].Repr)
    }

    ghost function Assembled(): Block
      reads this, gradients.Values
    {
      Block(values, samples, components, properties, map p | p in gradients :: gradients[p].Model)
    }

    lemma AssembledIs(wanted: Block)
      requires values == wanted.values && samples == wanted.samples
      requires components == wanted.components && properties == wanted.properties
      requires gradients.Keys == wanted.gradients.Keys
      requires forall p :: p in gradients ==> gradients[p].Model == wanted.gradients[p]
      ensures Assembled() == wanted
    {
      assert Assembled().gradients == wanted.gradients;
    }

    ghost predicate Valid()
      reads this, Repr
    {
      Consistent() && ValidBlock(Model)
    }

    /** The block as a value, computed from its parts. */
    function Value(): (b: Block)
      requires Consistent()
      reads this, Repr
      ensures b == Model
      decreases Repr
    {
      Block(values, samples, components, properties, map p | p in gradients :: gradients[p].Value())
    }

    constructor Create(values: Array, samples: Labels, components: seq<Labels>, properties: Labels)
      ensures Consistent() && Repr == {this}
      ensures Model == Block(values, samples, components, properties, map[])
    {
      this.values, this.samples, this.components, this.properties := values, samples, components, properties;
      gradients, gradientParameters := map[], [];
      Repr := {this};
      Model := Block(values, samples, components, properties, map[]);
    }

    /** A block without gradients, if the array fits the labels. */
    static method New(values: Array, samples: Labels, components: seq<Labels>, properties: Labels)
      returns (r: Result<TensorBlock>)
      ensures r.Ok? <==> WellLabelled(values, samples, components, properties)
      ensures r.Ok? ==> r.value.Consistent() && r.value.Repr == {r.value} && fresh(r.value)
      ensures r.Ok? ==> r.value.Model == Block(values, samples, components, properties, map[])
      ensures r.Err? ==> r.error == InvalidParameter
    {
      var shape := CheckDataAndLabels(values, samples, components, properties);
      if shape.Err? {
        return Err(shape.error);
      }
      var labels := CheckComponentLabels(components);
      if labels.Err? {
        return Err(labels.error);
      }
      var block := new TensorBlock.Create(values, samples, components, properties);
      return Ok(block);
    }

    /** The checks of `AddGradient` on the labels of the gradient. */
    method CheckGradient(gradient: TensorBlock) returns (r: Result<()>)
      ensures r.Ok? <==> GradientFits(Assembled(), gradient.Assembled())
      ensures r.Ok? <==>
        && gradient.samples.names != [] && gradient.samples.names[0] == "sample"
        && (forall i :: 0 <= i < |gradient.samples.rows| ==>
              gradient.samples.rows[i] != [] && 0 <= gradient.samples.rows[i][0] < |samples.rows|)
        && (forall i :: 0 <= i < |gradient.components| ==> |gradient.components[i].names| == 1 && gradient.components[i].rows != [])
        && |components| <= |gradient.components|
        && (forall i :: 0 <= i < |components| ==> gradient.components[|gradient.components| - |components| + i] == components[i])
        && gradient.properties == properties
      ensures r.Err? ==> r.error == InvalidParameter
    {
      if |gradient.samples.names| == 0 {
        return Err(InvalidParameter);
      }
      if gradient.samples.names[0] != "sample" {
        return Err(InvalidParameter);
      }
      for i := 0 to |gradient.samples.rows|
        invariant forall k :: 0 <= k < i ==>
          gradient.samples.rows[k] != [] && 0 <= gradient.samples.rows[k][0] < |samples.rows|
      {
        var sample := gradient.samples.rows[i];
        if sample == [] || sample[0] < 0 || sample[0] >= |samples.rows| {
          return Err(InvalidParameter);
        }
      }
      var labels := CheckComponentLabels(gradient.components);
      if labels.Err? {
        return Err(labels.error);
      }
      if |components| > |gradient.components| {
        return Err(InvalidParameter);
      }
      if gradient.properties != properties {
        return Err(InvalidParameter);
      }
      var extra := |gradient.components| - |components|;
      ghost var suffix := gradient.components[extra..];
      for i := 0 to |components|
        invariant suffix[..i] == components[..i]
      {
        assert suffix[i] == gradient.components[extra + i];
        if gradient.components[extra + i] != components[i] {
          return Err(InvalidParameter);
        }
        assert suffix[..i + 1] == suffix[..i] + [suffix[i]] && components[..i + 1] == components[..i] + [components[i]];
      }
      assert suffix[..|components|] == suffix && components[..|components|] == components;
      return Ok(());
    }

    /** Bring the model up to date with the fields. */
    ghost method Refresh(wanted: Block)
      requires OwnsGradients() && Lists(gradientParameters, gradients.Keys)
      requires forall p :: p in gradients ==> gradients[p].Consistent()
      requires Assembled() == wanted
      modifies this`Model
      ensures Consistent() && Model == wanted
    {
      Model := wanted;
      assert forall p :: p in gradients ==> gradients[p].Model == old(gradients[p].Model);
      AssembledIs(wanted);
    }

    /** Take over a gradient. */
    method Adopt(parameter: string, gradient: TensorBlock)
      requires Consistent() && gradient.Consistent() && Repr !! gradient.Repr
      requires parameter !in gradients
      modifies this`gradients, this`gradientParameters, this`Repr
      ensures OwnsGradients() && Lists(gradientParameters, gradients.Keys)
      ensures forall p :: p in gradients ==> gradients[p].Consistent()
      ensures Repr == old(Repr) + gradient.Repr && gradients == old(gradients)[parameter := gradient]
    {
      ListedAfterInsert(gradientParameters, gradients.Keys, parameter);
      gradients := gradients[parameter := gradient];
      gradientParameters := gradientParameters + [parameter];
      Repr := Repr + gradient.Repr;
      assert gradient.Consistent();
    }

    /** Record a gradient. */
    method InsertGradient(parameter: string, gradient: TensorBlock)
      requires Consistent() && gradient.Consistent() && Repr !! gradient.Repr
      requires parameter !in gradients
      modifies this
      ensures Consistent() && Repr == old(Repr) + gradient.Repr
      ensures Model == old(Model).(gradients := old(Model.gradients)[parameter := gradient.Model])
    {
      Adopt(parameter, gradient);
      ghost var wanted := Model.(gradients := Model.gradients[parameter := gradient.Model]);
      AssembledIs(wanted);
      Refresh(wanted);
    }

    /** Add a gradient, unless the parameter is taken or the labels do not fit. */
    method AddGradient(parameter: string, gradient: TensorBlock) returns (r: Result<()>)
      requires Valid() && gradient.Valid() && Repr !! gradient.Repr
      requires ValidParameter(parameter)
      modifies this
      ensures Valid()
      ensures r.Ok? <==> parameter !in old(Model).gradients && GradientFits(old(Model), gradient.Model)
      ensures r.Err? ==> r.error == InvalidParameter && Repr == old(Repr) && Model == old(Model)
      ensures r.Ok? ==> Repr == old(Repr) + gradient.Repr
      ensures r.Ok? ==> Model == old(Model).(gradients := old(Model).gradients[parameter := gradient.Model])
    {
      hide ValidBlock, GradientFits;
      assert Model == Assembled() && gradient.Model == gradient.Assembled();
      if parameter in gradients {
        return Err(InvalidParameter);
      }
      var fits := CheckGradient(gradient);
      if fits.Err? {
        return Err(fits.error);
      }
      GradientKeepsBlockValid(Model, parameter, gradient.Model);
      InsertGradient(parameter, gradient);
      return Ok(());
    }

    /** Move one component of this block, not of its gradients. */
    method MoveOwnComponent(axis: nat)
      requires ValidParts(Assembled()) && axis < |components|
      requires properties.names != []
      modifies this`values, this`components, this`properties
      ensures components == RemoveAt(old(components), axis)
      ensures properties == JoinedProperties(old(components)[axis], old(properties))
      ensures values == MoveAxis(old(values), axis + 1, |old(components)|,
                                 ShapeWithout(old(values).shape, axis, |properties.rows|))
    {
      ghost var b := Assembled();
      var moved := components[axis];
      components := RemoveAt(components, axis);

      var newProperties := JoinProperties(moved, properties);

      var propertiesAxis := |values.shape| - 1;
      var newShape := RemoveAt(values.shape[propertiesAxis := |newProperties.rows|], axis + 1);
      ShapeIsMoved(b, axis);
      MovedIsValid(values, |samples.rows|, Counts(b.components), |b.properties.rows|, axis);
      var last := propertiesAxis - 1;
      assert last == |b.components|;
      values := SwapAxes(values, axis + 1, last);
      var reshaped := Reshape(values, newShape);
      values := reshaped.value;

      properties := newProperties;
    }

    /** Moving the own component leaves the gradients alone. */
    method MoveOnly(axis: nat)
      requires Consistent() && ValidParts(Model) && axis < |components| && properties.names != []
      modifies this`values, this`components, this`properties
      ensures components == RemoveAt(old(components), axis)
      ensures properties == JoinedProperties(old(components)[axis], old(properties))
      ensures values == MoveAxis(old(values), axis + 1, |old(components)|,
                                 ShapeWithout(old(values).shape, axis, |properties.rows|))
      ensures OwnsGradients() && Lists(gradientParameters, gradients.Keys) && Model.gradients.Keys == gradients.Keys
      ensures forall p :: p in gradients ==> gradients[p].Consistent() && gradients[p].Model == Model.gradients[p]
    {
      hide ValidParts, MoveAxis, ShapeWithout, JoinedProperties, RemoveAt;
      MoveOwnComponent(axis);
    }

    /** Move a component of one gradient; the others keep theirs. */
    method MoveGradient(p: string, dimensions: seq<string>, ghost wanted: Block)
      requires OwnsGradients() && p in gradients
      requires forall q :: q in gradients ==> gradients[q].Consistent()
      requires MovesTo(gradients[p].Model, dimensions, wanted)
      modifies gradients[p].Repr
      ensures forall q :: q in gradients ==> gradients[q].Consistent() && gradients[q].Repr == old(gradients[q].Repr)
      ensures forall q :: q in gradients && q != p ==> gradients[q].Model == old(gradients[q].Model)
      ensures gradients[p].Model == wanted
      decreases Repr, 0
    {
      assert forall q :: q in gradients && q != p ==> gradients[q] !in gradients[p].Repr;
      var r := gradients[p].ComponentsToProperties(dimensions);
    }

    /** Move a component of all gradients. */
    method MoveGradients(dimensions: seq<string>, ghost before: map<string, Block>, ghost wanted: map<string, Block>)
      requires OwnsGradients() && before.Keys == wanted.Keys == gradients.Keys
      requires forall p :: p in gradients ==> gradients[p].Consistent() && gradients[p].Model == before[p]
      requires forall p :: p in gradients ==> MovesTo(before[p], dimensions, wanted[p])
      modifies Repr - {this}
      ensures forall p :: p in gradients ==> gradients[p].Consistent() && gradients[p].Repr == old(gradients[p].Repr)
      ensures forall p :: p in gradients ==> gradients[p].Model == wanted[p]
      decreases Repr, 1
    {
      hide MovesTo, ValidBlock, Consistent, Assembled;
      var todo := gradients.Keys;
      while todo != {}
        invariant todo <= gradients.Keys
        invariant forall p :: p in gradients ==> gradients[p].Consistent() && gradients[p].Repr == old(gradients[p].Repr)
        invariant forall p :: p in gradients ==> gradients[p].Model == if p in todo then before[p] else wanted[p]
        decreases todo
      {
        var p :| p in todo;
        MoveGradient(p, dimensions, wanted[p]);
        todo := todo - {p};
      }
    }

    /** Move the component of this block, then of all its gradients. */
    method MoveTree(axis: nat, dimensions: seq<string>, ghost wanted: Block)
      requires Consistent() && ValidParts(Model) && axis < |components| && properties.names != []
      requires wanted.gradients.Keys == gradients.Keys
      requires forall p :: p in gradients ==> MovesTo(Model.gradients[p], dimensions, wanted.gradients[p])
      requires wanted.samples == samples && wanted.components == RemoveAt(components, axis)
      requires wanted.properties == JoinedProperties(components[axis], properties)
      requires wanted.values == MoveAxis(values, axis + 1, |components|, ShapeWithout(values.shape, axis, |wanted.properties.rows|))
      modifies Repr
      ensures Consistent() && Repr == old(Repr) && Model == wanted
      decreases Repr, 2
    {
      hide MovesTo, ValidBlock, ValidParts, MoveAxis, ShapeWithout, JoinedProperties, RemoveAt;
      MoveOnly(axis);
      hide Consistent;
      MoveGradients(dimensions, Model.gradients, wanted.gradients);
      AssembledIs(wanted);
      Refresh(wanted);
    }

    /** Move the component with the given name to the properties, in this block
        and in all its gradients. */
    method ComponentsToProperties(dimensions: seq<string>) returns (r: Result<()>)
      requires Valid() && MoveDemands(Model, dimensions)
      modifies Repr
      ensures Consistent() && Repr == old(Repr)
      ensures r.Ok? <==> CanMove(old(Model), dimensions)
      ensures r.Ok? ==> ValidBlock(old(Model)) && Model == MoveComponent(old(Model), dimensions)
      ensures r.Err? ==> r.error == InvalidParameter && Model == old(Model)
      decreases Repr, 3
    {
      if dimensions == [] {
        return Ok(());
      }
      var axis := 0;
      while axis < |components| && components[axis].names != dimensions
        invariant axis <= |components|
        invariant forall k :: 0 <= k < axis ==> components[k].names != dimensions
      {
        axis := axis + 1;
      }
      AxisFound(components, dimensions, axis);
      if axis == |components| {
        return Err(InvalidParameter);
      }
      ghost var wanted := MoveComponent(Model, dimensions);
      ReadyToMove(Model, dimensions, wanted);
      MoveTree(axis, dimensions, wanted);
      return Ok(());
    }
  }
}
