/** The C++ array type: row-major data kept next to its shape. */
module SimpleDataArrays {
  import opened Wrappers
  import opened RowMajor
  import opened Arrays
  import opened DataFiles
  import opened ComponentMoves
  import opened IndexOrders
  import opened AxisSwaps
  import opened Odometer
  import opened CellMoves

  lemma FilledWithZeros(shape: seq<nat>, data: seq<Value>)
    requires |data| == Product(shape) && forall i :: 0 <= i < |data| ==> data[i] == ZERO
    ensures Filled(shape, data) == Create(shape)
  {
    hide InRange;
    SameArray(Filled(shape, data), Create(shape));
  }

  /** The same data under another shape is the reshaped array. */
  lemma FilledReshaped(shape: seq<nat>, newShape: seq<nat>, data: seq<Value>)
    requires |data| == Product(shape) == Product(newShape)
    ensures Reshape(Filled(shape, data), newShape) == Ok(Filled(newShape, data))
  {
    hide Product, Linear, InRange;
    var now, wanted := Filled(newShape, data), Reshape(Filled(shape, data), newShape).value;
    forall index: Index | InRange(newShape, index) ensures Get(now, index) == Get(wanted, index) {
      LinearUnravel(newShape, index);
      UnravelLinear(shape, Linear(newShape, index));
    }
    SameArray(now, wanted);
  }

  /** The loop over the components of a sample ends, and no value is looked up
      outside the arrays: there is one axis of components, or none has to be
      copied. */
  predicate WalkEnds(shape: seq<nat>, propertyStart: nat, propertyEnd: nat) {
    && |shape| >= 3
    && (|shape| == 3 || shape[1] == 0)
    && (propertyStart == propertyEnd || shape[1] > 0)
  }

  /** Both halves are needed: the loop never ends for two or more axes, and its
      first index is outside the array when there are no components. */
  lemma WalkEndsExactly(shape: seq<nat>, sample: nat, propertyStart: nat, propertyEnd: nat)
    requires |shape| >= 3 && sample < shape[0] && propertyStart <= propertyEnd <= Last(shape)
    ensures var first := [sample] + seq(|shape| - 1, i => 0);
      WalkEnds(shape, propertyStart, propertyEnd)
      <==> (exists n: nat :: EndsAfter(shape, first, n))
           && (propertyStart == propertyEnd || InRange(shape, first[|shape| - 1 := propertyStart]))
  {
    var first: Index := [sample] + seq(|shape| - 1, i => 0);
    EndsExactly(shape, first);
    var looked := first[|shape| - 1 := propertyStart];
    assert looked[1] == 0;
    if |shape| == 3 {
      assert looked == [sample, 0, propertyStart];
    }
  }

  class SimpleDataArray {
    var shape: seq<nat>
    var data: seq<Value>

    ghost predicate Valid()
      reads this
    {
      |data| == Product(shape)
    }

    ghost function Contents(): (a: Array)
      reads this
      ensures ValidArray(a) && a.shape == shape
    {
      Filled(shape, data)
    }

    /** All elements are `value`. */
    constructor (shape: seq<nat>, value: Value)
      ensures Valid() && this.shape == shape && data == seq(Product(shape), i => value)
      ensures value == ZERO ==> Contents() == Create(shape)
    {
      var n := ProductOf(shape);
      this.shape := shape;
      data := seq(n, i => value);
      new;
      if value == ZERO {
        FilledWithZeros(shape, data);
      }
    }

    constructor FromData(shape: seq<nat>, data: seq<Value>)
      requires |data| == Product(shape)
      ensures Valid() && this.shape == shape && this.data == data
    {
      this.shape := shape;
      this.data := data;
    }

    /** The size of the data must fit the shape. */
    static method New(shape: seq<nat>, data: seq<Value>) returns (r: Result<SimpleDataArray>)
      ensures r.Ok? <==> |data| == Product(shape)
      ensures r.Ok? ==> fresh(r.value) && r.value.Valid() && r.value.Contents() == Filled(shape, data)
    {
      var n := ProductOf(shape);
      if |data| != n {
        return Err(InvalidParameter);
      }
      var a := new SimpleDataArray.FromData(shape, data);
      return Ok(a);
    }

    method Reshape(newShape: seq<nat>) returns (r: Result<()>)
      requires Valid()
      modifies this`shape
      ensures Valid()
      ensures r.Ok? <==> Arrays.Reshape(old(Contents()), newShape).Ok?
      ensures r.Ok? ==> Contents() == Arrays.Reshape(old(Contents()), newShape).value
      ensures r.Err? ==> shape == old(shape)
    {
      var now := ProductOf(shape);
      var wanted := ProductOf(newShape);
      if now != wanted {
        return Err(InvalidParameter);
      }
      FilledReshaped(shape, newShape, data);
      shape := newShape;
      return Ok(());
    }

    method SwapAxes(axis1: nat, axis2: nat)
      requires Valid() && axis1 < |shape| && axis2 < |shape|
      modifies this
      ensures Valid() && shape == Swap(old(shape), axis1, axis2)
      ensures data == SwappedData(old(shape), old(data), axis1, axis2)
      ensures OneLongAxis(old(shape)) ==> Contents() == Arrays.SwapAxes(old(Contents()), axis1, axis2)
    {
      hide Product, SwappedData, Swap, OneLongAxis;
      var newShape := Swap(shape, axis1, axis2);
      var newData := PermutedData(axis1, axis2);
      if OneLongAxis(shape) {
        RightIfOneLongAxis(shape, data, axis1, axis2);
      }
      SwapKeepsProduct(shape, axis1, axis2);
      shape := newShape;
      data := newData;
    }

    method PermutedData(axis1: nat, axis2: nat) returns (newData: seq<Value>)
      requires Valid() && axis1 < |shape| && axis2 < |shape|
      ensures newData == SwappedData(shape, data, axis1, axis2)
    {
      hide Product, Target, SwappedData, InRange, FirstFastest, Linear, Swap;
      var n := ProductOf(shape);
      newData := seq(n, i => ZERO);
      ghost var done: set<nat> := {};
      for i := 0 to n
        invariant |newData| == n
        invariant forall k :: 0 <= k < i ==> Target(shape, axis1, axis2, k) in done
        invariant forall t :: t in done ==> t < n && newData[t] == SwappedData(shape, data, axis1, axis2)[t]
      {
        var index := CartesianIndex(shape, i);
        FirstFastestInRange(shape, i);
        SwapInRange(shape, index, axis1, axis2);
        var at := LinearIndex(Swap(shape, axis1, axis2), Swap(index, axis1, axis2));
        assert at == Target(shape, axis1, axis2, i) by { TargetIs(shape, axis1, axis2, i); }
        DataIsMoved(shape, data, axis1, axis2, i);
        newData := newData[at := data[i]];
        done := done + {at};
      }
      forall j | 0 <= j < n ensures newData[j] == SwappedData(shape, data, axis1, axis2)[j] {
        SwapKeepsProduct(shape, axis1, axis2);
        TargetOfOrigin(shape, axis1, axis2, j);
      }
    }

    method CopyValue(input: SimpleDataArray, from: Index, to: Index)
      requires Valid() && input.Valid() && input != this
      requires shape != [] && input.shape != [] && InRange(input.shape, from) && InRange(shape, to)
      modifies this`data
      ensures Valid() && Contents() == SetCell(old(Contents()), to, Get(input.Contents(), from))
    {
      hide Product, InRange, Linear, Filled, Get, SetCell;
      FilledCell(input.shape, input.data, from);
      var source := LinearIndex(input.shape, from);
      FilledUpdate(shape, data, to, input.data[source]);
      var target := LinearIndex(shape, to);
      data := data[target := input.data[source]];
    }

    /** The properties of one component of one sample. */
    method CopyProperties(input: SimpleDataArray, ghost m: SampleMapping, ghost c: Index, inputIndex: Index, outputIndex: Index,
                          propertyStart: nat, propertyEnd: nat)
      requires Valid() && input.Valid() && input != this
      requires |shape| == |input.shape| >= 2 && propertyStart <= propertyEnd <= Last(shape)
      requires Last(input.shape) == propertyEnd - propertyStart
      requires |inputIndex| == |outputIndex| == |shape|
      requires Front(inputIndex) == [m.input] + c && Front(outputIndex) == [m.output] + c
      requires propertyStart < propertyEnd ==> InRange(Front(input.shape), [m.input] + c) && InRange(Front(shape), [m.output] + c)
      modifies this`data
      ensures Valid()
      ensures Contents() == MoveProperties(old(Contents()), input.Contents(), m, c, propertyStart, propertyEnd)
    {
      hide Product, InRange, Linear, MoveProperties, Cell, Filled, SetCell, Get, ValidArray;
      var dim := |shape| - 1;
      NoProperties(Contents(), input.Contents(), m, c, propertyStart);
      for i := 0 to propertyEnd - propertyStart
        invariant Valid() && input.Valid()
        invariant Contents() == MoveProperties(old(Contents()), input.Contents(), m, c, propertyStart, propertyStart + i)
      {
        CellIs(m.input, c, i, inputIndex);
        CellIs(m.output, c, propertyStart + i, outputIndex);
        CellInRange(input.shape, [m.input] + c, i);
        CellInRange(shape, [m.output] + c, propertyStart + i);
        OneMoreProperty(old(Contents()), input.Contents(), m, c, propertyStart, propertyStart + i);
        CopyValue(input, inputIndex[dim := i], outputIndex[dim := propertyStart + i]);
      }
    }

    /** One sample, one component after the other. */
    method CopyComponents(input: SimpleDataArray, m: SampleMapping, propertyStart: nat, propertyEnd: nat)
      requires Valid() && input.Valid() && input != this
      requires |shape| == |input.shape| >= 3 && Middle(shape) == Middle(input.shape)
      requires propertyStart <= propertyEnd <= Last(shape) && Last(input.shape) == propertyEnd - propertyStart
      requires m.input < input.shape[0] && m.output < shape[0]
      requires WalkEnds(shape, propertyStart, propertyEnd)
      modifies this`data
      ensures Valid()
      ensures Contents() == MoveRow(old(Contents()), input.Contents(), m, propertyStart, propertyEnd)
    {
      hide Product, InRange, MoveProperties, MoveComponents, MoveRow, Filled, ValidArray, Next, Middle, Front;
      ghost var was, source := Contents(), input.Contents();
      var inputIndex := [m.input] + seq(|shape| - 1, i => 0);
      var done := false;
      NoComponents(was, source, m, propertyStart, propertyEnd);
      while !done
        invariant Valid() && input.Valid() && |inputIndex| == |shape| && inputIndex[0] == m.input
        invariant done ==> inputIndex[1] >= shape[1]
        invariant propertyStart == propertyEnd ==> Contents() == was
        invariant propertyStart < propertyEnd ==> inputIndex[1] + (if done then 0 else 1) <= shape[1]
        invariant propertyStart < propertyEnd ==>
          Contents() == MoveComponents(was, source, m, inputIndex[1], propertyStart, propertyEnd)
        decreases if done then 0 else if inputIndex[1] < shape[1] then 1 + shape[1] - inputIndex[1] else 1
      {
        var outputIndex := [m.output] + Middle(inputIndex) + [0];
        FrontOfIndexes(inputIndex, m.output);
        if propertyStart < propertyEnd {
          MiddleOfThree(shape);
          MiddleOfThree(input.shape);
          FrontOfThree(input.shape, m.input, inputIndex);
          FrontOfThree(shape, m.output, inputIndex);
          OneMoreComponent(was, source, m, inputIndex[1], propertyStart, propertyEnd);
        } else {
          NoProperties(was, source, m, Middle(inputIndex), propertyStart);
        }
        CopyProperties(input, m, Middle(inputIndex), inputIndex, outputIndex, propertyStart, propertyEnd);
        NextKeeps(shape, inputIndex);
        inputIndex := NextIndex(shape, inputIndex);
        done := inputIndex[1] >= shape[1];
      }
      if propertyStart < propertyEnd {
        ComponentsAreRow(was, source, m, propertyStart, propertyEnd);
      } else {
        EmptyRow(was, source, m, propertyStart);
      }
    }

    /** One sample without components. */
    method CopyRow(input: SimpleDataArray, m: SampleMapping, propertyStart: nat, propertyEnd: nat)
      requires Valid() && input.Valid() && input != this && |shape| == |input.shape| == 2
      requires propertyStart <= propertyEnd <= Last(shape) && Last(input.shape) == propertyEnd - propertyStart
      requires m.input < input.shape[0] && m.output < shape[0]
      modifies this`data
      ensures Valid()
      ensures Contents() == MoveRow(old(Contents()), input.Contents(), m, propertyStart, propertyEnd)
    {
      hide Product, MoveProperties, MoveRow, Filled, ValidArray;
      assert InRange(Front(input.shape), [m.input] + []) && InRange(Front(shape), [m.output] + []);
      assert Front([m.input, 0]) == [m.input] + [] && Front([m.output, 0]) == [m.output] + [];
      PropertiesAreRow(Contents(), input.Contents(), m, propertyStart, propertyEnd);
      CopyProperties(input, m, [], [m.input, 0], [m.output, 0], propertyStart, propertyEnd);
    }

    /** Copy the rows of samples, as the interface of data arrays demands. */
    method MoveSamplesFrom(input: SimpleDataArray, samples: seq<SampleMapping>, propertyStart: nat, propertyEnd: nat)
      requires Valid() && input.Valid() && input != this
      requires Movable(Contents(), input.Contents(), samples, propertyStart, propertyEnd)
      requires samples == [] || |shape| == 2 || WalkEnds(shape, propertyStart, propertyEnd)
      modifies this`data
      ensures Valid()
      ensures Contents() == Arrays.MoveSamplesFrom(old(Contents()), input.Contents(), samples, propertyStart, propertyEnd)
    {
      hide Product, MoveRow, Filled, ValidArray, InRange, WalkEnds;
      ghost var was, source := Contents(), input.Contents();
      for i := 0 to |samples|
        invariant Valid() && input.Valid()
        invariant Contents() == Arrays.MoveSamplesFrom(was, source, samples[..i], propertyStart, propertyEnd)
      {
        OneMoreSample(was, source, samples, i, propertyStart, propertyEnd);
        if |shape| == 2 {
          CopyRow(input, samples[i], propertyStart, propertyEnd);
        } else {
          CopyComponents(input, samples[i], propertyStart, propertyEnd);
        }
      }
      assert samples[..|samples|] == samples;
    }
  }

  lemma FrontOfIndexes(index: Index, sample: nat)
    requires |index| >= 3
    ensures Front(index) == [index[0]] + Middle(index)
    ensures Front([sample] + Middle(index) + [0]) == [sample] + Middle(index)
    ensures |Middle(index)| == |index| - 2
  {}

  lemma FrontOfThree(shape: seq<nat>, sample: nat, index: Index)
    requires |shape| == |index| == 3 && sample < shape[0] && index[1] < shape[1]
    ensures Middle(index) == [index[1]] && InRange(Front(shape), [sample] + Middle(index))
  {}

  lemma TargetIs(shape: seq<nat>, a: nat, b: nat, i: nat)
    requires a < |shape| && b < |shape|
    ensures Target(shape, a, b, i) == Linear(Swap(shape, a, b), Swap(FirstFastest(shape, i), a, b))
  {}

  lemma CellInRange(shape: seq<nat>, front: Index, p: nat)
    requires shape != [] && InRange(Front(shape), front) && p < Last(shape)
    ensures InRange(shape, front + [p])
  {
    AppendIndex(shape, front, p);
  }

  lemma CellIs(s: nat, c: Index, p: nat, index: Index)
    requires index != [] && Front(index) == [s] + c
    ensures index[|index| - 1 := p] == Cell(s, c, p) == [s] + c + [p]
  {}
}
