/** Copying one row of an array piece by piece. */
module CellMoves {
  import opened RowMajor
  import opened Arrays
  import opened DataFiles

  function SetCell(a: Array, index: Index, v: Value): (r: Array) {
    Array(a.shape, a.cells[index := v])
  }

  /** Writing at the position of an index changes the value at this index only. */
  lemma FilledUpdate(shape: seq<nat>, data: seq<Value>, index: Index, v: Value)
    requires |data| == Product(shape) && InRange(shape, index)
    ensures Linear(shape, index) < |data|
    ensures Filled(shape, data[Linear(shape, index) := v]) == SetCell(Filled(shape, data), index, v)
  {
    hide Product, Linear, InRange;
    LinearUnravel(shape, index);
    SetCellIsValid(Filled(shape, data), index, v);
    var now, wanted := Filled(shape, data[Linear(shape, index) := v]), SetCell(Filled(shape, data), index, v);
    forall other: Index | InRange(shape, other) ensures Get(now, other) == Get(wanted, other) {
      LinearUnravel(shape, other);
    }
    SameArray(now, wanted);
  }

  /** The first properties of one component are copied. */
  function MoveProperties(out: Array, input: Array, m: SampleMapping, c: Index, start: nat, end: nat): (r: Array)
    requires |out.shape| >= 2
    ensures ValidArray(r) && r.shape == out.shape
  {
    Array(out.shape, map index | index in Indices(out.shape) ::
      if index[0] == m.output && Middle(index) == c && start <= Last(index) < end
      then Get(input, Cell(m.input, c, Last(index) - start))
      else Get(out, index))
  }

  lemma PropertiesCell(out: Array, input: Array, m: SampleMapping, c: Index, start: nat, end: nat, index: Index)
    requires |out.shape| >= 2 && |index| == |out.shape| && InRange(out.shape, index)
    ensures Get(MoveProperties(out, input, m, c, start, end), index)
         == if index[0] == m.output && Middle(index) == c && start <= Last(index) < end
            then Get(input, Cell(m.input, c, Last(index) - start))
            else Get(out, index)
  {
    hide InRange;
  }

  lemma NoProperties(out: Array, input: Array, m: SampleMapping, c: Index, start: nat)
    requires ValidArray(out) && |out.shape| >= 2
    ensures MoveProperties(out, input, m, c, start, start) == out
  {
    hide InRange;
    SameArray(MoveProperties(out, input, m, c, start, start), out);
  }

  lemma CellDiffers(index: Index, s: nat, c: Index, p: nat)
    requires |index| >= 2
    ensures index == Cell(s, c, p) <==> index[0] == s && Middle(index) == c && Last(index) == p
  {
    CellParts(index);
    PartsOfCell(s, c, p);
  }

  lemma SetCellCell(a: Array, index: Index, v: Value, other: Index)
    ensures Get(SetCell(a, index, v), other) == if other == index then v else Get(a, other)
  {}

  lemma SetCellIsValid(a: Array, index: Index, v: Value)
    requires ValidArray(a) && InRange(a.shape, index)
    ensures ValidArray(SetCell(a, index, v))
  {
    hide InRange;
  }

  lemma OneMorePropertyCell(out: Array, input: Array, m: SampleMapping, c: Index, start: nat, end: nat, index: Index)
    requires |out.shape| >= 2 && start <= end && |index| == |out.shape| && InRange(out.shape, index)
    ensures Get(MoveProperties(out, input, m, c, start, end + 1), index)
         == Get(SetCell(MoveProperties(out, input, m, c, start, end), Cell(m.output, c, end), Get(input, Cell(m.input, c, end - start))), index)
  {
    hide InRange, Get, MoveProperties, ValidArray, Cell, SetCell;
    PropertiesCell(out, input, m, c, start, end + 1, index);
    PropertiesCell(out, input, m, c, start, end, index);
    SetCellCell(MoveProperties(out, input, m, c, start, end), Cell(m.output, c, end), Get(input, Cell(m.input, c, end - start)), index);
    CellDiffers(index, m.output, c, end);
  }

  lemma OneMoreProperty(out: Array, input: Array, m: SampleMapping, c: Index, start: nat, end: nat)
    requires |out.shape| >= 2 && start <= end && InRange(out.shape, Cell(m.output, c, end))
    ensures MoveProperties(out, input, m, c, start, end + 1)
         == SetCell(MoveProperties(out, input, m, c, start, end), Cell(m.output, c, end), Get(input, Cell(m.input, c, end - start)))
  {
    hide InRange, Get, MoveProperties, ValidArray, Cell, Middle, Last, SetCell;
    var cell, v := Cell(m.output, c, end), Get(input, Cell(m.input, c, end - start));
    var before := MoveProperties(out, input, m, c, start, end);
    SetCellIsValid(before, cell, v);
    SetCellShape(before, cell, v);
    forall index: Index | InRange(out.shape, index)
      ensures Get(MoveProperties(out, input, m, c, start, end + 1), index) == Get(SetCell(before, cell, v), index)
    {
      LengthInRange(out.shape, index);
      OneMorePropertyCell(out, input, m, c, start, end, index);
    }
    SameArray(MoveProperties(out, input, m, c, start, end + 1), SetCell(before, cell, v));
  }

  lemma SetCellShape(a: Array, index: Index, v: Value)
    ensures SetCell(a, index, v).shape == a.shape
  {}

  lemma LengthInRange(shape: seq<nat>, index: Index)
    requires InRange(shape, index)
    ensures |index| == |shape|
  {}

  /** Without components, a row is its properties. */
  lemma PropertiesAreRow(out: Array, input: Array, m: SampleMapping, start: nat, end: nat)
    requires ValidArray(out) && |out.shape| == 2
    ensures MoveProperties(out, input, m, [], start, end) == MoveRow(out, input, m, start, end)
  {
    hide InRange, Get, MoveProperties, MoveRow, ValidArray, Cell, Last;
    forall index: Index | InRange(out.shape, index)
      ensures Get(MoveProperties(out, input, m, [], start, end), index) == Get(MoveRow(out, input, m, start, end), index)
    {
      LengthInRange(out.shape, index);
      assert Middle(index) == [];
      PropertiesCell(out, input, m, [], start, end, index);
      MoveRowCell(out, input, m, start, end, index);
    }
    SameArray(MoveProperties(out, input, m, [], start, end), MoveRow(out, input, m, start, end));
  }

  /** The first `n` components of a row are copied. */
  function MoveComponents(out: Array, input: Array, m: SampleMapping, n: nat, start: nat, end: nat): (r: Array)
    requires ValidArray(out) && |out.shape| >= 2
    ensures ValidArray(r) && r.shape == out.shape
  {
    if n == 0 then out else MoveProperties(MoveComponents(out, input, m, n - 1, start, end), input, m, [n - 1], start, end)
  }

  lemma NoComponents(out: Array, input: Array, m: SampleMapping, start: nat, end: nat)
    requires ValidArray(out) && |out.shape| >= 2
    ensures MoveComponents(out, input, m, 0, start, end) == out
  {}

  lemma OneMoreComponent(out: Array, input: Array, m: SampleMapping, n: nat, start: nat, end: nat)
    requires ValidArray(out) && |out.shape| >= 2
    ensures MoveComponents(out, input, m, n + 1, start, end)
         == MoveProperties(MoveComponents(out, input, m, n, start, end), input, m, [n], start, end)
  {}

  lemma MiddleOfThree(index: Index)
    requires |index| == 3
    ensures Middle(index) == [index[1]]
  {}

  lemma {:induction false} ComponentCell(out: Array, input: Array, m: SampleMapping, n: nat, start: nat, end: nat, index: Index)
    requires ValidArray(out) && |out.shape| == |index| == 3 && InRange(out.shape, index)
    ensures Get(MoveComponents(out, input, m, n, start, end), index)
         == if index[0] == m.output && index[1] < n && start <= Last(index) < end
            then Get(input, Cell(m.input, Middle(index), Last(index) - start))
            else Get(out, index)
  {
    hide InRange, Get, MoveProperties, ValidArray, Cell, Last, Middle;
    MiddleOfThree(index);
    if n > 0 {
      ComponentCell(out, input, m, n - 1, start, end, index);
      PropertiesCell(MoveComponents(out, input, m, n - 1, start, end), input, m, [n - 1], start, end, index);
    }
  }

  lemma InRangeOfThree(shape: seq<nat>, index: Index)
    requires InRange(shape, index) && |shape| == 3
    ensures |index| == 3 && index[1] < shape[1]
  {}

  /** With one component axis, a row is all its components. */
  lemma ComponentsAreRow(out: Array, input: Array, m: SampleMapping, start: nat, end: nat)
    requires ValidArray(out) && |out.shape| == 3
    ensures MoveComponents(out, input, m, out.shape[1], start, end) == MoveRow(out, input, m, start, end)
  {
    hide InRange, Get, MoveComponents, MoveRow, ValidArray, Cell, Last, Middle;
    forall index: Index | InRange(out.shape, index)
      ensures Get(MoveComponents(out, input, m, out.shape[1], start, end), index) == Get(MoveRow(out, input, m, start, end), index)
    {
      InRangeOfThree(out.shape, index);
      ComponentCell(out, input, m, out.shape[1], start, end, index);
      MoveRowCell(out, input, m, start, end, index);
    }
    SameArray(MoveComponents(out, input, m, out.shape[1], start, end), MoveRow(out, input, m, start, end));
  }

  /** Without properties there is nothing to copy. */
  lemma EmptyRow(out: Array, input: Array, m: SampleMapping, start: nat)
    requires ValidArray(out) && |out.shape| >= 2
    ensures MoveRow(out, input, m, start, start) == out
  {
    hide InRange;
    SameArray(MoveRow(out, input, m, start, start), out);
  }

  lemma OneMoreSample(out: Array, input: Array, samples: seq<SampleMapping>, n: nat, start: nat, end: nat)
    requires ValidArray(out) && |out.shape| >= 2 && n < |samples|
    ensures MoveSamplesFrom(out, input, samples[..n + 1], start, end)
         == MoveRow(MoveSamplesFrom(out, input, samples[..n], start, end), input, samples[n], start, end)
  {
    assert Front(samples[..n + 1]) == samples[..n];
  }
}
