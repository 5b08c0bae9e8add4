/** The data arrays of a block, by their documented contract: a shape and one
    value per index in range. */
module Arrays {
  import opened Wrappers
  import opened RowMajor

  /** The bit pattern of a 64-bit floating point number. */
  newtype Value = x: int | 0 <= x < 0x1_0000_0000_0000_0000

  const ZERO: Value := 0

  datatype Array = Array(shape: seq<nat>, cells: map<Index, Value>)

  /** The row `input` of one array is copied to the row `output` of another. */
  datatype SampleMapping = SampleMapping(input: nat, output: nat)

  ghost predicate ValidArray(a: Array) {
    forall index :: index in a.cells <==> InRange(a.shape, index)
  }

  function Get(a: Array, index: Index): Value {
    if index in a.cells then a.cells[index] else ZERO
  }

  lemma SameArray(a: Array, b: Array)
    requires ValidArray(a) && ValidArray(b) && a.shape == b.shape
    requires forall index :: InRange(a.shape, index) ==> Get(a, index) == Get(b, index)
    ensures a == b
  {
    assert forall index :: index in a.cells <==> index in b.cells;
    assert forall index :: index in a.cells ==> a.cells[index] == Get(a, index) == Get(b, index) == b.cells[index];
    assert a.cells == b.cells;
  }

  /** A new array, filled with zeros. */
  function Create(shape: seq<nat>): (a: Array)
    ensures ValidArray(a)
    ensures forall index :: Get(a, index) == ZERO
  {
    Array(shape, map index | index in Indices(shape) :: ZERO)
  }

  function Swap<T>(s: seq<T>, i: nat, j: nat): (r: seq<T>)
    requires i < |s| && j < |s|
    ensures |r| == |s|
  {
    s[i := s[j]][j := s[i]]
  }

  /** Exchange two axes. */
  function SwapAxes(a: Array, i: nat, j: nat): (r: Array)
    requires i < |a.shape| && j < |a.shape|
    ensures ValidArray(r)
  {
    Array(Swap(a.shape, i, j),
          map index | index in Indices(Swap(a.shape, i, j)) :: Get(a, Swap(index, i, j)))
  }

  /** Give the same row-major data another shape. */
  function Reshape(a: Array, shape: seq<nat>): (r: Result<Array>)
    ensures r.Ok? <==> Product(a.shape) == Product(shape)
    ensures r.Ok? ==> ValidArray(r.value) && r.value.shape == shape
  {
    if Product(a.shape) != Product(shape) then Err(InvalidParameter)
    else
      LinearUnravelAll(shape);
      Ok(Array(shape, map index | index in Indices(shape) :: Get(a, Unravel(a.shape, Linear(shape, index)))))
  }

  lemma LinearUnravelAll(shape: seq<nat>)
    ensures forall index | InRange(shape, index) :: Linear(shape, index) < Product(shape)
  {
    forall index | InRange(shape, index) ensures Linear(shape, index) < Product(shape) {
      LinearUnravel(shape, index);
    }
  }

  /** The index of a sample, its component indices, and a property. */
  function Cell(s: nat, c: Index, p: nat): Index {
    [s] + c + [p]
  }

  function Middle(index: Index): Index
    requires |index| >= 2
  {
    index[1..|index| - 1]
  }

  lemma CellParts(index: Index)
    requires |index| >= 2
    ensures index == Cell(index[0], Middle(index), Last(index))
  {}

  lemma PartsOfCell(s: nat, c: Index, p: nat)
    ensures var index := Cell(s, c, p);
            |index| == |c| + 2 && index[0] == s && Middle(index) == c && Last(index) == p
  {}

  /** The arrays `move_samples_from` may be called with. */
  ghost predicate Movable(out: Array, input: Array, samples: seq<SampleMapping>, start: nat, end: nat) {
    && ValidArray(out) && ValidArray(input)
    && |out.shape| == |input.shape| >= 2
    && Middle(out.shape) == Middle(input.shape)
    && start <= end <= Last(out.shape)
    && Last(input.shape) == end - start
    && forall k :: 0 <= k < |samples| ==> samples[k].input < input.shape[0] && samples[k].output < out.shape[0]
  }

  function MoveRow(out: Array, input: Array, m: SampleMapping, start: nat, end: nat): (r: Array)
    requires |out.shape| >= 2
    ensures ValidArray(r) && r.shape == out.shape
  {
    Array(out.shape, map index | index in Indices(out.shape) ::
      if index[0] == m.output && start <= Last(index) < end
      then Get(input, Cell(m.input, Middle(index), Last(index) - start))
      else Get(out, index))
  }

  /** Copy `input[samples[k].input, .., :]` to
      `out[samples[k].output, .., start..end]`, for each `k` in order. */
  function MoveSamplesFrom(out: Array, input: Array, samples: seq<SampleMapping>, start: nat, end: nat): (r: Array)
    requires ValidArray(out) && |out.shape| >= 2
    ensures ValidArray(r) && r.shape == out.shape
  {
    if samples == [] then out
    else MoveRow(MoveSamplesFrom(out, input, Front(samples), start, end), input, Last(samples), start, end)
  }

  ghost predicate DistinctOutputs(samples: seq<SampleMapping>) {
    forall i, j :: 0 <= i < j < |samples| ==> samples[i].output != samples[j].output
  }

  /** Cells outside the addressed rows and properties keep their values. */
  lemma {:induction false} MoveLeavesOthers(out: Array, input: Array, samples: seq<SampleMapping>, start: nat, end: nat, index: Index)
    requires ValidArray(out) && |out.shape| >= 2 && InRange(out.shape, index)
    requires start <= Last(index) < end ==> forall k :: 0 <= k < |samples| ==> samples[k].output != index[0]
    ensures Get(MoveSamplesFrom(out, input, samples, start, end), index) == Get(out, index)
  {
    if samples != [] {
      MoveLeavesOthers(out, input, Front(samples), start, end, index);
      assert Last(samples) == samples[|samples| - 1];
    }
  }

  /** The addressed cells get the values of their source row. */
  lemma {:induction false} MoveCopies(out: Array, input: Array, samples: seq<SampleMapping>, start: nat, end: nat, index: Index, k: nat)
    requires ValidArray(out) && |out.shape| >= 2 && InRange(out.shape, index)
    requires DistinctOutputs(samples)
    requires start <= Last(index) < end && k < |samples| && samples[k].output == index[0]
    ensures Get(MoveSamplesFrom(out, input, samples, start, end), index)
         == Get(input, Cell(samples[k].input, Middle(index), Last(index) - start))
  {
    var done := MoveSamplesFrom(out, input, Front(samples), start, end);
    if k < |samples| - 1 {
      MoveCopies(out, input, Front(samples), start, end, index, k);
      MoveRowCell(done, input, Last(samples), start, end, index);
    } else {
      MoveRowCell(done, input, Last(samples), start, end, index);
    }
  }

  lemma MoveRowCell(out: Array, input: Array, m: SampleMapping, start: nat, end: nat, index: Index)
    requires ValidArray(out) && |out.shape| >= 2 && InRange(out.shape, index)
    ensures Get(MoveRow(out, input, m, start, end), index)
         == if index[0] == m.output && start <= Last(index) < end
            then Get(input, Cell(m.input, Middle(index), Last(index) - start))
            else Get(out, index)
  {}
}
