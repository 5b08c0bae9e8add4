/** Moving a component axis of an array into its last axis: an axis swap, then
    a row-major reshape. */
module ComponentMoves {
  import opened RowMajor
  import opened Arrays

  function RemoveAt<T>(s: seq<T>, i: nat): (r: seq<T>)
    requires i < |s|
    ensures |r| == |s| - 1
  {
    s[..i] + s[i + 1..]
  }

  /** The shape `[samples] + components + [properties]`. */
  function Shape(s: nat, components: seq<nat>, p: nat): seq<nat> {
    [s] + components + [p]
  }

  /** The shape after component `axis` has joined the properties. */
  function MovedShape(s: nat, components: seq<nat>, p: nat, axis: nat): seq<nat>
    requires axis < |components|
  {
    Shape(s, RemoveAt(components, axis), components[axis] * p)
  }

  /** Swap the component with the last one, then reshape. */
  function MoveAxis(values: Array, i: nat, last: nat, newShape: seq<nat>): Array
    requires i < |values.shape| && last < |values.shape|
  {
    var moved := Reshape(SwapAxes(values, i, last), newShape);
    if moved.Ok? then moved.value else values
  }

  /** The component axes between the moved one and the last one. */
  function Between(components: seq<nat>, axis: nat): seq<nat>
    requires axis < |components| - 1
  {
    components[axis + 1..|components| - 1]
  }

  /** When moving the component leaves the other components in their order: it
      is the last one, or the axes it jumps over, or the axis that takes its
      place, have a single entry, or there is no data. */
  predicate OrderKept(s: nat, components: seq<nat>, p: nat, axis: nat)
    requires axis < |components|
  {
    || axis == |components| - 1
    || Product(Between(components, axis)) == 1
    || Last(components) == 1
    || Product(Shape(s, components, p)) == 0
  }

  lemma NextToLastKeepsOrder(s: nat, components: seq<nat>, p: nat, axis: nat)
    requires axis < |components| && axis + 2 >= |components|
    ensures OrderKept(s, components, p, axis)
  {
    if axis + 2 == |components| {
      assert Between(components, axis) == [];
    }
  }

  /** The cell `(s, c, p)` is found at `(s, c without axis, c[axis] * P + p)`. */
  ghost predicate CellMoved(values: Array, moved: Array, properties: nat, axis: nat, s: nat, c: Index, p: nat)
    requires axis < |c|
  {
    Get(moved, Cell(s, RemoveAt(c, axis), c[axis] * properties + p)) == Get(values, Cell(s, c, p))
  }

  ghost predicate CellsMoved(values: Array, moved: Array, n: nat, components: seq<nat>, properties: nat, axis: nat) {
    forall s: nat, c: Index, p: nat | s < n && InRange(components, c) && axis < |c| && p < properties ::
      CellMoved(values, moved, properties, axis, s, c, p)
  }

  lemma InShape(n: nat, components: seq<nat>, properties: nat, s: nat, c: Index, p: nat)
    requires s < n && InRange(components, c) && p < properties
    ensures InRange(Shape(n, components, properties), Cell(s, c, p))
  {}

  lemma LinearOfLast(shape: seq<nat>, n: nat, index: Index, i: nat)
    requires |index| == |shape|
    ensures Linear(shape + [n], index + [i]) == Linear(shape, index) * n + i
    ensures Product(shape + [n]) == Product(shape) * n
  {
    assert Front(shape + [n]) == shape && Front(index + [i]) == index;
  }

  lemma Nested(outer: nat, a: nat, m: nat, i: nat, p: nat, j: nat, q: nat, e: nat)
    requires outer == a * m + i && q == m * p && e == i * p + j
    ensures outer * p + j == a * q + e
  {
    assert a * m * p == a * (m * p);
    assert (a * m + i) * p == a * m * p + i * p;
  }

  /** Position of a cell in the two shapes, from the position of the axes in
      front: `q` is the size of the joined axes and `e` the joined index. */
  lemma LinearOfJoined(rest: seq<nat>, index: Index, m: nat, p: nat, q: nat, i: nat, j: nat, e: nat)
    requires |index| == |rest| && q == m * p && e == i * p + j
    ensures Linear(rest + [m] + [p], index + [i] + [j]) == Linear(rest, index) * q + e
    ensures Linear(rest + [q], index + [e]) == Linear(rest, index) * q + e
    ensures Product(rest + [m] + [p]) == Product(rest + [q]) == Product(rest) * q
  {
    LinearOfLast(rest, m, index, i);
    LinearOfLast(rest + [m], p, index + [i], j);
    LinearOfLast(rest, q, index, e);
    Nested(Linear(rest + [m], index + [i]), Linear(rest, index), m, i, p, j, q, e);
    Nested(Product(rest + [m]), Product(rest), m, 0, p, 0, q, 0);
  }

  /** Position of the axes that stay, when the last one stands in front of
      `between`: `w` is the size of both, `e` their index. */
  lemma LinearLastFirst(before: seq<nat>, between: seq<nat>, last: nat, w: nat, x: Index, y: Index, z: nat, e: nat)
    requires |x| == |before| && |y| == |between|
    requires w == last * Product(between) && e == z * Product(between) + Linear(between, y)
    ensures Linear(before + [last] + between, x + [z] + y) == Linear(before, x) * w + e
    ensures Product(before + [last] + between) == Product(before) * w
  {
    LinearOfLast(before, last, x, z);
    LinearAppend(before + [last], between, x + [z], y);
    Nested(Linear(before + [last], x + [z]), Linear(before, x), last, z, Product(between), Linear(between, y), w, e);
    Nested(Product(before + [last]), Product(before), last, 0, Product(between), 0, w, 0);
  }

  /** Position of the axes that stay, when the last one comes last. */
  lemma LinearLastLast(before: seq<nat>, between: seq<nat>, last: nat, w: nat, x: Index, y: Index, z: nat, e: nat)
    requires |x| == |before| && |y| == |between|
    requires w == Product(between) * last && e == Linear(between, y) * last + z
    ensures Linear(before + between + [last], x + y + [z]) == Linear(before, x) * w + e
    ensures Product(before + between + [last]) == Product(before) * w
  {
    LinearAppend(before, between, x, y);
    LinearOfLast(before + between, last, x + y, z);
    Nested(Linear(before + between, x + y), Linear(before, x), Product(between), Linear(between, y), last, z, w, e);
    Nested(Product(before + between), Product(before), Product(between), 0, last, 0, w, 0);
  }

  /** The row-major position that a moved cell is stored at, and the one it is
      read from. */
  function StoredAt(n: nat, components: seq<nat>, p: nat, axis: nat, s: nat, c: Index, j: nat): nat
    requires axis < |components| == |c|
  {
    Linear(Swap(Shape(n, components, p), axis + 1, |components|), Swap(Cell(s, c, j), axis + 1, |components|))
  }

  function ReadAt(n: nat, components: seq<nat>, p: nat, axis: nat, s: nat, c: Index, j: nat): nat
    requires axis < |components| == |c|
  {
    Linear(MovedShape(n, components, p, axis), Cell(s, RemoveAt(c, axis), c[axis] * p + j))
  }

  /** Where a cell is stored when its component is not the last one: the last
      component goes in front of the ones that the move jumps over. */
  lemma StoredPosition(n: nat, components: seq<nat>, p: nat, axis: nat, s: nat, c: Index, j: nat, m: nat, w: nat, e: nat)
    requires axis < |components| - 1 && |c| == |components|
    requires m == components[axis] * p && w == Last(components) * Product(Between(components, axis)) && e == c[axis] * p + j
    ensures StoredAt(n, components, p, axis, s, c, j)
         == (Linear([n] + components[..axis], [s] + c[..axis]) * w
             + (Last(c) * Product(Between(components, axis)) + Linear(Between(components, axis), Between(c, axis)))) * m + e
    ensures Product(Swap(Shape(n, components, p), axis + 1, |components|)) == Product([n] + components[..axis]) * w * m
  {
    var before, between, last := [n] + components[..axis], Between(components, axis), Last(components);
    var x, y, z := [s] + c[..axis], Between(c, axis), Last(c);
    assert Swap(Shape(n, components, p), axis + 1, |components|) == (before + [last] + between) + [components[axis]] + [p];
    assert Swap(Cell(s, c, j), axis + 1, |components|) == (x + [z] + y) + [c[axis]] + [j];
    LinearLastFirst(before, between, last, w, x, y, z, z * Product(between) + Linear(between, y));
    LinearOfJoined(before + [last] + between, x + [z] + y, components[axis], p, m, c[axis], j, e);
  }

  /** Where the same cell is read: the last component stays last. */
  lemma ReadPosition(n: nat, components: seq<nat>, p: nat, axis: nat, s: nat, c: Index, j: nat, m: nat, w: nat, e: nat)
    requires axis < |components| - 1 && |c| == |components|
    requires m == components[axis] * p && w == Last(components) * Product(Between(components, axis)) && e == c[axis] * p + j
    ensures ReadAt(n, components, p, axis, s, c, j)
         == (Linear([n] + components[..axis], [s] + c[..axis]) * w
             + (Linear(Between(components, axis), Between(c, axis)) * Last(components) + Last(c))) * m + e
    ensures Product(MovedShape(n, components, p, axis)) == Product([n] + components[..axis]) * w * m
  {
    var before, between, last := [n] + components[..axis], Between(components, axis), Last(components);
    var x, y, z := [s] + c[..axis], Between(c, axis), Last(c);
    assert MovedShape(n, components, p, axis) == (before + between + [last]) + [m];
    assert Cell(s, RemoveAt(c, axis), e) == (x + y + [z]) + [e];
    assert w == Product(between) * last;
    LinearLastLast(before, between, last, w, x, y, z, Linear(between, y) * last + z);
    LinearOfJoined(before + between + [last], x + y + [z], components[axis], p, m, c[axis], j, e);
  }

  /** Both positions agree if the last component and the ones jumped over
      combine to the same number in either order. */
  lemma Positions(n: nat, components: seq<nat>, p: nat, axis: nat, s: nat, c: Index, j: nat) returns (a: nat, u: nat, v: nat, m: nat, e: nat)
    requires axis < |components| - 1 && |c| == |components|
    ensures u == Last(c) * Product(Between(components, axis)) + Linear(Between(components, axis), Between(c, axis))
    ensures v == Linear(Between(components, axis), Between(c, axis)) * Last(components) + Last(c)
    ensures StoredAt(n, components, p, axis, s, c, j) == (a + u) * m + e
    ensures ReadAt(n, components, p, axis, s, c, j) == (a + v) * m + e
    ensures m == components[axis] * p
    ensures Product(Swap(Shape(n, components, p), axis + 1, |components|)) == Product(MovedShape(n, components, p, axis))
  {
    var w := Last(components) * Product(Between(components, axis));
    m, e := components[axis] * p, c[axis] * p + j;
    a := Linear([n] + components[..axis], [s] + c[..axis]) * w;
    u := Last(c) * Product(Between(components, axis)) + Linear(Between(components, axis), Between(c, axis));
    v := Linear(Between(components, axis), Between(c, axis)) * Last(components) + Last(c);
    StoredPosition(n, components, p, axis, s, c, j, m, w, e);
    ReadPosition(n, components, p, axis, s, c, j, m, w, e);
  }

  lemma PositionsOfLast(n: nat, components: seq<nat>, p: nat, s: nat, c: Index, j: nat)
    requires components != [] && |c| == |components|
    ensures var axis := |components| - 1;
      && StoredAt(n, components, p, axis, s, c, j) == ReadAt(n, components, p, axis, s, c, j)
      && Product(Swap(Shape(n, components, p), axis + 1, |components|)) == Product(MovedShape(n, components, p, axis))
  {
    var axis := |components| - 1;
    var rest, x := [n] + components[..axis], [s] + c[..axis];
    var m, e := components[axis] * p, c[axis] * p + j;
    assert Swap(Shape(n, components, p), axis + 1, |components|) == rest + [components[axis]] + [p];
    assert Swap(Cell(s, c, j), axis + 1, |components|) == x + [c[axis]] + [j];
    assert MovedShape(n, components, p, axis) == rest + [m];
    assert Cell(s, RemoveAt(c, axis), e) == x + [e];
    LinearOfJoined(rest, x, components[axis], p, m, c[axis], j, e);
  }

  /** The reshape never fails. */
  lemma MovedSize(n: nat, components: seq<nat>, p: nat, axis: nat)
    requires axis < |components|
    ensures Product(Swap(Shape(n, components, p), axis + 1, |components|)) == Product(MovedShape(n, components, p, axis))
  {
    var c := seq(|components|, _ => 0);
    if axis < |components| - 1 {
      var a, u, v, m, e := Positions(n, components, p, axis, 0, c, 0);
    } else {
      PositionsOfLast(n, components, p, 0, c, 0);
    }
  }

  /** With the order kept, each cell is read from where it is stored. */
  lemma SamePosition(n: nat, components: seq<nat>, p: nat, axis: nat, s: nat, c: Index, j: nat)
    requires axis < |components| && InRange(components, c) && s < n && j < p
    requires OrderKept(n, components, p, axis)
    ensures StoredAt(n, components, p, axis, s, c, j) == ReadAt(n, components, p, axis, s, c, j)
  {
    hide StoredAt, ReadAt;
    if axis == |components| - 1 {
      PositionsOfLast(n, components, p, s, c, j);
    } else {
      assert Product(Shape(n, components, p)) > 0 by {
        InShape(n, components, p, s, c, j);
        LinearUnravel(Shape(n, components, p), Cell(s, c, j));
      }
      var a, u, v, m, e := Positions(n, components, p, axis, s, c, j);
      var between, y, z := Between(components, axis), Between(c, axis), Last(c);
      LinearUnravel(between, y);
      assert z < Last(components);
      SameCombination(z, Product(between), Linear(between, y), Last(components));
    }
  }

  lemma SameCombination(z: nat, size: nat, y: nat, last: nat)
    requires z < last && y < size && (size == 1 || last == 1)
    ensures z * size + y == y * last + z
  {}

  /** An index stays in range under a swap of two axes. */
  lemma SwapInRange(shape: seq<nat>, index: Index, i: nat, j: nat)
    requires InRange(shape, index) && i < |shape| && j < |shape|
    ensures InRange(Swap(shape, i, j), Swap(index, i, j))
    ensures Swap(Swap(index, i, j), i, j) == index
  {}

  lemma MovedInRange(n: nat, components: seq<nat>, p: nat, axis: nat, s: nat, c: Index, j: nat)
    requires axis < |components| && InRange(components, c) && s < n && j < p
    ensures InRange(MovedShape(n, components, p, axis), Cell(s, RemoveAt(c, axis), c[axis] * p + j))
  {
    BelowProduct(c[axis], p, j, components[axis]);
    InShape(n, RemoveAt(components, axis), components[axis] * p, s, RemoveAt(c, axis), c[axis] * p + j);
  }

  /** What a cell of the moved array holds. */
  lemma MovedCell(values: Array, n: nat, components: seq<nat>, p: nat, axis: nat, s: nat, c: Index, j: nat)
    requires ValidArray(values) && values.shape == Shape(n, components, p)
    requires axis < |components| && InRange(components, c) && s < n && j < p
    ensures var swapped := Swap(values.shape, axis + 1, |components|);
      var at := ReadAt(n, components, p, axis, s, c, j);
      && at < Product(swapped)
      && Get(MoveAxis(values, axis + 1, |components|, MovedShape(n, components, p, axis)), Cell(s, RemoveAt(c, axis), c[axis] * p + j))
         == Get(values, Swap(Unravel(swapped, at), axis + 1, |components|))
  {
    MovedSize(n, components, p, axis);
    MovedInRange(n, components, p, axis, s, c, j);
    ReshapeOfSwap(values, axis + 1, |components|, MovedShape(n, components, p, axis), Cell(s, RemoveAt(c, axis), c[axis] * p + j));
  }

  lemma ReshapeOfSwap(values: Array, i: nat, j: nat, newShape: seq<nat>, index: Index)
    requires i < |values.shape| && j < |values.shape| && InRange(newShape, index)
    requires Product(Swap(values.shape, i, j)) == Product(newShape)
    ensures Linear(newShape, index) < Product(newShape)
    ensures Get(Reshape(SwapAxes(values, i, j), newShape).value, index)
         == Get(values, Swap(Unravel(Swap(values.shape, i, j), Linear(newShape, index)), i, j))
  {
    LinearUnravel(newShape, index);
    ReshapeCell(SwapAxes(values, i, j), newShape, index);
    UnravelLinear(Swap(values.shape, i, j), Linear(newShape, index));
    SwapCell(values, i, j, Unravel(Swap(values.shape, i, j), Linear(newShape, index)));
  }

  lemma ReshapeCell(a: Array, shape: seq<nat>, index: Index)
    requires InRange(shape, index) && Product(a.shape) == Product(shape)
    ensures Linear(shape, index) < Product(shape)
    ensures Get(Reshape(a, shape).value, index) == Get(a, Unravel(a.shape, Linear(shape, index)))
  {
    LinearUnravel(shape, index);
  }

  lemma SwapCell(a: Array, i: nat, j: nat, index: Index)
    requires i < |a.shape| && j < |a.shape| && InRange(Swap(a.shape, i, j), index)
    ensures Get(SwapAxes(a, i, j), index) == Get(a, Swap(index, i, j))
  {}

  lemma MovedIsValid(values: Array, n: nat, components: seq<nat>, p: nat, axis: nat)
    requires values.shape == Shape(n, components, p) && axis < |components|
    ensures var moved := MoveAxis(values, axis + 1, |components|, MovedShape(n, components, p, axis));
      ValidArray(moved) && moved.shape == MovedShape(n, components, p, axis)
    ensures Reshape(SwapAxes(values, axis + 1, |components|), MovedShape(n, components, p, axis)).Ok?
  {
    MovedSize(n, components, p, axis);
  }

  /** With the order kept, every cell keeps its meaning. */
  lemma MoveKeepsCells(values: Array, n: nat, components: seq<nat>, p: nat, axis: nat)
    requires ValidArray(values) && values.shape == Shape(n, components, p) && axis < |components|
    requires OrderKept(n, components, p, axis)
    ensures CellsMoved(values, MoveAxis(values, axis + 1, |components|, MovedShape(n, components, p, axis)), n, components, p, axis)
  {
    var moved := MoveAxis(values, axis + 1, |components|, MovedShape(n, components, p, axis));
    forall s: nat, c: Index, j: nat | s < n && InRange(components, c) && axis < |c| && j < p
      ensures CellMoved(values, moved, p, axis, s, c, j)
    {
      MovedCell(values, n, components, p, axis, s, c, j);
      SamePosition(n, components, p, axis, s, c, j);
      InShape(n, components, p, s, c, j);
      SwapInRange(values.shape, Cell(s, c, j), axis + 1, |components|);
      LinearUnravel(Swap(values.shape, axis + 1, |components|), Swap(Cell(s, c, j), axis + 1, |components|));
    }
  }

  /** The array that is zero except in one cell. */
  function Indicator(shape: seq<nat>, cell: Index): (a: Array)
    ensures ValidArray(a) && a.shape == shape
    ensures InRange(shape, cell) ==> Get(a, cell) == 1
    ensures forall index :: index != cell ==> Get(a, index) == ZERO
  {
    Array(shape, map index | index in Indices(shape) :: if index == cell then 1 else ZERO)
  }

  /** Otherwise there is data that changes its meaning. */
  lemma MoveLosesCells(n: nat, components: seq<nat>, p: nat, axis: nat) returns (values: Array)
    requires axis < |components| && !OrderKept(n, components, p, axis)
    ensures ValidArray(values) && values.shape == Shape(n, components, p)
    ensures !CellsMoved(values, MoveAxis(values, axis + 1, |components|, MovedShape(n, components, p, axis)), n, components, p, axis)
  {
    var k := |components|;
    var c: Index := seq(k, i => if i == k - 1 then 1 else 0);
    NoEmptyAxis(n, components, p);
    values := Indicator(Shape(n, components, p), Cell(0, c, 0));
    LastDiffers(n, components, p, axis, c);
    IndicatorChanges(n, components, p, axis, 0, c, 0);
    OneCellIsEnough(values, MoveAxis(values, axis + 1, |components|, MovedShape(n, components, p, axis)), n, components, p, axis, 0, c, 0);
  }

  lemma OneCellIsEnough(values: Array, moved: Array, n: nat, components: seq<nat>, p: nat, axis: nat, s: nat, c: Index, j: nat)
    requires axis < |components| && InRange(components, c) && s < n && j < p
    requires !CellMoved(values, moved, p, axis, s, c, j)
    ensures !CellsMoved(values, moved, n, components, p, axis)
  {}

  lemma IndicatorChanges(n: nat, components: seq<nat>, p: nat, axis: nat, s: nat, c: Index, j: nat)
    requires axis < |components| && InRange(components, c) && s < n && j < p
    requires StoredAt(n, components, p, axis, s, c, j) != ReadAt(n, components, p, axis, s, c, j)
    ensures var values := Indicator(Shape(n, components, p), Cell(s, c, j));
      !CellMoved(values, MoveAxis(values, axis + 1, |components|, MovedShape(n, components, p, axis)), p, axis, s, c, j)
  {
    var values := Indicator(Shape(n, components, p), Cell(s, c, j));
    InShape(n, components, p, s, c, j);
    MovedCell(values, n, components, p, axis, s, c, j);
    ReadElsewhere(n, components, p, axis, s, c, j);
    var swapped := Swap(values.shape, axis + 1, |components|);
    var source := Swap(Unravel(swapped, ReadAt(n, components, p, axis, s, c, j)), axis + 1, |components|);
    assert Get(values, source) == ZERO;
    assert Get(values, Cell(s, c, j)) == 1;
  }

  lemma NoEmptyAxis(n: nat, components: seq<nat>, p: nat)
    requires Product(Shape(n, components, p)) != 0
    ensures n > 0 && p > 0 && forall i :: 0 <= i < |components| ==> components[i] > 0
  {
    var shape := Shape(n, components, p);
    ProductZero(shape);
    assert shape[0] == n && shape[|components| + 1] == p;
    assert forall i :: 0 <= i < |components| ==> shape[i + 1] == components[i];
  }

  /** A cell read from another position than it is stored at is another cell. */
  lemma ReadElsewhere(n: nat, components: seq<nat>, p: nat, axis: nat, s: nat, c: Index, j: nat)
    requires axis < |components| && InRange(components, c) && s < n && j < p
    requires StoredAt(n, components, p, axis, s, c, j) != ReadAt(n, components, p, axis, s, c, j)
    requires ReadAt(n, components, p, axis, s, c, j) < Product(Swap(Shape(n, components, p), axis + 1, |components|))
    ensures var swapped := Swap(Shape(n, components, p), axis + 1, |components|);
      Swap(Unravel(swapped, ReadAt(n, components, p, axis, s, c, j)), axis + 1, |components|) != Cell(s, c, j)
  {
    var swapped := Swap(Shape(n, components, p), axis + 1, |components|);
    var source := Unravel(swapped, ReadAt(n, components, p, axis, s, c, j));
    UnravelLinear(swapped, ReadAt(n, components, p, axis, s, c, j));
    assert Swap(Swap(source, axis + 1, |components|), axis + 1, |components|) == source;
  }

  lemma LastDiffers(n: nat, components: seq<nat>, p: nat, axis: nat, c: Index)
    requires axis < |components| && !OrderKept(n, components, p, axis)
    requires |c| == |components| && forall i :: 0 <= i < |c| ==> c[i] == if i == |c| - 1 then 1 else 0
    ensures StoredAt(n, components, p, axis, 0, c, 0) != ReadAt(n, components, p, axis, 0, c, 0)
  {
    var a, u, v, m, e := Positions(n, components, p, axis, 0, c, 0);
    LinearStart(Between(components, axis), Between(c, axis));
    NoEmptyAxis(n, components, p);
    assert components[axis] * p > 0;
    assert u == Product(Between(components, axis)) && v == 1;
    Apart(a, u, v, m, e);
  }

  lemma Apart(a: nat, u: nat, v: nat, m: nat, e: nat)
    requires u != v && m > 0
    ensures (a + u) * m + e != (a + v) * m + e
  {
    if u < v {
      Increasing(a + u, a + v, m);
    } else {
      Increasing(a + v, a + u, m);
    }
  }

  lemma Increasing(x: nat, y: nat, m: nat)
    requires x < y && m > 0
    ensures x * m < y * m
  {}

  /** Exactly when moving a component keeps the meaning of all data. */
  lemma MoveKeepsMeaningExactly(n: nat, components: seq<nat>, p: nat, axis: nat)
    requires axis < |components|
    ensures OrderKept(n, components, p, axis) <==>
      forall values: Array | ValidArray(values) && values.shape == Shape(n, components, p) ::
        CellsMoved(values, MoveAxis(values, axis + 1, |components|, MovedShape(n, components, p, axis)), n, components, p, axis)
  {
    if OrderKept(n, components, p, axis) {
      forall values: Array | ValidArray(values) && values.shape == Shape(n, components, p)
        ensures CellsMoved(values, MoveAxis(values, axis + 1, |components|, MovedShape(n, components, p, axis)), n, components, p, axis)
      {
        MoveKeepsCells(values, n, components, p, axis);
      }
    } else {
      var values := MoveLosesCells(n, components, p, axis);
    }
  }
}
