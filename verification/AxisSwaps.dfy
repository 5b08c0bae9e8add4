/** What the C++ `swap_axes` does to row-major data: positions are read with the
    first axis fastest and written with the last axis fastest. */
module AxisSwaps {
  import opened RowMajor
  import opened Arrays
  import opened DataFiles
  import opened ComponentMoves
  import opened IndexOrders

  lemma ProductAppend(s: seq<nat>, t: seq<nat>)
    ensures Product(s + t) == Product(s) * Product(t)
  {
    LinearAppend(s, t, s, t);
  }

  lemma ProductOfOne(n: nat)
    ensures Product([n]) == n
  {
    assert Front([n]) == [];
  }

  lemma ProductAround(a: seq<nat>, x: nat, b: seq<nat>, y: nat, c: seq<nat>)
    ensures Product(a + [x] + b + [y] + c) == Product(a) * x * Product(b) * y * Product(c)
  {
    hide Product;
    ProductOfOne(x);
    ProductOfOne(y);
    ProductAppend(a, [x]);
    ProductAppend(a + [x], b);
    ProductAppend(a + [x] + b, [y]);
    ProductAppend(a + [x] + b + [y], c);
  }

  lemma ExchangeFactors(a: nat, x: nat, b: nat, y: nat, c: nat)
    ensures a * x * b * y * c == a * y * b * x * c
  {
    calc {
      a * x * b * y;
      a * b * (x * y);
      a * y * b * x;
    }
  }

  lemma SplitAtTwo(s: seq<nat>, i: nat, j: nat)
    requires i < j < |s|
    ensures s == s[..i] + [s[i]] + s[i + 1..j] + [s[j]] + s[j + 1..]
  {}

  lemma SwapAround(a: seq<nat>, x: nat, b: seq<nat>, y: nat, c: seq<nat>)
    ensures Swap(a + [x] + b + [y] + c, |a|, |a| + 1 + |b|) == a + [y] + b + [x] + c
  {}

  lemma SwapIsSymmetric(s: seq<nat>, i: nat, j: nat)
    requires i < |s| && j < |s|
    ensures Swap(s, i, j) == Swap(s, j, i)
  {}

  lemma {:induction false} SwapKeepsProduct(shape: seq<nat>, i: nat, j: nat)
    requires i < |shape| && j < |shape|
    ensures Product(Swap(shape, i, j)) == Product(shape)
    decreases i
  {
    hide Product;
    if i == j {
      assert Swap(shape, i, j) == shape;
    } else if j < i {
      SwapIsSymmetric(shape, i, j);
      SwapKeepsProduct(shape, j, i);
    } else {
      hide Swap;
      var a, b, c := shape[..i], shape[i + 1..j], shape[j + 1..];
      SplitAtTwo(shape, i, j);
      SwapAround(a, shape[i], b, shape[j], c);
      ProductAround(a, shape[i], b, shape[j], c);
      ProductAround(a, shape[j], b, shape[i], c);
      ExchangeFactors(Product(a), shape[i], Product(b), shape[j], Product(c));
    }
  }

  /** Where the value at a position goes. */
  function Target(shape: seq<nat>, a: nat, b: nat, i: nat): nat
    requires a < |shape| && b < |shape|
  {
    Linear(Swap(shape, a, b), Swap(FirstFastest(shape, i), a, b))
  }

  /** Where the value at a position comes from. */
  function Origin(shape: seq<nat>, a: nat, b: nat, j: nat): nat
    requires a < |shape| && b < |shape| && j < Product(Swap(shape, a, b))
  {
    LinearFirst(shape, Swap(Unravel(Swap(shape, a, b), j), a, b))
  }

  lemma OriginOfTarget(shape: seq<nat>, a: nat, b: nat, i: nat)
    requires a < |shape| && b < |shape| && i < Product(shape)
    ensures Target(shape, a, b, i) < Product(Swap(shape, a, b)) == Product(shape)
    ensures Origin(shape, a, b, Target(shape, a, b, i)) == i
  {
    hide Product, Linear, FirstFastest, Unravel, LinearFirst, InRange, Swap;
    SwapKeepsProduct(shape, a, b);
    FirstFastestInRange(shape, i);
    SwapInRange(shape, FirstFastest(shape, i), a, b);
    LinearUnravel(Swap(shape, a, b), Swap(FirstFastest(shape, i), a, b));
  }

  lemma SwapBack(shape: seq<nat>, a: nat, b: nat, index: Index)
    requires a < |shape| && b < |shape| && InRange(Swap(shape, a, b), index)
    ensures InRange(shape, Swap(index, a, b)) && Swap(Swap(index, a, b), a, b) == index
  {
    SwapInRange(Swap(shape, a, b), index, a, b);
    assert Swap(Swap(shape, a, b), a, b) == shape;
  }

  lemma TargetOfOrigin(shape: seq<nat>, a: nat, b: nat, j: nat)
    requires a < |shape| && b < |shape| && j < Product(Swap(shape, a, b))
    ensures Origin(shape, a, b, j) < Product(shape) && Target(shape, a, b, Origin(shape, a, b, j)) == j
  {
    hide Product, Linear, FirstFastest, Unravel, LinearFirst, InRange, Swap;
    var index := Unravel(Swap(shape, a, b), j);
    UnravelLinear(Swap(shape, a, b), j);
    SwapBack(shape, a, b, index);
    LinearFirstInRange(shape, Swap(index, a, b));
  }

  /** The data after the exchange. */
  function SwappedData(shape: seq<nat>, data: seq<Value>, a: nat, b: nat): (r: seq<Value>)
    requires a < |shape| && b < |shape| && |data| == Product(shape)
    ensures |r| == |data|
  {
    SwapKeepsProduct(shape, a, b);
    seq(|data|, j requires 0 <= j < |data| =>
      TargetOfOrigin(shape, a, b, j);
      data[Origin(shape, a, b, j)])
  }

  /** Values moved to distinct positions are the same values. */
  lemma {:induction false} MovedOneToOne(from: seq<Value>, to: seq<Value>, target: seq<nat>)
    requires |from| == |to| == |target|
    requires forall i :: 0 <= i < |target| ==> target[i] < |to| && to[target[i]] == from[i]
    requires forall i, k :: 0 <= i < k < |target| ==> target[i] != target[k]
    ensures multiset(from) == multiset(to)
  {
    var n := |from| - 1;
    if from == [] {
      assert to == [];
    } else {
      var p := target[n];
      var others := seq(n, i requires 0 <= i < n => if target[i] < p then target[i] else target[i] - 1);
      MovedOneToOne(from[..n], to[..p] + to[p + 1..], others);
      assert from == from[..n] + [from[n]];
      assert to == to[..p] + [to[p]] + to[p + 1..];
    }
  }

  lemma DataIsMoved(shape: seq<nat>, data: seq<Value>, a: nat, b: nat, i: nat)
    requires a < |shape| && b < |shape| && i < |data| == Product(shape)
    ensures Target(shape, a, b, i) < |data| && SwappedData(shape, data, a, b)[Target(shape, a, b, i)] == data[i]
  {
    hide Product, Target, Origin;
    OriginOfTarget(shape, a, b, i);
  }

  lemma TargetsDiffer(shape: seq<nat>, a: nat, b: nat, i: nat, k: nat)
    requires a < |shape| && b < |shape| && i < Product(shape) && k < Product(shape) && i != k
    ensures Target(shape, a, b, i) != Target(shape, a, b, k)
  {
    hide Product, Target, Origin;
    OriginOfTarget(shape, a, b, i);
    OriginOfTarget(shape, a, b, k);
  }

  /** No value is lost and none is doubled. */
  lemma SwapPermutesData(shape: seq<nat>, data: seq<Value>, a: nat, b: nat)
    requires a < |shape| && b < |shape| && |data| == Product(shape)
    ensures multiset(SwappedData(shape, data, a, b)) == multiset(data)
  {
    hide Product, Target, SwappedData;
    var targets := seq(|data|, i requires 0 <= i < |data| => Target(shape, a, b, i));
    forall i | 0 <= i < |data| ensures targets[i] < |data| && SwappedData(shape, data, a, b)[targets[i]] == data[i] {
      DataIsMoved(shape, data, a, b, i);
    }
    forall i, k | 0 <= i < k < |data| ensures targets[i] != targets[k] {
      TargetsDiffer(shape, a, b, i, k);
    }
    MovedOneToOne(data, SwappedData(shape, data, a, b), targets);
  }

  /** The array is what exchanging the two axes should give. */
  ghost predicate SwapIsRight(shape: seq<nat>, data: seq<Value>, a: nat, b: nat)
    requires a < |shape| && b < |shape| && |data| == Product(shape)
  {
    Filled(Swap(shape, a, b), SwappedData(shape, data, a, b)) == SwapAxes(Filled(shape, data), a, b)
  }

  lemma FilledCell(shape: seq<nat>, data: seq<Value>, index: Index)
    requires InRange(shape, index) && |data| == Product(shape)
    ensures Linear(shape, index) < |data| && Get(Filled(shape, data), index) == data[Linear(shape, index)]
  {
    hide Product, Linear;
    LinearUnravel(shape, index);
  }

  lemma WantedCell(shape: seq<nat>, data: seq<Value>, a: nat, b: nat, index: Index)
    requires a < |shape| && b < |shape| && |data| == Product(shape) && |index| == |shape| && InRange(shape, index)
    ensures Linear(shape, index) < |data|
    ensures Get(SwapAxes(Filled(shape, data), a, b), Swap(index, a, b)) == data[Linear(shape, index)]
  {
    hide Product, Linear, InRange, Swap, SwapAxes, Get, Filled;
    SwapInRange(shape, index, a, b);
    SwapCell(Filled(shape, data), a, b, Swap(index, a, b));
    FilledCell(shape, data, index);
  }

  lemma FoundCell(shape: seq<nat>, data: seq<Value>, a: nat, b: nat, index: Index)
    requires a < |shape| && b < |shape| && |data| == Product(shape) && |index| == |shape| && InRange(shape, index)
    ensures LinearFirst(shape, index) < |data|
    ensures Get(Filled(Swap(shape, a, b), SwappedData(shape, data, a, b)), Swap(index, a, b)) == data[LinearFirst(shape, index)]
  {
    hide Product, Linear, InRange, Swap, SwappedData, Get, Filled;
    SwapInRange(shape, index, a, b);
    LinearFirstInRange(shape, index);
    SwapKeepsProduct(shape, a, b);
    FilledCell(Swap(shape, a, b), SwappedData(shape, data, a, b), Swap(index, a, b));
    DataIsMoved(shape, data, a, b, LinearFirst(shape, index));
    assert Target(shape, a, b, LinearFirst(shape, index)) == Linear(Swap(shape, a, b), Swap(index, a, b));
  }

  lemma RightIfOneLongAxis(shape: seq<nat>, data: seq<Value>, a: nat, b: nat)
    requires a < |shape| && b < |shape| && |data| == Product(shape)
    requires OneLongAxis(shape) || Product(shape) == 0
    ensures SwapIsRight(shape, data, a, b)
  {
    hide Product, Linear, FirstFastest, LinearFirst, InRange, Swap, SwappedData, OneLongAxis;
    var now := Filled(Swap(shape, a, b), SwappedData(shape, data, a, b));
    var wanted := SwapAxes(Filled(shape, data), a, b);
    forall index: Index | InRange(now.shape, index) ensures Get(now, index) == Get(wanted, index) {
      SwapBack(shape, a, b, index);
      var source := Swap(index, a, b);
      WantedCell(shape, data, a, b, source);
      FoundCell(shape, data, a, b, source);
      LinearFirstInRange(shape, source);
      OrdersAgree(shape, LinearFirst(shape, source));
    }
    SameArray(now, wanted);
  }

  /** Data in which the second value differs from all others. */
  function Marked(n: nat): (r: seq<Value>)
    ensures |r| == n
  {
    seq(n, i => if i == 1 then 1 else ZERO)
  }

  lemma WrongIfTwoLongAxes(shape: seq<nat>, a: nat, b: nat)
    requires a < |shape| && b < |shape| && !OneLongAxis(shape) && Product(shape) > 0
    ensures !SwapIsRight(shape, Marked(Product(shape)), a, b)
  {
    hide Product, Linear, FirstFastest, LinearFirst, InRange, Swap, SwappedData;
    var j, k :| 0 <= j < k < |shape| && shape[j] != 1 && shape[k] != 1;
    OrdersDiffer(shape, j, k);
    FirstFastestInRange(shape, 1);
    WantedCell(shape, Marked(Product(shape)), a, b, FirstFastest(shape, 1));
    FoundCell(shape, Marked(Product(shape)), a, b, FirstFastest(shape, 1));
  }

  /** `swap_axes` exchanges the axes for all data exactly if at most one axis has
      a size other than 1, or there is no data; even for an axis swapped with
      itself. */
  lemma SwapIsRightExactly(shape: seq<nat>, a: nat, b: nat)
    requires a < |shape| && b < |shape|
    ensures (forall data: seq<Value> | |data| == Product(shape) :: SwapIsRight(shape, data, a, b))
       <==> OneLongAxis(shape) || Product(shape) == 0
  {
    hide SwapIsRight, OneLongAxis, Product;
    if OneLongAxis(shape) || Product(shape) == 0 {
      forall data: seq<Value> | |data| == Product(shape) ensures SwapIsRight(shape, data, a, b) {
        RightIfOneLongAxis(shape, data, a, b);
      }
    } else {
      WrongIfTwoLongAxes(shape, a, b);
    }
  }
}
