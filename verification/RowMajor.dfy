/** Multi-dimensional indices and their positions in row-major and in
    first-axis-fastest order. */
module RowMajor {

  type Index = seq<nat>

  predicate InRange(shape: seq<nat>, index: Index) {
    |index| == |shape| && forall k :: 0 <= k < |shape| ==> index[k] < shape[k]
  }

  function Product(shape: seq<nat>): nat {
    if shape == [] then 1 else Product(Front(shape)) * Last(shape)
  }

  function Front<T>(s: seq<T>): seq<T>
    requires s != []
  {
    s[..|s| - 1]
  }

  function Last<T>(s: seq<T>): T
    requires s != []
  {
    s[|s| - 1]
  }

  /** Position of `index` when the last axis varies fastest. */
  function Linear(shape: seq<nat>, index: Index): nat
    requires |index| == |shape|
  {
    if shape == [] then 0 else Linear(Front(shape), Front(index)) * Last(shape) + Last(index)
  }

  /** The index at a row-major position. */
  function Unravel(shape: seq<nat>, i: nat): (index: Index)
    requires i < Product(shape)
    ensures |index| == |shape|
  {
    if shape == [] then []
    else
      DivideByLast(shape, i);
      Unravel(Front(shape), i / Last(shape)) + [i % Last(shape)]
  }

  lemma DivideByLast(shape: seq<nat>, i: nat)
    requires shape != [] && i < Product(shape)
    ensures Last(shape) > 0 && i / Last(shape) < Product(Front(shape))
  {
    Quotient(i, Last(shape), Product(Front(shape)));
  }

  lemma Quotient(i: nat, n: nat, p: nat)
    requires i < p * n
    ensures n > 0 && i / n < p
  {
    assert n > 0 by {
      assert n == 0 ==> p * n == 0;
    }
    var q := i / n;
    assert q * n <= i < p * n;
    assert p <= q ==> p * n <= q * n;
  }

  lemma DivMod(q: nat, n: nat, r: nat)
    requires r < n
    ensures (q * n + r) / n == q && (q * n + r) % n == r
  {
    var x := q * n + r;
    assert x == n * (x / n) + x % n;
    var d := x / n - q;
    assert n * d == r - x % n;
    assert d >= 1 ==> n * d >= n;
    assert d <= -1 ==> n * d + n <= 0;
  }

  lemma BelowProduct(q: nat, n: nat, r: nat, p: nat)
    requires q < p && r < n
    ensures q * n + r < p * n
  {
    assert (q + 1) * n <= p * n;
  }

  lemma AppendIndex(shape: seq<nat>, front: Index, r: nat)
    requires shape != [] && InRange(Front(shape), front) && r < Last(shape)
    ensures InRange(shape, front + [r])
    ensures Linear(shape, front + [r]) == Linear(Front(shape), front) * Last(shape) + r
  {
    assert Front(front + [r]) == front;
    InRangeLast(shape, front + [r]);
  }

  lemma InRangeLast(shape: seq<nat>, index: Index)
    requires shape != [] && |index| == |shape|
    requires InRange(Front(shape), Front(index)) && Last(index) < Last(shape)
    ensures InRange(shape, index)
  {
    assert forall k :: 0 <= k < |shape| - 1 ==> shape[k] == Front(shape)[k] && index[k] == Front(index)[k];
  }

  lemma AddTimes(a: nat, p: nat, l: nat)
    ensures (a + p) * l == a * l + p * l
  {}

  /** One step along an axis passes over all positions of the axes behind it. */
  lemma {:induction false} LinearStep(shape: seq<nat>, index: Index, k: nat)
    requires |index| == |shape| && k < |shape|
    ensures Linear(shape, index[k := index[k] + 1]) == Linear(shape, index) + Product(shape[k + 1..])
  {
    var next := index[k := index[k] + 1];
    var n := |shape| - 1;
    if k == n {
      assert Front(next) == Front(index) && shape[k + 1..] == [];
    } else {
      LinearStep(Front(shape), Front(index), k);
      assert Front(next) == Front(index)[k := index[k] + 1] && Last(next) == Last(index);
      assert Front(shape[k + 1..]) == Front(shape)[k + 1..] && Last(shape[k + 1..]) == Last(shape);
      AddTimes(Linear(Front(shape), Front(index)), Product(Front(shape)[k + 1..]), Last(shape));
    }
  }

  /** The index of zeros is at the start. */
  lemma {:induction false} LinearStart(shape: seq<nat>, index: Index)
    requires |index| == |shape| && forall k :: 0 <= k < |index| ==> index[k] == 0
    ensures Linear(shape, index) == 0
  {
    if shape != [] {
      LinearStart(Front(shape), Front(index));
    }
  }

  /** Row-major positions of the indices in range are exactly `0 .. Product`. */
  lemma {:induction false} LinearUnravel(shape: seq<nat>, index: Index)
    requires InRange(shape, index)
    ensures Linear(shape, index) < Product(shape)
    ensures Unravel(shape, Linear(shape, index)) == index
  {
    if shape != [] {
      LinearUnravel(Front(shape), Front(index));
      var q := Linear(Front(shape), Front(index));
      DivMod(q, Last(shape), Last(index));
      BelowProduct(q, Last(shape), Last(index), Product(Front(shape)));
      assert index == Front(index) + [Last(index)];
    }
  }

  lemma {:induction false} UnravelLinear(shape: seq<nat>, i: nat)
    requires i < Product(shape)
    ensures InRange(shape, Unravel(shape, i))
    ensures Linear(shape, Unravel(shape, i)) == i
  {
    if shape != [] {
      hide Product, Linear, InRange;
      DivideByLast(shape, i);
      UnravelLinear(Front(shape), i / Last(shape));
      FromQuotient(i, Last(shape));
      AppendIndex(shape, Unravel(Front(shape), i / Last(shape)), i % Last(shape));
    }
  }

  lemma FromQuotient(i: nat, n: nat)
    requires n > 0
    ensures i % n < n && i / n * n + i % n == i
  {}

  /** The position of a concatenated index. */
  lemma {:induction false} LinearAppend(s: seq<nat>, t: seq<nat>, i: Index, j: Index)
    requires |i| == |s| && |j| == |t|
    ensures Linear(s + t, i + j) == Linear(s, i) * Product(t) + Linear(t, j)
    ensures Product(s + t) == Product(s) * Product(t)
  {
    if t == [] {
      assert s + t == s && i + j == i;
    } else {
      assert Front(s + t) == s + Front(t) && Front(i + j) == i + Front(j);
      LinearAppend(s, Front(t), i, Front(j));
      Regroup(Linear(s + Front(t), i + Front(j)), Linear(s, i), Product(Front(t)), Linear(Front(t), Front(j)), Last(t));
      Regroup(Product(s + Front(t)), Product(s), Product(Front(t)), 0, Last(t));
    }
  }

  lemma Regroup(outer: nat, a: nat, p: nat, b: nat, n: nat)
    requires outer == a * p + b
    ensures outer * n == a * (p * n) + b * n
  {
    assert a * p * n == a * (p * n);
  }

  /** Every index in range, as a finite set. */
  function Indices(shape: seq<nat>): (s: set<Index>)
    ensures forall index :: index in s <==> InRange(shape, index)
  {
    if shape == [] then {[]}
    else
      var front, n := Indices(Front(shape)), Last(shape);
      var s := set index: Index, last: nat | index in front && 0 <= last < n :: index + [last];
      assert forall index :: index in s <==> InRange(shape, index) by {
        forall index ensures index in s <==> InRange(shape, index) {
          if InRange(shape, index) {
            assert Front(index) in front;
            assert index == Front(index) + [Last(index)];
          }
        }
      }
      s
  }

  lemma {:induction false} ProductZero(shape: seq<nat>)
    ensures Product(shape) == 0 <==> exists k :: 0 <= k < |shape| && shape[k] == 0
  {
    if shape != [] {
      ProductZero(Front(shape));
      var p, n := Product(Front(shape)), Last(shape);
      if n == 0 { assert p * n == 0; }
      if p == 0 { assert p * n == 0; }
      if p > 0 && n > 0 { assert p * n > 0; }
      assert shape == Front(shape) + [n];
      assert forall k :: 0 <= k < |shape| - 1 ==> shape[k] == Front(shape)[k];
    }
  }
}
