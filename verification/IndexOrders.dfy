/** The two orders of indices in the C++ interface: `linear_index` lets the last
    axis vary fastest, `cartesian_index` the first one. */
module IndexOrders {
  import opened RowMajor

  /** Product of all sizes. */
  method ProductOf(shape: seq<nat>) returns (result: nat)
    ensures result == Product(shape)
  {
    result := 1;
    for i := 0 to |shape|
      invariant result == Product(shape[..i])
    {
      assert Front(shape[..i + 1]) == shape[..i];
      result := result * shape[i];
    }
    assert shape[..|shape|] == shape;
  }

  /** The index at a position when the first axis varies fastest. */
  function FirstFastest(shape: seq<nat>, i: nat): (index: Index)
    ensures |index| == |shape|
  {
    if shape == [] then []
    else if shape[0] == 0 then [0] + FirstFastest(shape[1..], 0)
    else [i % shape[0]] + FirstFastest(shape[1..], i / shape[0])
  }

  /** The position of an index when the first axis varies fastest. */
  function LinearFirst(shape: seq<nat>, index: Index): nat
    requires |index| == |shape|
  {
    if shape == [] then 0 else LinearFirst(shape[1..], index[1..]) * shape[0] + index[0]
  }

  lemma {:induction false} ProductFromFront(shape: seq<nat>)
    requires shape != []
    ensures Product(shape) == Product(shape[1..]) * shape[0]
  {
    if |shape| == 1 {
      assert Front(shape) == [] && shape[1..] == [];
    } else {
      ProductFromFront(Front(shape));
      assert Front(shape)[1..] == Front(shape[1..]);
      Exchange(Product(Front(shape[1..])), shape[0], Last(shape));
    }
  }

  lemma Exchange(p: nat, a: nat, b: nat)
    ensures p * a * b == p * b * a
  {}

  lemma DivideByFirst(shape: seq<nat>, i: nat)
    requires shape != [] && i < Product(shape)
    ensures shape[0] > 0 && i / shape[0] < Product(shape[1..])
  {
    ProductFromFront(shape);
    Quotient(i, shape[0], Product(shape[1..]));
  }

  lemma PrependInRange(shape: seq<nat>, first: nat, rest: Index)
    requires shape != [] && first < shape[0] && InRange(shape[1..], rest)
    ensures InRange(shape, [first] + rest)
    ensures LinearFirst(shape, [first] + rest) == LinearFirst(shape[1..], rest) * shape[0] + first
  {
    var index := [first] + rest;
    assert index[1..] == rest;
    forall k | 0 <= k < |shape| ensures index[k] < shape[k] {
      if k > 0 {
        assert index[k] == rest[k - 1] && shape[k] == shape[1..][k - 1];
      }
    }
  }

  /** Every position has its own index in range. */
  lemma {:induction false} FirstFastestInRange(shape: seq<nat>, i: nat)
    requires i < Product(shape)
    ensures InRange(shape, FirstFastest(shape, i)) && LinearFirst(shape, FirstFastest(shape, i)) == i
  {
    hide InRange, LinearFirst;
    if shape == [] {
      AtNoAxes();
    } else {
      DivideByFirst(shape, i);
      FirstFastestInRange(shape[1..], i / shape[0]);
      FromQuotient(i, shape[0]);
      PrependInRange(shape, i % shape[0], FirstFastest(shape[1..], i / shape[0]));
    }
  }

  lemma AtNoAxes()
    ensures InRange([], []) && LinearFirst([], []) == 0
  {}

  lemma {:induction false} LinearFirstInRange(shape: seq<nat>, index: Index)
    requires InRange(shape, index)
    ensures LinearFirst(shape, index) < Product(shape) && FirstFastest(shape, LinearFirst(shape, index)) == index
  {
    if shape != [] {
      var rest, n := index[1..], shape[0];
      assert InRange(shape[1..], rest);
      LinearFirstInRange(shape[1..], rest);
      var q := LinearFirst(shape[1..], rest);
      ProductFromFront(shape);
      BelowProduct(q, n, index[0], Product(shape[1..]));
      DivMod(q, n, index[0]);
      assert index == [index[0]] + rest;
    }
  }

  lemma NextDigit(shape: seq<nat>, start: seq<nat>, i: nat)
    requires shape != [] && i < Product(shape)
    ensures shape[0] > 0 && i / shape[0] < Product(shape[1..])
    ensures start + FirstFastest(shape, i) == start + [i % shape[0]] + FirstFastest(shape[1..], i / shape[0])
  {
    DivideByFirst(shape, i);
  }

  /** The index of a position, first axis fastest; what is left of the position
      in the end is zero. */
  method CartesianIndex(shape: seq<nat>, position: nat) returns (result: Index)
    requires position < Product(shape)
    ensures result == FirstFastest(shape, position)
  {
    hide Product, FirstFastest;
    result := [];
    var index: nat := position;
    assert shape[0..] == shape;
    for i := 0 to |shape|
      invariant index < Product(shape[i..])
      invariant |result| == i && FirstFastest(shape, position) == result + FirstFastest(shape[i..], index)
    {
      assert shape[i..][0] == shape[i] && shape[i..][1..] == shape[i + 1..];
      NextDigit(shape[i..], result, index);
      result := result + [index % shape[i]];
      index := index / shape[i];
    }
    assert Product(shape[|shape|..]) == 1 && FirstFastest(shape[|shape|..], index) == [] by {
      NoAxes(shape[|shape|..], index);
    }
    assert index == 0;
  }

  lemma NoAxes(shape: seq<nat>, i: nat)
    requires shape == []
    ensures Product(shape) == 1 && FirstFastest(shape, i) == []
  {}

  /** The position of an index, last axis fastest. */
  method LinearIndex(shape: seq<nat>, index: Index) returns (linear: nat)
    requires shape != [] && InRange(shape, index)
    ensures linear == Linear(shape, index)
  {
    linear := index[0];
    assert shape[..1] == [shape[0]] && Front(shape[..1]) == [] && Front(index[..1]) == [];
    for i := 1 to |index|
      invariant linear == Linear(shape[..i], index[..i])
    {
      assert Front(shape[..i + 1]) == shape[..i] && Front(index[..i + 1]) == index[..i];
      linear := linear * shape[i];
      linear := linear + index[i];
    }
    assert shape[..|shape|] == shape && index[..|index|] == index;
  }

  /** All sizes but at most one are 1. */
  predicate OneLongAxis(shape: seq<nat>) {
    forall j, k :: 0 <= j < k < |shape| ==> shape[j] == 1 || shape[k] == 1
  }

  lemma LinearFromFront(shape: seq<nat>, index: Index)
    requires shape != [] && |index| == |shape|
    ensures Linear(shape, index) == index[0] * Product(shape[1..]) + Linear(shape[1..], index[1..])
  {
    LinearAppend([shape[0]], shape[1..], [index[0]], index[1..]);
    assert [shape[0]] + shape[1..] == shape && [index[0]] + index[1..] == index;
    assert Linear([shape[0]], [index[0]]) == index[0] by {
      assert Front([shape[0]]) == [] && Front([index[0]]) == [];
    }
  }

  lemma FromFirstAxis(shape: seq<nat>, i: nat)
    requires shape != [] && i < Product(shape)
    ensures shape[0] > 0 && Product(shape) == Product(shape[1..]) * shape[0]
    ensures Linear(shape, FirstFastest(shape, i))
         == i % shape[0] * Product(shape[1..]) + Linear(shape[1..], FirstFastest(shape[1..], i / shape[0]))
  {
    hide Product, Linear;
    DivideByFirst(shape, i);
    ProductFromFront(shape);
    var first, rest := i % shape[0], FirstFastest(shape[1..], i / shape[0]);
    LinearFromFront(shape, [first] + rest);
    assert ([first] + rest)[1..] == rest;
  }

  lemma {:induction false} OnesHaveProductOne(shape: seq<nat>)
    requires forall k :: 0 <= k < |shape| ==> shape[k] == 1
    ensures Product(shape) == 1
  {
    if shape != [] {
      OnesHaveProductOne(Front(shape));
    }
  }

  /** With one long axis, both orders are the same. */
  lemma {:induction false} OrdersAgree(shape: seq<nat>, i: nat)
    requires OneLongAxis(shape) && i < Product(shape)
    ensures Linear(shape, FirstFastest(shape, i)) == i
  {
    hide Product, Linear, FirstFastest;
    if shape == [] {
      NoAxes(shape, i);
      assert Linear([], []) == 0 by { NoIndex(); }
    } else {
      var rest := shape[1..];
      DivideByFirst(shape, i);
      FromFirstAxis(shape, i);
      assert OneLongAxis(rest);
      OrdersAgree(rest, i / shape[0]);
      FromQuotient(i, shape[0]);
      if shape[0] != 1 {
        assert forall k :: 0 <= k < |rest| ==> rest[k] == shape[k + 1] == 1;
        OnesHaveProductOne(rest);
      }
    }
  }

  lemma NoIndex()
    ensures Linear([], []) == 0
  {}

  lemma {:induction false} FirstIsZero(shape: seq<nat>)
    requires Product(shape) > 0
    ensures Linear(shape, FirstFastest(shape, 0)) == 0
  {
    if shape != [] {
      var index := FirstFastest(shape, 0);
      DivideByFirst(shape, 0);
      LinearFromFront(shape, index);
      assert index[1..] == FirstFastest(shape[1..], 0);
      FirstIsZero(shape[1..]);
    }
  }

  lemma {:induction false} LargeProduct(shape: seq<nat>, k: nat)
    requires Product(shape) > 0 && k < |shape| && shape[k] != 1
    ensures Product(shape) > 1
  {
    var n := |shape| - 1;
    Positive(Product(Front(shape)), Last(shape));
    if k < n {
      LargeProduct(Front(shape), k);
      AtLeast(Product(Front(shape)), Last(shape));
    } else {
      AtLeast(Last(shape), Product(Front(shape)));
    }
  }

  lemma Positive(a: nat, b: nat)
    requires a * b > 0
    ensures a > 0 && b > 0
  {
    assert a == 0 ==> a * b == 0;
    assert b == 0 ==> a * b == 0;
  }

  lemma AtLeast(a: nat, b: nat)
    requires b > 0
    ensures a * b >= a && b * a >= a
  {
    assert a * b == a + a * (b - 1);
  }

  /** With two long axes, the second position differs in the two orders. */
  lemma {:induction false} OrdersDiffer(shape: seq<nat>, j: nat, k: nat)
    requires j < k < |shape| && shape[j] != 1 && shape[k] != 1 && Product(shape) > 0
    ensures Product(shape) > 1 && Linear(shape, FirstFastest(shape, 1)) > 1
  {
    hide Product, Linear, FirstFastest;
    LargeProduct(shape, j);
    var rest := shape[1..];
    FromFirstAxis(shape, 1);
    Positive(Product(rest), shape[0]);
    assert rest[k - 1] == shape[k];
    LargeProduct(rest, k - 1);
    if shape[0] == 1 {
      assert rest[j - 1] == shape[j];
      OrdersDiffer(rest, j - 1, k - 1);
    } else {
      FirstIsZero(rest);
    }
  }

  /** The two orders agree exactly if at most one axis has a size other than 1,
      or there are no elements at all. */
  lemma OrdersAgreeExactly(shape: seq<nat>)
    ensures (forall i :: 0 <= i < Product(shape) ==> Linear(shape, FirstFastest(shape, i)) == i)
       <==> OneLongAxis(shape) || Product(shape) == 0
  {
    if OneLongAxis(shape) {
      forall i | 0 <= i < Product(shape) ensures Linear(shape, FirstFastest(shape, i)) == i {
        OrdersAgree(shape, i);
      }
    } else if Product(shape) > 0 {
      var j, k :| 0 <= j < k < |shape| && shape[j] != 1 && shape[k] != 1;
      OrdersDiffer(shape, j, k);
    }
  }
}
