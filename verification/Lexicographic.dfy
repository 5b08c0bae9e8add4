/** Label rows, their lexicographic order, and sorting by that order. */
module Lexicographic {
  import opened Sequences

  /** One label entry: a tuple of label values. */
  type Row = seq<int>

  predicate LexLess(a: Row, b: Row) {
    if b == [] then false
    else if a == [] then true
    else a[0] < b[0] || (a[0] == b[0] && LexLess(a[1..], b[1..]))
  }

  lemma LexIrreflexive(a: Row)
    ensures !LexLess(a, a)
  {}

  lemma {:induction false} LexTransitive(a: Row, b: Row, c: Row)
    requires LexLess(a, b) && LexLess(b, c)
    ensures LexLess(a, c)
  {
    if a != [] && a[0] == b[0] == c[0] {
      LexTransitive(a[1..], b[1..], c[1..]);
    }
  }

  lemma {:induction false} LexTotal(a: Row, b: Row)
    ensures LexLess(a, b) || a == b || LexLess(b, a)
  {
    if a != [] && b != [] && a[0] == b[0] {
      LexTotal(a[1..], b[1..]);
      assert a == [a[0]] + a[1..] && b == [b[0]] + b[1..];
    }
  }

  ghost predicate Sorted(rows: seq<Row>) {
    forall i, j :: 0 <= i < j < |rows| ==> rows[i] == rows[j] || LexLess(rows[i], rows[j])
  }

  ghost predicate StrictlySorted(rows: seq<Row>) {
    forall i, j :: 0 <= i < j < |rows| ==> LexLess(rows[i], rows[j])
  }

  /** The rows agree before column `k`, where `a` has the smaller integer. */
  ghost predicate SmallerAt(a: Row, b: Row, k: nat) {
    k < |a| && k < |b| && a[..k] == b[..k] && a[k] < b[k]
  }

  ghost predicate Smaller(a: Row, b: Row) {
    exists k: nat :: SmallerAt(a, b, k)
  }

  /** What the order is: the first column where two rows differ decides, by its
      integers; a row that ends where another one goes on comes first. */
  lemma {:induction false} LexLessExactly(a: Row, b: Row)
    ensures LexLess(a, b) <==> a < b || Smaller(a, b)
  {
    if a != [] && b != [] {
      assert a == [a[0]] + a[1..] && b == [b[0]] + b[1..];
      LexLessExactly(a[1..], b[1..]);
      if a[0] < b[0] {
        assert SmallerAt(a, b, 0);
      } else if LexLess(a, b) && !(a < b) {
        var k: nat :| SmallerAt(a[1..], b[1..], k);
        SmallerInRest(a, b, k);
      } else if k: nat :| SmallerAt(a, b, k) {
        SmallerInRest(a, b, k - 1);
      }
    }
  }

  lemma SmallerInRest(a: Row, b: Row, k: nat)
    requires a != [] && b != [] && a[0] == b[0]
    ensures SmallerAt(a[1..], b[1..], k) <==> SmallerAt(a, b, k + 1)
  {
    if k + 1 <= |a| && k + 1 <= |b| {
      assert a[..k + 1] == [a[0]] + a[1..][..k] && b[..k + 1] == [b[0]] + b[1..][..k];
    }
  }

  /** In the first column where two rows differ, the earlier row is smaller. */
  ghost predicate Ascending(rows: seq<Row>) {
    forall i, j :: 0 <= i < j < |rows| ==> Smaller(rows[i], rows[j])
  }

  lemma SortedIsAscending(rows: seq<Row>, size: nat)
    requires StrictlySorted(rows) && forall i :: 0 <= i < |rows| ==> |rows[i]| == size
    ensures Ascending(rows)
  {
    forall i, j | 0 <= i < j < |rows| ensures Smaller(rows[i], rows[j]) {
      LexLessExactly(rows[i], rows[j]);
    }
  }

  function InsertInOrder(rows: seq<Row>, x: Row): seq<Row> {
    if rows == [] then [x]
    else if x == rows[0] || LexLess(x, rows[0]) then [x] + rows
    else [rows[0]] + InsertInOrder(rows[1..], x)
  }

  lemma {:induction false} InsertInOrderKeepsOrder(rows: seq<Row>, x: Row)
    requires Sorted(rows)
    ensures Sorted(InsertInOrder(rows, x))
    ensures multiset(InsertInOrder(rows, x)) == multiset(rows) + multiset{x}
  {
    if rows != [] {
      assert rows == [rows[0]] + rows[1..];
      if x == rows[0] || LexLess(x, rows[0]) {
        BelowAll(x, rows);
      } else {
        LexTotal(x, rows[0]);
        InsertInOrderKeepsOrder(rows[1..], x);
        PrependLeast(rows[0], rows[1..], x, InsertInOrder(rows[1..], x));
      }
    }
  }

  lemma PrependLeast(least: Row, before: seq<Row>, x: Row, rest: seq<Row>)
    requires Sorted(rest) && multiset(rest) == multiset(before) + multiset{x}
    requires forall j :: 0 <= j < |before| ==> least == before[j] || LexLess(least, before[j])
    requires least == x || LexLess(least, x)
    ensures Sorted([least] + rest)
  {
    forall j | 0 <= j < |rest| ensures least == rest[j] || LexLess(least, rest[j]) {
      assert rest[j] in multiset(rest);
      assert rest[j] == x || rest[j] in before;
    }
  }

  lemma BelowAll(x: Row, rows: seq<Row>)
    requires rows != [] && Sorted(rows) && (x == rows[0] || LexLess(x, rows[0]))
    ensures forall j :: 0 <= j < |rows| ==> x == rows[j] || LexLess(x, rows[j])
  {
    forall j | 0 <= j < |rows| ensures x == rows[j] || LexLess(x, rows[j]) {
      if j > 0 && x != rows[0] && rows[0] != rows[j] {
        LexTransitive(x, rows[0], rows[j]);
      }
    }
  }

  /** What a comparison sort returns. */
  function SortRows(rows: seq<Row>): seq<Row> {
    if rows == [] then [] else InsertInOrder(SortRows(rows[1..]), rows[0])
  }

  lemma {:induction false} SortRowsSorts(rows: seq<Row>)
    ensures Sorted(SortRows(rows))
    ensures multiset(SortRows(rows)) == multiset(rows)
  {
    if rows != [] {
      assert rows == [rows[0]] + rows[1..];
      SortRowsSorts(rows[1..]);
      InsertInOrderKeepsOrder(SortRows(rows[1..]), rows[0]);
    }
  }

  lemma CountOfDistinct(s: seq<Row>, x: Row)
    requires Distinct(s) && x in s
    ensures multiset(s)[x] == 1
  {
    var k :| 0 <= k < |s| && s[k] == x;
    assert s == s[..k] + [x] + s[k + 1..];
    assert x !in s[..k] && x !in s[k + 1..];
  }

  lemma CountOfRepeated(s: seq<Row>, i: nat, j: nat)
    requires i < j < |s| && s[i] == s[j]
    ensures multiset(s)[s[i]] >= 2
  {
    assert s == s[..i] + [s[i]] + s[i + 1..j] + [s[j]] + s[j + 1..];
  }

  /** Distinctness only depends on how often each element occurs. */
  lemma DistinctByMultiset(s: seq<Row>)
    ensures Distinct(s) <==> forall x :: x in s ==> multiset(s)[x] == 1
  {
    if Distinct(s) {
      forall x | x in s ensures multiset(s)[x] == 1 {
        CountOfDistinct(s, x);
      }
    } else {
      var i, j :| 0 <= i < j < |s| && s[i] == s[j];
      CountOfRepeated(s, i, j);
    }
  }

  lemma SortOfDistinct(rows: seq<Row>)
    requires Distinct(rows)
    ensures StrictlySorted(SortRows(rows)) && Distinct(SortRows(rows))
    ensures SameElements(SortRows(rows), rows)
  {
    SortRowsSorts(rows);
    DistinctByMultiset(rows);
    DistinctByMultiset(SortRows(rows));
    forall x ensures x in SortRows(rows) <==> x in rows {
      assert x in multiset(rows) <==> x in rows;
      assert x in multiset(SortRows(rows)) <==> x in SortRows(rows);
    }
  }

  lemma StrictlySortedIsDistinct(rows: seq<Row>)
    requires StrictlySorted(rows)
    ensures Distinct(rows)
  {
    forall i, j | 0 <= i < j < |rows| ensures rows[i] != rows[j] {
      LexIrreflexive(rows[i]);
    }
  }

  /** A set of rows has one strictly increasing enumeration only. */
  lemma {:induction false} StrictlySortedIsUnique(a: seq<Row>, b: seq<Row>)
    requires StrictlySorted(a) && StrictlySorted(b) && SameElements(a, b)
    ensures a == b
  {
    assert a != [] ==> a[0] in b;
    assert b != [] ==> b[0] in a;
    if a != [] {
      HeadIsLeast(a, b);
      StrictlySortedIsDistinct(a);
      StrictlySortedIsDistinct(b);
      assert a == [a[0]] + a[1..] && b == [b[0]] + b[1..];
      forall x ensures x in a[1..] <==> x in b[1..] {
        assert x in a[1..] <==> x in a && x != a[0];
        assert x in b[1..] <==> x in b && x != b[0];
      }
      StrictlySortedIsUnique(a[1..], b[1..]);
    }
  }

  lemma HeadIsLeast(a: seq<Row>, b: seq<Row>)
    requires a != [] && b != [] && StrictlySorted(a) && StrictlySorted(b) && SameElements(a, b)
    ensures a[0] == b[0]
  {
    assert a[0] in b && b[0] in a;
    var i :| 0 <= i < |b| && b[i] == a[0];
    var j :| 0 <= j < |a| && a[j] == b[0];
    if i != 0 && j != 0 {
      LexTransitive(a[0], b[0], a[0]);
      LexIrreflexive(a[0]);
    }
  }

  /** Insertion into an ordered set of rows. */
  function InsertOrdered(rows: seq<Row>, x: Row): seq<Row> {
    if x in rows then rows else InsertInOrder(rows, x)
  }

  /** The contents of an ordered set after inserting every row of `rows`. */
  function OrderedSet(rows: seq<Row>): seq<Row> {
    if rows == [] then [] else InsertOrdered(OrderedSet(rows[..|rows| - 1]), rows[|rows| - 1])
  }

  lemma InsertOrderedKeepsOrder(rows: seq<Row>, x: Row)
    requires StrictlySorted(rows)
    ensures StrictlySorted(InsertOrdered(rows, x))
    ensures SameElements(InsertOrdered(rows, x), rows + [x])
  {
    var r := InsertOrdered(rows, x);
    if x !in rows {
      InsertInOrderKeepsOrder(rows, x);
      StrictlySortedIsDistinct(rows);
      DistinctByMultiset(rows);
      assert forall y :: y in r <==> y in multiset(r);
      assert forall y :: y in rows + [x] <==> y in multiset(rows) + multiset{x};
      assert forall y :: y in r ==> multiset(r)[y] == 1;
      DistinctByMultiset(r);
    }
  }

  lemma {:induction false} OrderedSetIsSorted(rows: seq<Row>)
    ensures StrictlySorted(OrderedSet(rows))
    ensures SameElements(OrderedSet(rows), rows)
  {
    if rows != [] {
      var n := |rows| - 1;
      assert rows == rows[..n] + [rows[n]];
      OrderedSetIsSorted(rows[..n]);
      InsertOrderedKeepsOrder(OrderedSet(rows[..n]), rows[n]);
    }
  }

  lemma OrderedSetAppend(rows: seq<Row>, x: Row)
    ensures OrderedSet(rows + [x]) == InsertOrdered(OrderedSet(rows), x)
  {
    assert (rows + [x])[..|rows|] == rows;
  }
}
