/** Sequences without repetition, linear lookup and removal of repetitions. */
module Sequences {
  import opened Wrappers

  ghost predicate Distinct<T>(s: seq<T>) {
    forall i, j :: 0 <= i < j < |s| ==> s[i] != s[j]
  }

  ghost predicate SameElements<T(!new)>(s: seq<T>, t: seq<T>) {
    forall x :: x in s <==> x in t
  }

  /** The linear scan: the first place where `x` occurs. */
  function Position<T(==)>(s: seq<T>, x: T): (r: Option<nat>)
    ensures r.Some? <==> x in s
    ensures r.Some? ==> r.value < |s| && s[r.value] == x && x !in s[..r.value]
  {
    if s == [] then None
    else
      var n := |s| - 1;
      assert s == s[..n] + [s[n]];
      match Position(s[..n], x)
      case Some(i) => assert s[..n][..i] == s[..i]; Some(i)
      case None => if s[n] == x then Some(n) else None
  }

  lemma PositionOf<T>(s: seq<T>, i: nat)
    requires Distinct(s) && i < |s|
    ensures Position(s, s[i]) == Some(i)
  {
    var j := Position(s, s[i]).value;
    assert s[j] == s[i];
  }

  /** `s` without the repeated elements, in order of first occurrence: the
      contents of an insertion-ordered set after inserting `s` in order. */
  function FirstOccurrences<T(==)>(s: seq<T>): seq<T> {
    if s == [] then [] else Insert(FirstOccurrences(s[..|s| - 1]), s[|s| - 1])
  }

  /** Insertion into an insertion-ordered set. */
  function Insert<T(==)>(s: seq<T>, x: T): seq<T> {
    if x in s then s else s + [x]
  }

  lemma {:induction false} FirstOccurrencesIsSet<T(!new)>(s: seq<T>)
    ensures Distinct(FirstOccurrences(s))
    ensures SameElements(FirstOccurrences(s), s)
  {
    if s != [] {
      var n := |s| - 1;
      FirstOccurrencesIsSet(s[..n]);
      assert s == s[..n] + [s[n]];
    }
  }

  lemma FirstOccurrencesAppend<T>(s: seq<T>, x: T)
    ensures FirstOccurrences(s + [x]) == Insert(FirstOccurrences(s), x)
  {
    assert (s + [x])[..|s|] == s;
  }

  lemma {:induction false} FirstOccurrencesOfDistinct<T>(s: seq<T>)
    requires Distinct(s)
    ensures FirstOccurrences(s) == s
  {
    if s != [] {
      var n := |s| - 1;
      FirstOccurrencesOfDistinct(s[..n]);
      assert s == s[..n] + [s[n]];
    }
  }

  /** Distinct elements are listed in order of their first places. */
  lemma {:induction false} FirstPlacesAscend<T(!new)>(s: seq<T>, l: nat, h: nat)
    requires l < h < |FirstOccurrences(s)|
    ensures FirstOccurrences(s)[l] in s && FirstOccurrences(s)[h] in s
    ensures Position(s, FirstOccurrences(s)[l]).value < Position(s, FirstOccurrences(s)[h]).value
  {
    var n := |s| - 1;
    var before := FirstOccurrences(s[..n]);
    FirstOccurrencesIsSet(s);
    FirstOccurrencesIsSet(s[..n]);
    assert FirstOccurrences(s)[l] in FirstOccurrences(s) && FirstOccurrences(s)[h] in FirstOccurrences(s);
    if h < |before| {
      FirstPlacesAscend(s[..n], l, h);
    } else {
      assert before[l] in before;
    }
  }

  lemma ImageAppend<A, B>(s: seq<A>, x: A, f: A -> B)
    ensures Image(s + [x], f) == Image(s, f) + [f(x)]
  {}

  lemma ImageContains<A, B>(s: seq<A>, x: A, f: A -> B)
    requires x in s
    ensures f(x) in Image(s, f)
  {
    var k :| 0 <= k < |s| && s[k] == x;
    assert Image(s, f)[k] == f(x);
  }

  /** Removing repetitions before applying a function does not change the
      first occurrences of the results. */
  lemma {:induction false} FirstOccurrencesOfImages<A(!new), B(!new)>(s: seq<A>, f: A -> B)
    ensures FirstOccurrences(Image(FirstOccurrences(s), f)) == FirstOccurrences(Image(s, f))
  {
    if s == [] {
      assert Image(s, f) == [];
    } else {
      var r, x := s[..|s| - 1], s[|s| - 1];
      var d := FirstOccurrences(r);
      assert s == r + [x];
      FirstOccurrencesIsSet(Image(d, f));
      FirstOccurrencesOfImages(r, f);
      FirstOccurrencesAppend(r, x);
      ImageAppend(r, x, f);
      FirstOccurrencesAppend(Image(r, f), f(x));
      if x in d {
        ImageContains(d, x, f);
      } else {
        ImageAppend(d, x, f);
        FirstOccurrencesAppend(Image(d, f), f(x));
      }
    }
  }

  function Image<A, B>(s: seq<A>, f: A -> B): (r: seq<B>)
    ensures |r| == |s|
    ensures forall i :: 0 <= i < |s| ==> r[i] == f(s[i])
  {
    seq(|s|, i requires 0 <= i < |s| => f(s[i]))
  }

  /** A strictly longer range cannot be injected into a shorter one. */
  lemma {:induction false} DistinctBelow(s: seq<nat>, n: nat)
    requires Distinct(s) && forall i :: 0 <= i < |s| ==> s[i] < n
    ensures |s| <= n
  {
    if s == [] {
    } else if n - 1 in s {
      var k :| 0 <= k < |s| && s[k] == n - 1;
      var rest := s[..k] + s[k + 1..];
      assert forall i :: 0 <= i < |rest| ==> rest[i] == if i < k then s[i] else s[i + 1];
      DistinctBelow(rest, n - 1);
    } else {
      assert s[0] < n;
      DistinctBelow(s, n - 1);
    }
  }

  lemma TakeOneMore<T>(all: seq<T>, added: seq<T>, j: nat)
    requires j < |added|
    ensures all + added[..j + 1] == all + added[..j] + [added[j]]
  {}

  lemma DistinctAppend<T>(s: seq<T>, x: T)
    ensures Distinct(s + [x]) <==> Distinct(s) && x !in s
  {
    if Distinct(s + [x]) {
      assert forall i :: 0 <= i < |s| ==> s[i] == (s + [x])[i] && (s + [x])[i] != (s + [x])[|s|];
    }
  }

  lemma SameEmptiness<T(!new)>(a: seq<T>, b: seq<T>)
    requires SameElements(a, b)
    ensures a == [] <==> b == []
  {
    if a != [] {
      assert a[0] in b;
    }
    if b != [] {
      assert b[0] in a;
    }
  }

  /** The elements at the given positions. */
  function Pick<T>(s: seq<T>, positions: seq<nat>, other: T): (r: seq<T>)
    ensures |r| == |positions|
    ensures forall k :: 0 <= k < |positions| && positions[k] < |s| ==> r[k] == s[positions[k]]
  {
    seq(|positions|, k requires 0 <= k < |positions| => if positions[k] < |s| then s[positions[k]] else other)
  }

  /** Two enumerations of one set without repetitions have the same length. */
  lemma {:induction false} SameLength<T(!new)>(a: seq<T>, b: seq<T>)
    requires Distinct(a) && Distinct(b) && SameElements(a, b)
    ensures |a| == |b|
  {
    if a == [] || b == [] {
      SameEmptiness(a, b);
    } else {
      assert a[0] in b;
      var k :| 0 <= k < |b| && b[k] == a[0];
      var rest := b[..k] + b[k + 1..];
      assert forall i :: 0 <= i < |rest| ==> rest[i] == if i < k then b[i] else b[i + 1];
      forall x ensures x in a[1..] <==> x in rest {
        assert a == [a[0]] + a[1..] && b == b[..k] + [b[k]] + b[k + 1..];
        assert x in a[1..] <==> x in a && x != a[0];
        assert x in rest <==> x in b && x != b[k];
      }
      SameLength(a[1..], rest);
    }
  }
}
