/** Union, intersection and selection of label rows, as operations on
    duplicate-free sequences. */
module RowSets {
  import opened Sequences
  import opened Lexicographic
  import opened Tensors

  /** The rows that are (or are not) in `other`, in order. */
  function Keep(rows: seq<Row>, other: seq<Row>, present: bool): (r: seq<Row>)
    ensures forall row :: row in r <==> row in rows && ((row in other) == present)
  {
    if rows == [] then []
    else
      var n := |rows| - 1;
      assert rows == rows[..n] + [rows[n]];
      if (rows[n] in other) == present then Keep(rows[..n], other, present) + [rows[n]] else Keep(rows[..n], other, present)
  }

  /** The first rows, then the new ones of the second. */
  function UnionRows(first: seq<Row>, second: seq<Row>): seq<Row> {
    first + Keep(second, first, false)
  }

  /** The common rows, in the order of the smaller side. */
  function IntersectionRows(first: seq<Row>, second: seq<Row>): seq<Row> {
    if |first| <= |second| then Keep(first, second, true) else Keep(second, first, true)
  }

  lemma {:induction false} KeepIsDistinct(rows: seq<Row>, other: seq<Row>, present: bool)
    requires Distinct(rows)
    ensures Distinct(Keep(rows, other, present))
  {
    if rows != [] {
      var n := |rows| - 1;
      KeepIsDistinct(rows[..n], other, present);
      assert rows[n] !in rows[..n];
    }
  }

  lemma UnionIsDistinct(first: seq<Row>, second: seq<Row>)
    requires Distinct(first) && Distinct(second)
    ensures Distinct(UnionRows(first, second))
  {
    KeepIsDistinct(second, first, false);
    var added := Keep(second, first, false);
    assert forall i :: 0 <= i < |added| ==> added[i] in added;
  }

  lemma IntersectionIsDistinct(first: seq<Row>, second: seq<Row>)
    requires Distinct(first) && Distinct(second)
    ensures Distinct(IntersectionRows(first, second))
  {
    KeepIsDistinct(first, second, true);
    KeepIsDistinct(second, first, true);
  }

  /** The union is what an insertion-ordered set would hold. */
  lemma {:induction false} UnionIsInsertion(first: seq<Row>, second: seq<Row>)
    requires Distinct(first) && Distinct(second)
    ensures UnionRows(first, second) == FirstOccurrences(first + second)
  {
    if second == [] {
      assert first + second == first && UnionRows(first, second) == first;
      FirstOccurrencesOfDistinct(first);
    } else {
      var n := |second| - 1;
      UnionIsInsertion(first, second[..n]);
      assert first + second == first + second[..n] + [second[n]];
      FirstOccurrencesAppend(first + second[..n], second[n]);
      assert second[n] !in second[..n];
    }
  }

  lemma {:induction false} KeepSplits(rows: seq<Row>, other: seq<Row>)
    ensures |Keep(rows, other, true)| + |Keep(rows, other, false)| == |rows|
  {
    if rows != [] {
      KeepSplits(rows[..|rows| - 1], other);
    }
  }

  /** Inclusion and exclusion. */
  lemma CountsAddUp(first: seq<Row>, second: seq<Row>)
    requires Distinct(first) && Distinct(second)
    ensures |UnionRows(first, second)| + |IntersectionRows(first, second)| == |first| + |second|
  {
    KeepSplits(second, first);
    KeepIsDistinct(first, second, true);
    KeepIsDistinct(second, first, true);
    SameLength(Keep(first, second, true), Keep(second, first, true));
  }

  /** The members of both, whatever the order of the operands. */
  lemma MembersOfUnionAndIntersection(first: seq<Row>, second: seq<Row>, row: Row)
    ensures row in UnionRows(first, second) <==> row in first || row in second
    ensures row in IntersectionRows(first, second) <==> row in first && row in second
  {}

  /** The rows that both sides have stand in the same order on both sides. */
  predicate SameOrder(a: seq<Row>, b: seq<Row>) {
    forall i, j, k, l :: 0 <= i < |a| && 0 <= j < |a| && 0 <= k < |b| && 0 <= l < |b| && a[i] == b[k] && a[j] == b[l] ==>
      (i < j <==> k < l)
  }

  /** `x` stands before `y` in these rows. */
  ghost predicate Before(rows: seq<Row>, x: Row, y: Row) {
    exists i, j :: 0 <= i < j < |rows| && rows[i] == x && rows[j] == y
  }

  /** Rows that are kept stay in order. */
  lemma {:induction false} KeepKeepsOrder(rows: seq<Row>, other: seq<Row>, x: Row, y: Row)
    requires x in other && y in other
    ensures Before(rows, x, y) <==> Before(Keep(rows, other, true), x, y)
  {
    if rows != [] {
      var n := |rows| - 1;
      var front, last := rows[..n], rows[n];
      KeepKeepsOrder(front, other, x, y);
      assert rows == front + [last];
      BeforeAppend(front, last, x, y);
      BeforeAppend(Keep(front, other, true), last, x, y);
    }
  }

  lemma BeforeAppend(rows: seq<Row>, last: Row, x: Row, y: Row)
    ensures Before(rows + [last], x, y) <==> Before(rows, x, y) || (x in rows && y == last)
  {
    var all := rows + [last];
    if Before(all, x, y) {
      var i, j :| 0 <= i < j < |all| && all[i] == x && all[j] == y;
      assert j < |rows| ==> rows[i] == x && rows[j] == y;
    }
    if Before(rows, x, y) {
      var i, j :| 0 <= i < j < |rows| && rows[i] == x && rows[j] == y;
      assert all[i] == x && all[j] == y;
    }
    if x in rows && y == last {
      var i :| 0 <= i < |rows| && rows[i] == x;
      assert all[i] == x && all[|rows|] == y;
    }
  }

  /** Distinct rows are determined by their members and their order. */
  lemma {:induction false} OrderDetermines(s: seq<Row>, t: seq<Row>)
    requires Distinct(s) && Distinct(t) && SameElements(s, t)
    requires forall x, y :: Before(s, x, y) ==> Before(t, x, y)
    ensures s == t
  {
    SameLength(s, t);
    if s != [] {
      FirstIsFirst(s, t);
      assert s == [s[0]] + s[1..] && t == [t[0]] + t[1..];
      forall x ensures x in s[1..] <==> x in t[1..] {
        assert x in s[1..] <==> x in s && x != s[0];
        assert x in t[1..] <==> x in t && x != t[0];
      }
      forall x, y | Before(s[1..], x, y) ensures Before(t[1..], x, y) {
        BeforeInRest(s, t, x, y);
      }
      OrderDetermines(s[1..], t[1..]);
    }
  }

  lemma FirstIsFirst(s: seq<Row>, t: seq<Row>)
    requires s != [] && Distinct(s) && Distinct(t) && SameElements(s, t)
    requires forall x, y :: Before(s, x, y) ==> Before(t, x, y)
    ensures t != [] && t[0] == s[0]
  {
    SameEmptiness(s, t);
    AfterFirst(s, t[0]);
    NothingBeforeFirst(t, s[0]);
  }

  lemma AfterFirst(rows: seq<Row>, y: Row)
    requires rows != [] && y in rows
    ensures y == rows[0] || Before(rows, rows[0], y)
  {
    var i :| 0 <= i < |rows| && rows[i] == y;
    assert i == 0 || Before(rows, rows[0], rows[i]);
  }

  lemma NothingBeforeFirst(rows: seq<Row>, x: Row)
    requires rows != [] && Distinct(rows)
    ensures !Before(rows, x, rows[0])
  {}

  lemma BeforeInRest(s: seq<Row>, t: seq<Row>, x: Row, y: Row)
    requires s != [] && t != [] && s[0] == t[0] && Distinct(s)
    requires Before(s[1..], x, y) && (Before(s, x, y) ==> Before(t, x, y))
    ensures Before(t[1..], x, y)
  {
    var i, j :| 0 <= i < j < |s| - 1 && s[1..][i] == x && s[1..][j] == y;
    assert s[i + 1] == x && s[j + 1] == y;
    var k, l :| 0 <= k < l < |t| && t[k] == x && t[l] == y;
    assert t[1..][k - 1] == x && t[1..][l - 1] == y;
  }

  /** Common rows stand before each other on both sides, or on neither. */
  lemma SameOrderIff(a: seq<Row>, b: seq<Row>)
    requires Distinct(a) && Distinct(b)
    ensures SameOrder(a, b) <==> forall x, y :: x in a && x in b && y in a && y in b ==> (Before(a, x, y) <==> Before(b, x, y))
  {
    forall i, j, k, l | 0 <= i < |a| && 0 <= j < |a| && 0 <= k < |b| && 0 <= l < |b| && a[i] == b[k] && a[j] == b[l]
      ensures (Before(a, a[i], a[j]) <==> i < j) && (Before(b, a[i], a[j]) <==> k < l)
    {
      BeforeAt(a, i, j);
      BeforeAt(b, k, l);
    }
    if SameOrder(a, b) {
      forall x, y | x in a && x in b && y in a && y in b ensures Before(a, x, y) <==> Before(b, x, y) {
        var i, j :| 0 <= i < |a| && 0 <= j < |a| && a[i] == x && a[j] == y;
        var k, l :| 0 <= k < |b| && 0 <= l < |b| && b[k] == x && b[l] == y;
      }
    }
  }

  lemma BeforeAt(rows: seq<Row>, i: nat, j: nat)
    requires Distinct(rows) && i < |rows| && j < |rows|
    ensures Before(rows, rows[i], rows[j]) <==> i < j
  {
    if Before(rows, rows[i], rows[j]) {
      var k, l :| 0 <= k < l < |rows| && rows[k] == rows[i] && rows[l] == rows[j];
      assert k == i && l == j;
    }
  }

  lemma {:induction false} KeptBothWays(a: seq<Row>, b: seq<Row>)
    requires Distinct(a) && Distinct(b)
    ensures Keep(a, b, true) == Keep(b, a, true) <==> SameOrder(a, b)
  {
    hide Before, SameOrder;
    var ab, ba := Keep(a, b, true), Keep(b, a, true);
    KeepIsDistinct(a, b, true);
    KeepIsDistinct(b, a, true);
    forall x, y | x in a && x in b && y in a && y in b
      ensures (Before(a, x, y) <==> Before(ab, x, y)) && (Before(b, x, y) <==> Before(ba, x, y))
    {
      KeepKeepsOrder(a, b, x, y);
      KeepKeepsOrder(b, a, x, y);
    }
    SameOrderIff(a, b);
    if SameOrder(a, b) {
      forall x, y | Before(ab, x, y) ensures Before(ba, x, y) {
        BothAreMembers(ab, x, y);
      }
      OrderDetermines(ab, ba);
    }
  }

  lemma BothAreMembers(rows: seq<Row>, x: Row, y: Row)
    requires Before(rows, x, y)
    ensures x in rows && y in rows
  {}

  /** Common rows stand before each other as they do in the side with fewer
      rows, or in the first side if both have equally many. */
  lemma IntersectionFollowsFewer(first: seq<Row>, second: seq<Row>)
    ensures forall x, y :: x in IntersectionRows(first, second) && y in IntersectionRows(first, second) ==>
      (Before(IntersectionRows(first, second), x, y) <==> Before(if |first| <= |second| then first else second, x, y))
  {
    hide Before;
    var rows := IntersectionRows(first, second);
    forall x, y | x in rows && y in rows
      ensures Before(rows, x, y) <==> Before(if |first| <= |second| then first else second, x, y)
    {
      if |first| <= |second| {
        KeepKeepsOrder(first, second, x, y);
      } else {
        KeepKeepsOrder(second, first, x, y);
      }
    }
  }

  /** Exactly when the order of the operands does not matter: they have different
      sizes, or their common rows stand in the same order. */
  lemma IntersectionCommutesExactly(first: seq<Row>, second: seq<Row>)
    requires Distinct(first) && Distinct(second)
    ensures IntersectionRows(first, second) == IntersectionRows(second, first)
       <==> |first| != |second| || SameOrder(first, second)
  {
    hide SameOrder, Keep;
    KeptBothWays(first, second);
  }

  /** The mapping of an operand is the same as first and as second operand,
      exactly when the result is. */
  lemma MappingsAreSwapped(first: seq<Row>, second: seq<Row>)
    requires Distinct(first) && Distinct(second)
    ensures IntersectionRows(first, second) == IntersectionRows(second, first)
       <==> forall k :: 0 <= k < |first| ==>
              MappedTo(IntersectionRows(first, second), first[k]) == MappedTo(IntersectionRows(second, first), first[k])
  {
    var one, two := IntersectionRows(first, second), IntersectionRows(second, first);
    if forall k :: 0 <= k < |first| ==> MappedTo(one, first[k]) == MappedTo(two, first[k]) {
      IntersectionIsDistinct(first, second);
      IntersectionIsDistinct(second, first);
      SameLength(one, two);
      forall p | 0 <= p < |one| ensures two[p] == one[p] {
        assert one[p] in one;
        var k :| 0 <= k < |first| && first[k] == one[p];
        PositionOf(one, p);
        assert MappedTo(two, first[k]) == p;
      }
    }
  }

  /** Two rows in opposite order: each operand keeps its own order. */
  lemma IntersectionDependsOnOrder()
    ensures IntersectionRows([[1], [2]], [[2], [1]]) == [[1], [2]]
    ensures IntersectionRows([[2], [1]], [[1], [2]]) == [[2], [1]]
  {
    var a: seq<Row>, b: seq<Row> := [[1], [2]], [[2], [1]];
    assert forall i :: 0 <= i < |a| ==> a[i] in b;
    assert forall i :: 0 <= i < |b| ==> b[i] in a;
    KeepAll(a, b);
    KeepAll(b, a);
  }

  lemma {:induction false} KeepAll(rows: seq<Row>, other: seq<Row>)
    requires forall i :: 0 <= i < |rows| ==> rows[i] in other
    ensures Keep(rows, other, true) == rows
  {
    if rows != [] {
      var n := |rows| - 1;
      KeepAll(rows[..n], other);
      assert rows == rows[..n] + [rows[n]];
    }
  }

  /** Where a row is in the result, and -1 if it is not there. */
  function MappedTo(result: seq<Row>, row: Row): int {
    match Position(result, row)
    case Some(i) => i
    case None => -1
  }

  /** A mapping points at the same row in the result, and is -1 for rows that are
      not in it. */
  ghost predicate PointsInto(mapping: seq<int>, rows: seq<Row>, result: seq<Row>) {
    |mapping| >= |rows| &&
    forall i :: 0 <= i < |rows| ==>
      if rows[i] in result then 0 <= mapping[i] < |result| && result[mapping[i]] == rows[i] else mapping[i] == -1
  }

  /** The positions of the selected rows that exist, in selection order. */
  function FoundPositions(rows: seq<Row>, wanted: seq<Row>): seq<int> {
    if wanted == [] then []
    else
      var n := |wanted| - 1;
      match Position(rows, wanted[n])
      case Some(i) => FoundPositions(rows, wanted[..n]) + [i]
      case None => FoundPositions(rows, wanted[..n])
  }

  /** The rows whose columns at `positions` are selected, ascending. */
  function MatchingPositions(rows: seq<Row>, positions: seq<nat>, wanted: seq<Row>): seq<int> {
    if rows == [] then []
    else
      var n := |rows| - 1;
      if Project(rows[n], positions) in wanted then MatchingPositions(rows[..n], positions, wanted) + [n]
      else MatchingPositions(rows[..n], positions, wanted)
  }

  ghost predicate AscendingInts(s: seq<int>) {
    forall k, l :: 0 <= k < l < |s| ==> s[k] < s[l]
  }

  /** The matching rows, each once, in ascending order. */
  lemma {:induction false} MatchingPositionsAre(rows: seq<Row>, positions: seq<nat>, wanted: seq<Row>)
    ensures forall i :: i in MatchingPositions(rows, positions, wanted) <==> 0 <= i < |rows| && Project(rows[i], positions) in wanted
    ensures AscendingInts(MatchingPositions(rows, positions, wanted))
  {
    if rows != [] {
      var n := |rows| - 1;
      MatchingPositionsAre(rows[..n], positions, wanted);
      var before := MatchingPositions(rows[..n], positions, wanted);
      assert forall k :: 0 <= k < |before| ==> before[k] in before;
    }
  }

  /** The selected rows that exist, each once, in the order of the selection. */
  lemma {:induction false} FoundPositionsAre(rows: seq<Row>, wanted: seq<Row>)
    requires Distinct(rows) && Distinct(wanted)
    ensures forall i :: i in FoundPositions(rows, wanted) <==> 0 <= i < |rows| && rows[i] in wanted
    ensures |FoundPositions(rows, wanted)| <= |wanted|
    ensures forall k :: 0 <= k < |FoundPositions(rows, wanted)| ==> 0 <= FoundPositions(rows, wanted)[k] < |rows|
    ensures SelectedRows(rows, FoundPositions(rows, wanted)) == Keep(wanted, rows, true)
    ensures Distinct(FoundPositions(rows, wanted))
  {
    if wanted == [] {
      assert SelectedRows(rows, []) == [];
    } else {
      var n := |wanted| - 1;
      assert wanted == wanted[..n] + [wanted[n]];
      FoundPositionsAre(rows, wanted[..n]);
      var before, all := FoundPositions(rows, wanted[..n]), FoundPositions(rows, wanted);
      if wanted[n] in rows {
        var i := Position(rows, wanted[n]).value;
        assert forall l :: 0 <= l < |rows| && rows[l] == wanted[n] ==> l == i;
        assert all == before + [i];
        assert wanted[n] !in wanted[..n];
        assert i !in before;
        assert SelectedRows(rows, all) == SelectedRows(rows, before) + [rows[i]];
      }
    }
  }

  function SelectedRows(rows: seq<Row>, positions: seq<int>): (r: seq<Row>)
    ensures |r| == |positions|
    ensures forall k :: 0 <= k < |positions| && 0 <= positions[k] < |rows| ==> r[k] == rows[positions[k]]
  {
    seq(|positions|, k requires 0 <= k < |positions| => if 0 <= positions[k] < |rows| then rows[positions[k]] else [])
  }

  /** The entry has the wanted values, in the columns with the wanted names. */
  ghost predicate Agrees(names: seq<string>, entry: Row, wantedNames: seq<string>, wanted: Row) {
    forall d, k :: 0 <= d < |wantedNames| && d < |wanted| && 0 <= k < |names| && k < |entry| && names[k] == wantedNames[d] ==>
      entry[k] == wanted[d]
  }

  ghost predicate AgreesWithSome(names: seq<string>, entry: Row, wantedNames: seq<string>, wanted: seq<Row>) {
    exists s :: 0 <= s < |wanted| && Agrees(names, entry, wantedNames, wanted[s])
  }

  /** These are the positions of the rows that agree with some wanted one. */
  ghost predicate AreAgreeing(names: seq<string>, rows: seq<Row>, wantedNames: seq<string>, wanted: seq<Row>, found: seq<int>) {
    forall i :: i in found <==> 0 <= i < |rows| && AgreesWithSome(names, rows[i], wantedNames, wanted)
  }

  /** The rows at these positions stand in the order of `wanted`. */
  ghost predicate InOrderOf(wanted: seq<Row>, rows: seq<Row>, found: seq<int>) {
    forall j, k :: 0 <= j < k < |found| && 0 <= found[j] < |rows| && 0 <= found[k] < |rows| ==>
      Before(wanted, rows[found[j]], rows[found[k]])
  }

  lemma AgreesIfEqual(names: seq<string>, entry: Row, wanted: Row)
    requires Distinct(names) && |entry| == |wanted| == |names|
    ensures Agrees(names, entry, names, wanted) <==> entry == wanted
  {
    if Agrees(names, entry, names, wanted) {
      assert forall k :: 0 <= k < |names| ==> entry[k] == wanted[k];
    }
  }

  lemma AgreesIfProjected(names: seq<string>, entry: Row, wantedNames: seq<string>, wanted: Row, positions: seq<nat>)
    requires Distinct(names) && |entry| == |names| && |wanted| == |wantedNames| && ArePositions(names, wantedNames, positions)
    ensures Agrees(names, entry, wantedNames, wanted) <==> Project(entry, positions) == wanted
  {
    if Agrees(names, entry, wantedNames, wanted) {
      forall d | 0 <= d < |wanted| ensures Project(entry, positions)[d] == wanted[d] {
        assert names[positions[d]] == wantedNames[d];
      }
    }
    if Project(entry, positions) == wanted {
      forall d, k | 0 <= d < |wanted| && 0 <= k < |names| && names[k] == wantedNames[d] ensures entry[k] == wanted[d] {
        assert positions[d] == k && Project(entry, positions)[d] == wanted[d];
      }
    }
  }

  /** Selecting with the same names finds the wanted rows, in their order. */
  lemma FoundAgree(names: seq<string>, rows: seq<Row>, wanted: seq<Row>)
    requires Distinct(names) && Distinct(rows) && Distinct(wanted)
    requires (forall i :: 0 <= i < |rows| ==> |rows[i]| == |names|) && forall s :: 0 <= s < |wanted| ==> |wanted[s]| == |names|
    ensures AreAgreeing(names, rows, names, wanted, FoundPositions(rows, wanted))
    ensures InOrderOf(wanted, rows, FoundPositions(rows, wanted))
  {
    FoundPositionsAre(rows, wanted);
    hide Agrees, Before;
    forall i, s | 0 <= i < |rows| && 0 <= s < |wanted| ensures Agrees(names, rows[i], names, wanted[s]) <==> rows[i] == wanted[s] {
      AgreesIfEqual(names, rows[i], wanted[s]);
    }
    var found := FoundPositions(rows, wanted);
    forall j, k | 0 <= j < k < |found| ensures Before(wanted, rows[found[j]], rows[found[k]]) {
      KeptInOrder(wanted, rows, j, k);
    }
  }

  lemma KeptInOrder(rows: seq<Row>, other: seq<Row>, j: nat, k: nat)
    requires j < k < |Keep(rows, other, true)|
    ensures Before(rows, Keep(rows, other, true)[j], Keep(rows, other, true)[k])
  {
    var kept := Keep(rows, other, true);
    assert kept[j] in kept && kept[k] in kept;
    assert Before(kept, kept[j], kept[k]);
    KeepKeepsOrder(rows, other, kept[j], kept[k]);
  }

  /** Selecting with other names finds the rows that agree, in ascending order. */
  lemma MatchingAgree(names: seq<string>, rows: seq<Row>, wantedNames: seq<string>, wanted: seq<Row>, positions: seq<nat>)
    requires Distinct(names) && ArePositions(names, wantedNames, positions)
    requires (forall i :: 0 <= i < |rows| ==> |rows[i]| == |names|) && forall s :: 0 <= s < |wanted| ==> |wanted[s]| == |wantedNames|
    ensures AreAgreeing(names, rows, wantedNames, wanted, MatchingPositions(rows, positions, wanted))
    ensures AscendingInts(MatchingPositions(rows, positions, wanted))
  {
    MatchingPositionsAre(rows, positions, wanted);
    hide Agrees, Project, ArePositions;
    forall i, s | 0 <= i < |rows| && 0 <= s < |wanted|
      ensures Agrees(names, rows[i], wantedNames, wanted[s]) <==> Project(rows[i], positions) == wanted[s]
    {
      AgreesIfProjected(names, rows[i], wantedNames, wanted[s], positions);
    }
  }
}
