/** Removing dimensions from keys in two steps or in one. */
module KeySplits {
  import opened Sequences
  import opened Lexicographic
  import opened LabelSets
  import opened Tensors
  import opened Keys
  import opened Groups
  import opened TensorMeaning

  ghost predicate Ascending(s: seq<nat>) {
    forall i, j :: 0 <= i < j < |s| ==> s[i] < s[j]
  }

  /** A set of positions has one ascending enumeration only. */
  lemma {:induction false} AscendingIsUnique(a: seq<nat>, b: seq<nat>)
    requires Ascending(a) && Ascending(b) && SameElements(a, b)
    ensures a == b
  {
    SameEmptiness(a, b);
    if a != [] {
      var n, m := |a| - 1, |b| - 1;
      assert a[n] in b && b[m] in a;
      assert a == a[..n] + [a[n]] && b == b[..m] + [b[m]];
      forall x ensures x in a[..n] <==> x in b[..m] {
        assert x in a[..n] <==> x in a && x != a[n];
        assert x in b[..m] <==> x in b && x != b[m];
      }
      AscendingIsUnique(a[..n], b[..m]);
    }
  }

  /** The positions in the original keys of the columns at `inner` of what the
      positions `outer` select. */
  function Compose(outer: seq<nat>, inner: seq<nat>): (r: seq<nat>)
    ensures |r| == |inner|
    ensures forall k :: 0 <= k < |inner| && inner[k] < |outer| ==> r[k] == outer[inner[k]]
  {
    Pick(outer, inner, 0)
  }

  ghost predicate Below(s: seq<nat>, n: nat) {
    forall k :: 0 <= k < |s| ==> s[k] < n
  }

  lemma ProjectTwice(row: Row, outer: seq<nat>, inner: seq<nat>)
    requires Below(inner, |outer|) && Below(outer, |row|)
    ensures Project(Project(row, outer), inner) == Project(row, Compose(outer, inner))
  {}

  lemma SelectTwice(names: seq<string>, outer: seq<nat>, inner: seq<nat>)
    requires Below(inner, |outer|) && Below(outer, |names|)
    ensures Select(Select(names, outer), inner) == Select(names, Compose(outer, inner))
  {}

  lemma OthersAreBelow(n: nat, listed: seq<nat>)
    ensures Below(Others(n, listed), n) && Ascending(Others(n, listed))
  {
    var r := Others(n, listed);
    assert forall k :: 0 <= k < |r| ==> r[k] in r;
  }

  lemma PositionsOfBoth(names: seq<string>, first: seq<string>, second: seq<string>)
    ensures PositionsOf(names, first + second) == PositionsOf(names, first) + PositionsOf(names, second)
  {}

  /** Both removals name known dimensions, and not the same one twice. */
  ghost predicate Splits(keys: Labels, first: seq<string>, second: seq<string>) {
    ValidLabels(keys) && keys.rows != [] && KnownDimensions(keys, first + second)
  }

  lemma Known(keys: Labels, first: seq<string>, second: seq<string>)
    requires Splits(keys, first, second)
    ensures KnownDimensions(keys, first) && KnownDimensions(keys, second)
    ensures forall d :: d in second ==> d !in first
  {
    var both := first + second;
    assert forall k :: 0 <= k < |first| ==> both[k] == first[k];
    assert forall k :: 0 <= k < |second| ==> both[|first| + k] == second[k];
    forall d | d in first ensures d in keys.names { assert d in both; }
    forall d | d in second ensures d in keys.names && d !in first {
      assert d in both;
    }
    forall i, j | 0 <= i < j < |second| ensures second[i] != second[j] {
      assert both[|first| + i] != both[|first| + j];
    }
  }

  /** A dimension that stays is found again among the remaining ones. */
  lemma RemainingPosition(names: seq<string>, listed: seq<nat>, d: string)
    requires Distinct(names) && d in names && Position(names, d).value !in listed
    ensures var rest := Others(|names|, listed);
      && d in Select(names, rest)
      && Position(Select(names, rest), d).value < |rest|
      && rest[Position(Select(names, rest), d).value] == Position(names, d).value
  {
    var rest, p := Others(|names|, listed), Position(names, d).value;
    OthersAreBelow(|names|, listed);
    assert p in rest;
    var k :| 0 <= k < |rest| && rest[k] == p;
    assert Select(names, rest)[k] == d;
    var q := Position(Select(names, rest), d).value;
    assert names[rest[q]] == d == names[p];
  }

  /** The columns of the second removal, found before or after the first. */
  lemma SecondPositions(names: seq<string>, first: seq<string>, second: seq<string>)
    requires Distinct(names)
    requires forall d :: d in first ==> d in names
    requires forall d :: d in second ==> d in names && d !in first
    ensures var rest := Others(|names|, PositionsOf(names, first));
      var inner := PositionsOf(Select(names, rest), second);
      Below(inner, |rest|) && Compose(rest, inner) == PositionsOf(names, second)
  {
    var posFirst := PositionsOf(names, first);
    var rest := Others(|names|, posFirst);
    var inner := PositionsOf(Select(names, rest), second);
    forall k | 0 <= k < |second| ensures inner[k] < |rest| && rest[inner[k]] == PositionsOf(names, second)[k] {
      var d := second[k];
      assert d in second;
      forall l | 0 <= l < |first| ensures posFirst[l] != Position(names, d).value {
        assert first[l] in first;
      }
      RemainingPosition(names, posFirst, d);
    }
  }

  lemma InCompose(outer: seq<nat>, inner: seq<nat>, q: nat)
    requires Ascending(outer) && Below(inner, |outer|) && q < |outer|
    ensures outer[q] in Compose(outer, inner) <==> q in inner
  {
    if q in inner {
      var l :| 0 <= l < |inner| && inner[l] == q;
      assert Compose(outer, inner)[l] == outer[q];
    }
    if outer[q] in Compose(outer, inner) {
      var l :| 0 <= l < |inner| && Compose(outer, inner)[l] == outer[q];
      assert inner[l] in inner;
    }
  }

  lemma RemainsAfterBoth(n: nat, first: seq<nat>, inner: seq<nat>, p: nat)
    requires Below(inner, |Others(n, first)|)
    ensures var rest := Others(n, first);
      p in Compose(rest, Others(|rest|, inner)) <==> p in Others(n, first + Compose(rest, inner))
  {
    var rest := Others(n, first);
    OthersAreBelow(n, first);
    OthersAreBelow(|rest|, inner);
    if p in rest {
      var q :| 0 <= q < |rest| && rest[q] == p;
      InCompose(rest, inner, q);
      InCompose(rest, Others(|rest|, inner), q);
    }
  }

  /** What is left after both removals. */
  lemma OthersTwice(n: nat, first: seq<nat>, inner: seq<nat>)
    requires Below(inner, |Others(n, first)|)
    ensures var rest := Others(n, first);
      Compose(rest, Others(|rest|, inner)) == Others(n, first + Compose(rest, inner))
  {
    var rest := Others(n, first);
    var last := Others(|rest|, inner);
    OthersAreBelow(n, first);
    OthersAreBelow(|rest|, inner);
    OthersAreBelow(n, first + Compose(rest, inner));
    forall p: nat ensures p in Compose(rest, last) <==> p in Others(n, first + Compose(rest, inner)) {
      RemainsAfterBoth(n, first, inner, p);
    }
    AscendingIsUnique(Compose(rest, last), Others(n, first + Compose(rest, inner)));
  }

  /** The remaining columns of the remaining columns. */
  lemma PositionsSplit(keys: Labels, first: seq<string>, second: seq<string>)
    requires Splits(keys, first, second) && RemainingPositions(keys, first) != []
    ensures var middle := RemainingKeys(keys, first);
      var rest := RemainingPositions(keys, first);
      && |middle.names| == |rest| && Below(rest, |keys.names|)
      && Below(MovedPositions(middle, second), |rest|)
      && Below(RemainingPositions(middle, second), |rest|)
      && Compose(rest, MovedPositions(middle, second)) == MovedPositions(keys, second)
      && Compose(rest, RemainingPositions(middle, second)) == RemainingPositions(keys, first + second)
  {
    Known(keys, first, second);
    SecondPositions(keys.names, first, second);
    OthersTwice(|keys.names|, MovedPositions(keys, first), MovedPositions(RemainingKeys(keys, first), second));
    PositionsOfBoth(keys.names, first, second);
    OthersAreBelow(|keys.names|, MovedPositions(keys, first));
    OthersAreBelow(|RemainingPositions(keys, first)|, MovedPositions(RemainingKeys(keys, first), second));
  }

  lemma NothingIsBelow(s: seq<nat>)
    requires s != []
    ensures !Below(s, 0)
  {
    assert s[0] >= 0;
  }

  /** When the first removal leaves nothing, there is nothing for the second. */
  lemma NothingLeft(keys: Labels, first: seq<string>, second: seq<string>)
    requires Splits(keys, first, second) && RemainingPositions(keys, first) == []
    ensures second == [] && first + second == first
    ensures RemainingPositions(RemainingKeys(keys, first), second) == [0] && MovedPositions(RemainingKeys(keys, first), second) == []
  {
    Known(keys, first, second);
    if second != [] {
      NothingIsBelow(PositionsOf(Select(keys.names, []), second));
    }
    SecondPositions(keys.names, first, second);
    assert Others(1, []) == [0] by {
      assert Others(0, []) == [];
    }
  }

  /** The parts of a key after one removal, or after two. */
  lemma PartsSplit(keys: Labels, first: seq<string>, second: seq<string>, key: Row)
    requires Splits(keys, first, second) && |key| == |keys.names|
    ensures var middle := RemainingKeys(keys, first);
      && RemainingPart(middle, second, RemainingPart(keys, first, key)) == RemainingPart(keys, first + second, key)
      && MovedPart(keys, first + second, key) == MovedPart(keys, first, key) + MovedPart(middle, second, RemainingPart(keys, first, key))
  {
    var middle, rest := RemainingKeys(keys, first), RemainingPositions(keys, first);
    PositionsOfBoth(keys.names, first, second);
    hide RemainingKeys, RemainingPositions;
    if rest == [] {
      NothingLeft(keys, first, second);
    } else {
      PositionsSplit(keys, first, second);
      ProjectTwice(key, rest, MovedPositions(middle, second));
      ProjectTwice(key, rest, RemainingPositions(middle, second));
    }
  }

  lemma ProjectionsTwice(rows: seq<Row>, outer: seq<nat>, inner: seq<nat>)
    requires Below(inner, |outer|) && forall i :: 0 <= i < |rows| ==> Below(outer, |rows[i]|)
    ensures FirstOccurrences(Projections(FirstOccurrences(Projections(rows, outer)), inner))
         == FirstOccurrences(Projections(rows, Compose(outer, inner)))
  {
    FirstOccurrencesOfImages(Projections(rows, outer), (row: Row) => Project(row, inner));
    forall i | 0 <= i < |rows|
      ensures Projections(Projections(rows, outer), inner)[i] == Projections(rows, Compose(outer, inner))[i]
    {
      ProjectTwice(rows[i], outer, inner);
    }
    assert Projections(Projections(rows, outer), inner) == Projections(rows, Compose(outer, inner));
  }

  /** The keys that are left do not depend on the number of steps. */
  lemma RemainingKeysSplit(keys: Labels, first: seq<string>, second: seq<string>)
    requires Splits(keys, first, second)
    ensures RemainingKeys(RemainingKeys(keys, first), second) == RemainingKeys(keys, first + second)
  {
    var middle, rest := RemainingKeys(keys, first), RemainingPositions(keys, first);
    if rest == [] {
      NothingLeft(keys, first, second);
      FirstOccurrencesOfDistinct([[0]]);
      var placeholder: Row := [0];
      assert Project(placeholder, [0]) == placeholder;
      assert Projections([placeholder], [0]) == [placeholder];
    } else {
      PositionsSplit(keys, first, second);
      ProjectionsTwice(keys.rows, rest, RemainingPositions(middle, second));
      SelectTwice(keys.names, rest, RemainingPositions(middle, second));
    }
  }
}
