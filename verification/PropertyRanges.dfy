/** The property rows of a merged block and the range each source block takes. */
module PropertyRanges {
  import opened Wrappers
  import opened Sequences
  import opened Lexicographic
  import opened LabelSets

  function Prefixed(key: Row, rows: seq<Row>): (r: seq<Row>)
    ensures |r| == |rows|
    ensures forall p :: 0 <= p < |r| ==> r[p] == key + rows[p]
  {
    seq(|rows|, p requires 0 <= p < |rows| => key + rows[p])
  }

  /** Each part with its own key in front, one part after the other. */
  function Products(keys: seq<Row>, parts: seq<seq<Row>>): seq<Row>
    requires |keys| == |parts|
  {
    if keys == [] then []
    else
      var n := |keys| - 1;
      Products(keys[..n], parts[..n]) + Prefixed(keys[n], parts[n])
  }

  function TotalLength(parts: seq<seq<Row>>): nat {
    if parts == [] then 0 else TotalLength(parts[..|parts| - 1]) + |parts[|parts| - 1]|
  }

  /** The ranges of the parts tile the products, in order. */
  lemma {:induction false} ProductsAt(keys: seq<Row>, parts: seq<seq<Row>>, i: nat, start: nat, p: nat)
    requires |keys| == |parts| && i < |keys| && p < |parts[i]|
    requires start == TotalLength(parts[..i])
    ensures start + |parts[i]| == TotalLength(parts[..i + 1]) <= TotalLength(parts) == |Products(keys, parts)|
    ensures Products(keys, parts)[start + p] == keys[i] + parts[i][p]
  {
    var n := |keys| - 1;
    ProductsLength(keys[..n], parts[..n]);
    ProductsLength(keys, parts);
    assert parts[..i + 1][..i] == parts[..i];
    if i < n {
      assert parts[..n][..i] == parts[..i] && parts[..n][..i + 1] == parts[..i + 1];
      ProductsAt(keys[..n], parts[..n], i, start, p);
    } else {
      assert parts[..i + 1] == parts;
    }
  }

  lemma {:induction false} ProductsLength(keys: seq<Row>, parts: seq<seq<Row>>)
    requires |keys| == |parts|
    ensures |Products(keys, parts)| == TotalLength(parts)
  {
    if keys != [] {
      ProductsLength(keys[..|keys| - 1], parts[..|keys| - 1]);
    }
  }

  ghost predicate FromPart(key: Row, part: seq<Row>, row: Row) {
    |key| <= |row| && row[..|key|] == key && row[|key|..] in part
  }

  /** Every product comes from some part. */
  lemma {:induction false} InProducts(keys: seq<Row>, parts: seq<seq<Row>>, q: nat) returns (i: nat)
    requires |keys| == |parts| && q < |Products(keys, parts)|
    ensures i < |keys| && FromPart(keys[i], parts[i], Products(keys, parts)[q])
  {
    var n := |keys| - 1;
    var before := |Products(keys[..n], parts[..n])|;
    if q < before {
      i := InProducts(keys[..n], parts[..n], q);
    } else {
      i := n;
      var row := Products(keys, parts)[q];
      assert row == keys[n] + parts[n][q - before];
      assert row[|keys[n]|..] == parts[n][q - before];
    }
  }

  lemma {:induction false} ProductsAreDistinct(keys: seq<Row>, parts: seq<seq<Row>>, m: nat)
    requires |keys| == |parts| && Distinct(keys) && OfSize(keys, m)
    requires forall i :: 0 <= i < |parts| ==> Distinct(parts[i])
    ensures Distinct(Products(keys, parts))
  {
    if keys != [] {
      var n := |keys| - 1;
      var before, last := Products(keys[..n], parts[..n]), Prefixed(keys[n], parts[n]);
      ProductsAreDistinct(keys[..n], parts[..n], m);
      forall a, b | 0 <= a < |before| && 0 <= b < |last| ensures before[a] != last[b] {
        var i := InProducts(keys[..n], parts[..n], a);
        assert last[b][..m] == keys[n];
      }
      PrefixedIsDistinct(keys[n], parts[n]);
    }
  }

  lemma PrefixedIsDistinct(key: Row, rows: seq<Row>)
    requires Distinct(rows)
    ensures Distinct(Prefixed(key, rows))
  {
    forall a, b | 0 <= a < b < |rows| ensures key + rows[a] != key + rows[b] {
      assert (key + rows[a])[|key|..] == rows[a] && (key + rows[b])[|key|..] == rows[b];
    }
  }

  /** The products at `start ..` are the rows of `part` behind `key`. */
  ghost predicate IsPartAt(all: seq<Row>, start: nat, key: Row, part: seq<Row>) {
    && start + |part| <= |all|
    && forall p :: 0 <= p < |part| ==> all[start + p] == key + part[p]
  }

  lemma PartIsContiguous(keys: seq<Row>, parts: seq<seq<Row>>, i: nat)
    requires |keys| == |parts| && i < |keys| && parts[i] != []
    ensures IsPartAt(Products(keys, parts), TotalLength(parts[..i]), keys[i], parts[i])
  {
    var start := TotalLength(parts[..i]);
    ProductsAt(keys, parts, i, start, 0);
    forall p | 0 <= p < |parts[i]| ensures Products(keys, parts)[start + p] == keys[i] + parts[i][p] {
      ProductsAt(keys, parts, i, start, p);
    }
  }

  lemma AbsentKey(keys: seq<Row>, parts: seq<seq<Row>>, m: nat, key: Row, row: Row)
    requires |keys| == |parts| && OfSize(keys, m) && |key| == m && key !in keys
    ensures key + row !in Products(keys, parts)
  {
    if key + row in Products(keys, parts) {
      var q :| 0 <= q < |Products(keys, parts)| && Products(keys, parts)[q] == key + row;
      var i := InProducts(keys, parts, q);
    }
  }

  /** A single lookup finds where a whole part starts, or that it is absent. */
  lemma OneLookupSuffices(keys: seq<Row>, parts: seq<seq<Row>>, m: nat, key: Row, part: seq<Row>)
    requires |keys| == |parts| && Distinct(keys) && OfSize(keys, m) && |key| == m
    requires forall i :: 0 <= i < |parts| ==> Distinct(parts[i])
    requires forall i :: 0 <= i < |keys| && keys[i] == key ==> parts[i] == part
    requires part != []
    ensures var found := Position(Products(keys, parts), key + part[0]);
      match Position(keys, key)
      case None => found == None
      case Some(i) => found == Some(TotalLength(parts[..i])) && IsPartAt(Products(keys, parts), TotalLength(parts[..i]), key, part)
  {
    match Position(keys, key)
    case None => AbsentKey(keys, parts, m, key, part[0]);
    case Some(i) =>
      var start := TotalLength(parts[..i]);
      PartIsContiguous(keys, parts, i);
      ProductsAreDistinct(keys, parts, m);
      assert Products(keys, parts)[start + 0] == key + part[0];
      PositionOf(Products(keys, parts), start);
  }

  function Repeat(n: nat, part: seq<Row>): (r: seq<seq<Row>>)
    ensures |r| == n
    ensures forall i :: 0 <= i < n ==> r[i] == part
  {
    seq(n, _ => part)
  }

  /** With the same part for every key, part `q` starts at `q * |part|`. */
  lemma {:induction false} TotalLengthOfRepeat(n: nat, part: seq<Row>)
    ensures TotalLength(Repeat(n, part)) == n * |part|
  {
    if n > 0 {
      TotalLengthOfRepeat(n - 1, part);
      assert Repeat(n, part)[..n - 1] == Repeat(n - 1, part);
    }
  }

  lemma {:induction false} AbsorbPresent(s: seq<Row>, t: seq<Row>)
    requires forall i :: 0 <= i < |t| ==> t[i] in s
    ensures FirstOccurrences(s + t) == FirstOccurrences(s)
  {
    if t == [] {
      assert s + t == s;
    } else {
      var n := |t| - 1;
      AbsorbPresent(s, t[..n]);
      assert s + t == s + t[..n] + [t[n]];
      FirstOccurrencesAppend(s + t[..n], t[n]);
      FirstOccurrencesIsSet(s + t[..n]);
      assert t[n] in s + t[..n];
    }
  }

  /** Insert all properties of a block behind `key`. */
  method InsertProperties(before: seq<Row>, key: Row, properties: seq<Row>) returns (rows: seq<Row>)
    requires Distinct(before)
    ensures rows == FirstOccurrences(before + Prefixed(key, properties))
  {
    rows := before;
    ghost var added := Prefixed(key, properties);
    FirstOccurrencesOfDistinct(before);
    assert before + added[..0] == before;
    for p := 0 to |properties|
      invariant rows == FirstOccurrences(before + added[..p])
    {
      TakeOneMore(before, added, p);
      FirstOccurrencesAppend(before + added[..p], added[p]);
      rows := Insert(rows, key + properties[p]);
    }
    assert added[..|properties|] == added;
  }

  /** One range per moved key: the properties of the merged block when no values
      are requested. */
  method CollectProperties(keys: seq<Row>, parts: seq<seq<Row>>, ghost m: nat) returns (rows: seq<Row>)
    requires |keys| == |parts| && Distinct(keys) && OfSize(keys, m)
    requires forall i :: 0 <= i < |parts| ==> Distinct(parts[i])
    ensures rows == Products(keys, parts)
  {
    rows := [];
    for i := 0 to |keys|
      invariant rows == Products(keys[..i], parts[..i])
    {
      ProductsAreDistinct(keys[..i], parts[..i], m);
      rows := InsertProperties(rows, keys[i], parts[i]);
      assert keys[..i + 1][..i] == keys[..i] && parts[..i + 1][..i] == parts[..i];
      ProductsAreDistinct(keys[..i + 1], parts[..i + 1], m);
      FirstOccurrencesOfDistinct(Products(keys[..i + 1], parts[..i + 1]));
    }
    assert keys[..|keys|] == keys && parts[..|parts|] == parts;
  }

  /** The blocks all have the same properties, so only the first one inserts
      anything for a requested key. */
  method InsertRequested(before: seq<Row>, key: Row, parts: seq<seq<Row>>, part: seq<Row>) returns (rows: seq<Row>)
    requires Distinct(before + Prefixed(key, part))
    requires parts != [] && forall i :: 0 <= i < |parts| ==> parts[i] == part
    ensures rows == before + Prefixed(key, part)
  {
    ghost var next := before + Prefixed(key, part);
    rows := before;
    assert forall i, j :: 0 <= i < j < |before| ==> next[i] == before[i] && next[j] == before[j];
    FirstOccurrencesOfDistinct(next);
    for b := 0 to |parts|
      invariant rows == if b == 0 then before else next
    {
      AbsorbPresent(next, Prefixed(key, part));
      rows := InsertProperties(rows, key, parts[b]);
    }
  }

  /** One range per requested key: the properties of the merged block when the
      values of the moved dimensions are given. */
  method CollectRequestedProperties(newKeys: seq<Row>, parts: seq<seq<Row>>, part: seq<Row>, ghost m: nat) returns (rows: seq<Row>)
    requires Distinct(newKeys) && OfSize(newKeys, m) && Distinct(part)
    requires parts != [] && forall i :: 0 <= i < |parts| ==> parts[i] == part
    ensures rows == Products(newKeys, Repeat(|newKeys|, part))
    ensures |rows| == |newKeys| * |part|
  {
    ghost var all := Repeat(|newKeys|, part);
    rows := [];
    for q := 0 to |newKeys|
      invariant rows == Products(newKeys[..q], all[..q])
    {
      assert newKeys[..q + 1][..q] == newKeys[..q] && all[..q + 1][..q] == all[..q];
      ProductsAreDistinct(newKeys[..q + 1], all[..q + 1], m);
      rows := InsertRequested(rows, newKeys[q], parts, part);
    }
    assert newKeys[..|newKeys|] == newKeys && all[..|newKeys|] == all;
    ProductsLength(newKeys, all);
    TotalLengthOfRepeat(|newKeys|, part);
  }
}
