/** Removing dimensions from the keys of a tensor map, and the groups of blocks
    that end up with the same remaining key. */
module Keys {
  import opened Wrappers
  import opened Sequences
  import opened Lexicographic
  import opened LabelSets
  import opened Tensors

  /** The keys without the removed dimensions, and where these dimensions were. */
  datatype RemovedDimensions = RemovedDimensions(newKeys: Labels, positions: seq<nat>)

  function PositionsOf(names: seq<string>, dimensions: seq<string>): (r: seq<nat>)
    ensures |r| == |dimensions|
  {
    seq(|dimensions|, k requires 0 <= k < |dimensions| => Position(names, dimensions[k]).GetOr(0))
  }

  /** The positions below `n` that are not listed, in ascending order. */
  function Others(n: nat, listed: seq<nat>): (r: seq<nat>)
    ensures forall i :: i in r <==> 0 <= i < n && i !in listed
    ensures forall i, j :: 0 <= i < j < |r| ==> r[i] < r[j]
  {
    if n == 0 then []
    else
      var r := Others(n - 1, listed);
      assert forall k :: 0 <= k < |r| ==> r[k] in r;
      if n - 1 in listed then r else r + [n - 1]
  }

  function Select(names: seq<string>, positions: seq<nat>): (r: seq<string>)
    ensures |r| == |positions|
    ensures forall k :: 0 <= k < |positions| && positions[k] < |names| ==> r[k] == names[positions[k]]
  {
    Pick(names, positions, "_")
  }

  function Projections(rows: seq<Row>, positions: seq<nat>): seq<Row> {
    Image(rows, (row: Row) => Project(row, positions))
  }

  function MovedPositions(keys: Labels, dimensions: seq<string>): seq<nat> {
    PositionsOf(keys.names, dimensions)
  }

  function RemainingPositions(keys: Labels, dimensions: seq<string>): seq<nat> {
    Others(|keys.names|, MovedPositions(keys, dimensions))
  }

  /** The keys that are left: each remaining entry once, in order of first
      occurrence, or a single placeholder when no dimension remains. */
  function RemainingKeys(keys: Labels, dimensions: seq<string>): Labels {
    var rest := RemainingPositions(keys, dimensions);
    if rest == [] then Labels(["_"], [[0]])
    else Labels(Select(keys.names, rest), FirstOccurrences(Projections(keys.rows, rest)))
  }

  lemma PositionsAreDistinct(names: seq<string>, dimensions: seq<string>)
    requires Distinct(names) && Distinct(dimensions)
    requires forall d :: d in dimensions ==> d in names
    ensures ArePositions(names, dimensions, PositionsOf(names, dimensions))
    ensures Distinct(PositionsOf(names, dimensions))
  {
    var r := PositionsOf(names, dimensions);
    forall k | 0 <= k < |r| ensures r[k] < |names| && names[r[k]] == dimensions[k] {
      assert dimensions[k] in dimensions;
    }
  }

  lemma RemainingKeysAreValid(keys: Labels, dimensions: seq<string>)
    requires ValidLabels(keys)
    ensures ValidLabels(RemainingKeys(keys, dimensions))
    ensures keys.rows != [] ==> RemainingKeys(keys, dimensions).rows != []
  {
    var rest := RemainingPositions(keys, dimensions);
    FirstOccurrencesIsSet(Projections(keys.rows, rest));
    if rest != [] {
      var r := RemainingKeys(keys, dimensions);
      assert forall k :: 0 <= k < |rest| ==> rest[k] in rest;
      forall i, j | 0 <= i < j < |r.names| ensures r.names[i] != r.names[j] {
        assert rest[i] < rest[j];
      }
      var all := Projections(keys.rows, rest);
      forall i | 0 <= i < |r.rows| ensures |r.rows[i]| == |r.names| {
        assert r.rows[i] in all;
      }
      if keys.rows != [] {
        assert all[0] in r.rows;
      }
    }
  }

  /** Where the dimensions are in the keys. */
  method ExtractedPositions(names: seq<string>, dimensions: seq<string>) returns (extracted: seq<nat>)
    requires Distinct(names) && forall d :: d in dimensions ==> d in names
    ensures extracted == PositionsOf(names, dimensions)
  {
    extracted := [];
    for k := 0 to |dimensions|
      invariant extracted == PositionsOf(names, dimensions[..k])
    {
      ghost var before := extracted;
      for i := 0 to |names|
        invariant extracted == before + (if dimensions[k] in names[..i] then [Position(names, dimensions[k]).value] else [])
      {
        if dimensions[k] == names[i] {
          PositionOf(names, i);
          extracted := extracted + [i];
        }
      }
      assert names[..|names|] == names;
      assert dimensions[k] in dimensions;
    }
    assert dimensions[..|dimensions|] == dimensions;
  }

  lemma ProjectionsAppend(rows: seq<Row>, b: nat, positions: seq<nat>)
    requires b < |rows|
    ensures FirstOccurrences(Projections(rows[..b + 1], positions))
         == Insert(FirstOccurrences(Projections(rows[..b], positions)), Project(rows[b], positions))
  {
    assert rows[..b + 1] == rows[..b] + [rows[b]];
    assert Projections(rows[..b + 1], positions) == Projections(rows[..b], positions) + [Project(rows[b], positions)];
    FirstOccurrencesAppend(Projections(rows[..b], positions), Project(rows[b], positions));
  }

  /** The columns `remaining` of every key, each entry once. */
  method RemainingEntries(rows: seq<Row>, remaining: seq<nat>) returns (entries: seq<Row>)
    requires forall b, k :: 0 <= b < |rows| && 0 <= k < |remaining| ==> remaining[k] < |rows[b]|
    ensures entries == FirstOccurrences(Projections(rows, remaining))
  {
    entries := [];
    for b := 0 to |rows|
      invariant entries == FirstOccurrences(Projections(rows[..b], remaining))
    {
      var entry: Row := [];
      for k := 0 to |remaining|
        invariant entry == Project(rows[b], remaining[..k])
      {
        entry := entry + [rows[b][remaining[k]]];
      }
      assert remaining[..|remaining|] == remaining;
      ProjectionsAppend(rows, b, remaining);
      entries := Insert(entries, entry);
    }
    assert rows[..|rows|] == rows;
  }

  /** The columns that are not extracted, with their names. */
  method RemainingColumns(names: seq<string>, extracted: seq<nat>) returns (remainingNames: seq<string>, remaining: seq<nat>)
    ensures remaining == Others(|names|, extracted)
    ensures remainingNames == Select(names, remaining)
  {
    remainingNames, remaining := [], [];
    for i := 0 to |names|
      invariant remaining == Others(i, extracted)
      invariant remainingNames == Select(names, remaining)
    {
      if i !in extracted {
        remainingNames := remainingNames + [names[i]];
        remaining := remaining + [i];
      }
    }
  }

  /** Remove the given dimensions from the keys. */
  method RemoveDimensionsFromKeys(keys: Labels, dimensions: seq<string>) returns (r: Result<RemovedDimensions>)
    requires ValidLabels(keys) && keys.rows != []
    requires Distinct(dimensions)
    ensures r.Ok? <==> forall d :: d in dimensions ==> d in keys.names
    ensures r.Ok? ==> r.value == RemovedDimensions(RemainingKeys(keys, dimensions), MovedPositions(keys, dimensions))
    ensures r.Err? ==> r.error == InvalidParameter
  {
    for k := 0 to |dimensions|
      invariant forall i :: 0 <= i < k ==> dimensions[i] in keys.names
    {
      if dimensions[k] !in keys.names {
        return Err(InvalidParameter);
      }
    }

    var extracted := ExtractedPositions(keys.names, dimensions);
    var remainingNames, remaining := RemainingColumns(keys.names, extracted);
    assert forall k :: 0 <= k < |remaining| ==> remaining[k] in remaining;
    var remainingKeys := RemainingEntries(keys.rows, remaining);
    EntriesAreUniform(keys.rows, remaining);
    var values := Flatten(remainingKeys);
    if values == [] {
      return Ok(RemovedDimensions(Labels(["_"], [[0]]), extracted));
    }
    return Ok(RemovedDimensions(FromValues(remainingNames, values), extracted));
  }

  lemma EntriesAreUniform(rows: seq<Row>, positions: seq<nat>)
    requires rows != []
    ensures var entries := FirstOccurrences(Projections(rows, positions));
      && (Flatten(entries) == [] <==> positions == [])
      && (positions != [] ==> |Flatten(entries)| % |positions| == 0 && Chunks(Flatten(entries), |positions|) == entries)
  {
    var all := Projections(rows, positions);
    var entries := FirstOccurrences(all);
    FirstOccurrencesIsSet(all);
    assert all[0] in entries;
    forall i | 0 <= i < |entries| ensures |entries[i]| == |positions| {
      assert entries[i] in all;
    }
    FlattenIsEmpty(entries, |positions|);
    if positions != [] {
      ChunksOfFlatten(entries, |positions|);
    }
  }

  lemma {:induction false} FlattenIsEmpty(rows: seq<Row>, size: nat)
    requires rows != [] && forall i :: 0 <= i < |rows| ==> |rows[i]| == size
    ensures Flatten(rows) == [] <==> size == 0
  {
    var n := |rows| - 1;
    if n > 0 { FlattenIsEmpty(rows[..n], size); }
  }
}
