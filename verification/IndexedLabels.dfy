/** Labels as they are stored: a flat row-major buffer of values and an index
    from entries to positions that is built when it is first needed. */
module IndexedLabels {
  import opened Wrappers
  import opened Sequences
  import opened Lexicographic
  import opened Tensors
  import opened RowSets
  import Keys

  /** Check that a name is an identifier. */
  method IsValidLabelName(name: string) returns (valid: bool)
    ensures valid <==> LabelSets.ValidName(name)
    ensures valid <==>
      && name != "" && !('0' <= name[0] <= '9')
      && forall i :: 0 <= i < |name| ==> 'a' <= name[i] <= 'z' || 'A' <= name[i] <= 'Z' || '0' <= name[i] <= '9' || name[i] == '_'
  {
    if |name| == 0 {
      return false;
    }
    for i := 0 to |name|
      invariant i > 0 ==> LabelSets.IsNameStart(name[0])
      invariant forall k :: 0 <= k < i ==> LabelSets.IsNameChar(name[k])
    {
      var c := name[i];
      if i == 0 && '0' <= c <= '9' {
        return false;
      }
      if !('a' <= c <= 'z' || 'A' <= c <= 'Z' || '0' <= c <= '9' || c == '_') {
        return false;
      }
    }
    return true;
  }

  /** The index says for every entry what a linear scan would. */
  ghost predicate IsIndex(index: map<Row, nat>, rows: seq<Row>) {
    && |index| == |rows|
    && (forall row :: row in index <==> row in rows)
    && forall i :: 0 <= i < |rows| ==> rows[i] in index && index[rows[i]] == i
  }

  lemma IndexFindsPosition(index: map<Row, nat>, rows: seq<Row>, row: Row)
    requires IsIndex(index, rows)
    ensures Position(rows, row) == if row in index then Some(index[row]) else None
  {}

  lemma IndexAppend(index: map<Row, nat>, rows: seq<Row>, row: Row)
    requires IsIndex(index, rows) && row !in index
    ensures IsIndex(index[row := |rows|], rows + [row])
  {
    var added, all := index[row := |rows|], rows + [row];
    assert forall i :: 0 <= i < |rows| ==> rows[i] in rows;
    forall i | 0 <= i < |all| ensures all[i] in added && added[all[i]] == i {
      assert i < |rows| ==> all[i] == rows[i];
    }
  }

  /** Build the index of a buffer with distinct entries. */
  method InitPositions(values: seq<int>, size: nat) returns (positions: map<Row, nat>)
    requires size > 0 && |values| % size == 0
    requires Distinct(LabelSets.Chunks(values, size))
    ensures IsIndex(positions, LabelSets.Chunks(values, size))
  {
    positions := map[];
    var chunks := LabelSets.Chunks(values, size);
    for i := 0 to |chunks|
      invariant IsIndex(positions, chunks[..i])
    {
      NotBefore(chunks, i);
      IndexAppend(positions, chunks[..i], chunks[i]);
      assert chunks[..i + 1] == chunks[..i] + [chunks[i]];
      positions := positions[chunks[i] := i];
    }
    assert chunks[..|chunks|] == chunks;
  }

  lemma NotBefore(rows: seq<Row>, i: nat)
    requires Distinct(rows) && i < |rows|
    ensures rows[i] !in rows[..i]
  {}

  /** No name occurs twice. */
  method NamesAreUnique(names: seq<string>) returns (unique: bool)
    ensures unique <==> Distinct(names)
  {
    var seen: set<string> := {};
    for i := 0 to |names|
      invariant forall name :: name in seen <==> name in names[..i]
      invariant Distinct(names[..i])
    {
      assert names[..i + 1] == names[..i] + [names[i]];
      if names[i] in seen {
        var k :| 0 <= k < i && names[..i][k] == names[i];
        assert names[k] == names[i];
        return false;
      }
      DistinctAppend(names[..i], names[i]);
      seen := seen + {names[i]};
    }
    assert names[..|names|] == names;
    return true;
  }

  /** Sort the rows and compare neighbours. */
  method RowsAreUnique(rows: seq<Row>) returns (unique: bool)
    ensures unique <==> Distinct(rows)
  {
    var sorted := SortRows(rows);
    SortRowsSorts(rows);
    DistinctByMultiset(rows);
    DistinctByMultiset(sorted);
    SameMembers(rows, sorted);
    var i := 0;
    while i + 1 < |sorted|
      invariant i == 0 || i < |sorted|
      invariant forall k :: 0 <= k < i ==> sorted[k] != sorted[k + 1]
    {
      if sorted[i] == sorted[i + 1] {
        return false;
      }
      i := i + 1;
    }
    NeighboursDiffer(sorted);
    return true;
  }

  lemma SameMembers(a: seq<Row>, b: seq<Row>)
    requires multiset(a) == multiset(b)
    ensures SameElements(a, b)
  {
    forall x ensures x in a <==> x in b {
      assert x in multiset(a) <==> x in multiset(b);
    }
  }

  /** In sorted rows, repeated rows are neighbours. */
  lemma NeighboursDiffer(rows: seq<Row>)
    requires Sorted(rows) && forall k :: 0 <= k < |rows| - 1 ==> rows[k] != rows[k + 1]
    ensures Distinct(rows)
  {
    forall i, j | 0 <= i < j < |rows| ensures rows[i] != rows[j] {
      LexIrreflexive(rows[i]);
      assert rows[i] != rows[i + 1];
      if i + 1 < j && rows[i + 1] != rows[j] {
        LexTransitive(rows[i], rows[i + 1], rows[j]);
      }
    }
  }

  /** One more row of the second operand in the union. */
  lemma UnionAppend(first: seq<Row>, second: seq<Row>, i: nat)
    requires Distinct(second) && i < |second|
    ensures UnionRows(first, second[..i + 1]) == Insert(UnionRows(first, second[..i]), second[i])
  {
    assert second[..i + 1][..i] == second[..i];
    NotBefore(second, i);
  }

  /** A row keeps its position when rows are added. */
  lemma PositionIsKept(rows: seq<Row>, added: seq<Row>, i: nat)
    requires Distinct(rows + added) && i < |rows|
    ensures Position(rows + added, rows[i]) == Some(i)
  {
    assert (rows + added)[i] == rows[i];
    PositionOf(rows + added, i);
  }

  /** `mapping[k]` is where the entry `rows[k]` is in `result`, for `k < n`. */
  ghost predicate IsMapping(mapping: seq<int>, rows: seq<Row>, n: nat, result: seq<Row>) {
    n <= |rows| && n <= |mapping| && forall k :: 0 <= k < n ==> mapping[k] == MappedTo(result, rows[k])
  }

  /** Entries that are already there keep their position. */
  lemma MappingIsKept(mapping: seq<int>, rows: seq<Row>, n: nat, result: seq<Row>, row: Row)
    requires IsMapping(mapping, rows, n, result) && Distinct(result + [row]) && row !in rows[..n]
    ensures IsMapping(mapping, rows, n, result + [row])
  {
    forall k | 0 <= k < n ensures MappedTo(result + [row], rows[k]) == MappedTo(result, rows[k]) {
      assert rows[k] in rows[..n];
      if rows[k] in result {
        var i := Position(result, rows[k]).value;
        PositionIsKept(result, [row], i);
      }
    }
  }

  lemma LastPosition(result: seq<Row>, row: Row)
    requires Distinct(result + [row])
    ensures MappedTo(result + [row], row) == |result|
  {
    assert (result + [row])[|result|] == row;
    PositionOf(result + [row], |result|);
  }

  /** The buffer and the index hold the same distinct entries. */
  ghost predicate Stores(index: map<Row, nat>, values: seq<int>, rows: seq<Row>, size: nat) {
    IsIndex(index, rows) && Distinct(rows) && LabelSets.OfSize(rows, size) && values == LabelSets.Flatten(rows)
  }

  /** Add an entry at the end, unless it is there, and say where it is. */
  method AddEntry(index: map<Row, nat>, values: seq<int>, entry: Row, ghost rows: seq<Row>, ghost size: nat)
    returns (newIndex: map<Row, nat>, newValues: seq<int>, position: nat)
    requires Stores(index, values, rows, size) && |entry| == size
    ensures Stores(newIndex, newValues, Insert(rows, entry), size)
    ensures MappedTo(Insert(rows, entry), entry) == position
  {
    newIndex, newValues := index, values;
    var newPosition := |index|;
    if entry in index {
      position := index[entry];
      IndexFindsPosition(index, rows, entry);
    } else {
      IndexAppend(index, rows, entry);
      DistinctAppend(rows, entry);
      LabelSets.FlattenAppend(rows, entry);
      LastPosition(rows, entry);
      newValues := values + entry;
      newIndex := index[entry := newPosition];
      position := newPosition;
    }
  }

  /** A mapping that was asked for says where the first `n` entries are. */
  ghost predicate Recorded(mapping: array<int>, entries: seq<Row>, n: nat, result: seq<Row>)
    reads mapping
  {
    mapping.Length > 0 ==> IsMapping(mapping[..], entries, n, result)
  }

  lemma RecordedPointsInto(mapping: array<int>, entries: seq<Row>, result: seq<Row>)
    requires Recorded(mapping, entries, |entries|, result)
    ensures mapping.Length > 0 ==> PointsInto(mapping[..], entries, result)
  {}

  ghost predicate HasRoom(mapping: array<int>, n: nat) {
    mapping.Length == 0 || mapping.Length >= n
  }

  /** Record where an entry went, if asked. */
  method Record(mapping: array<int>, ghost entries: seq<Row>, i: nat, position: nat, ghost rows: seq<Row>)
    requires i < |entries| && Distinct(entries) && Distinct(rows) && HasRoom(mapping, |entries|)
    requires Recorded(mapping, entries, i, rows)
    requires MappedTo(Insert(rows, entries[i]), entries[i]) == position
    modifies mapping
    ensures Recorded(mapping, entries, i + 1, Insert(rows, entries[i]))
    ensures forall k :: 0 <= k < mapping.Length && k != i ==> mapping[k] == old(mapping[k])
  {
    if mapping.Length > 0 {
      ghost var before := mapping[..];
      mapping[i] := position;
      MappingGrows(before, mapping[..], entries, i, rows);
    }
  }

  /** Add entries one by one, and say where they are if asked. */
  method AddEntries(index: map<Row, nat>, values: seq<int>, entries: seq<Row>, mapping: array<int>, ghost first: seq<Row>, ghost size: nat)
    returns (newIndex: map<Row, nat>, newValues: seq<int>)
    requires Stores(index, values, first, size) && Distinct(entries) && LabelSets.OfSize(entries, size)
    requires HasRoom(mapping, |entries|)
    modifies mapping
    ensures Stores(newIndex, newValues, UnionRows(first, entries), size)
    ensures Recorded(mapping, entries, |entries|, UnionRows(first, entries))
    ensures forall k :: |entries| <= k < mapping.Length ==> mapping[k] == old(mapping[k])
  {
    assert UnionRows(first, entries[..0]) == first;
    NothingMapped(mapping[..], entries, first);
    assert Recorded(mapping, entries, 0, first);
    hide Stores, UnionRows, Recorded, IsIndex, MappedTo, Insert;
    newIndex, newValues := index, values;
    for i := 0 to |entries|
      invariant Stores(newIndex, newValues, UnionRows(first, entries[..i]), size)
      invariant Recorded(mapping, entries, i, UnionRows(first, entries[..i]))
      invariant forall k :: i <= k < mapping.Length ==> mapping[k] == old(mapping[k])
    {
      var position: nat;
      ghost var rows := UnionRows(first, entries[..i]);
      StoresDistinct(newIndex, newValues, rows, size);
      newIndex, newValues, position := AddEntry(newIndex, newValues, entries[i], rows, size);
      UnionAppend(first, entries, i);
      Record(mapping, entries, i, position, rows);
    }
    assert entries[..|entries|] == entries;
  }

  lemma StoresDistinct(index: map<Row, nat>, values: seq<int>, rows: seq<Row>, size: nat)
    requires Stores(index, values, rows, size)
    ensures Distinct(rows)
  {}

  lemma NothingMapped(mapping: seq<int>, rows: seq<Row>, result: seq<Row>)
    ensures IsMapping(mapping, rows, 0, result)
  {}

  lemma MappingGrows(before: seq<int>, mapping: seq<int>, entries: seq<Row>, i: nat, rows: seq<Row>)
    requires IsMapping(before, entries, i, rows) && i < |entries| && Distinct(entries) && Distinct(rows)
    requires i < |before| == |mapping| && mapping[..i] == before[..i] && mapping[i] == MappedTo(Insert(rows, entries[i]), entries[i])
    ensures IsMapping(mapping, entries, i + 1, Insert(rows, entries[i]))
  {
    NotBefore(entries, i);
    if entries[i] !in rows {
      DistinctAppend(rows, entries[i]);
      MappingIsKept(before, entries, i, rows, entries[i]);
    }
    assert forall k :: 0 <= k < i ==> mapping[k] == mapping[..i][k] == before[..i][k] == before[k];
  }

  lemma StoredRows(index: map<Row, nat>, values: seq<int>, rows: seq<Row>, size: nat)
    requires Stores(index, values, rows, size) && size > 0
    ensures |values| % size == 0 && LabelSets.Chunks(values, size) == rows && Distinct(rows) && IsIndex(index, rows)
  {
    LabelSets.ChunksOfFlatten(rows, size);
  }

  /** The first operand keeps its positions in the union. */
  lemma FirstIsMapped(first: seq<Row>, second: seq<Row>)
    requires Distinct(first) && Distinct(second)
    ensures forall k :: 0 <= k < |first| ==> MappedTo(UnionRows(first, second), first[k]) == k
  {
    UnionIsDistinct(first, second);
    forall k | 0 <= k < |first| ensures MappedTo(UnionRows(first, second), first[k]) == k {
      PositionIsKept(first, Keep(second, first, false), k);
    }
  }

  /** The first operand is at the start of the union. */
  method FillIdentity(mapping: array<int>, first: seq<Row>, ghost second: seq<Row>)
    requires mapping.Length == 0 || mapping.Length == |first|
    requires Distinct(first) && Distinct(second)
    modifies mapping
    ensures Recorded(mapping, first, |first|, UnionRows(first, second))
  {
    if mapping.Length > 0 {
      for i := 0 to |first|
        invariant forall k :: 0 <= k < i ==> mapping[k] == k
      {
        mapping[i] := i;
      }
    }
    FirstIsMapped(first, second);
  }

  /** No entry is anywhere yet. */
  method FillAbsent(mapping: array<int>, ghost entries: seq<Row>)
    requires mapping.Length == 0 || mapping.Length == |entries|
    modifies mapping
    ensures Recorded(mapping, entries, |entries|, [])
    ensures forall k :: 0 <= k < mapping.Length ==> mapping[k] == -1
  {
    for i := 0 to mapping.Length
      invariant forall k :: 0 <= k < i ==> mapping[k] == -1
    {
      mapping[i] := -1;
    }
  }

  /** Record the position of an entry that is added to the result. */
  method RecordNew(mapping: array<int>, ghost entries: seq<Row>, i: nat, newPosition: nat, ghost rows: seq<Row>)
    requires i < |entries| && Distinct(entries) && Distinct(rows + [entries[i]]) && newPosition == |rows|
    requires mapping.Length == 0 || mapping.Length == |entries|
    requires Recorded(mapping, entries, |entries|, rows)
    modifies mapping
    ensures Recorded(mapping, entries, |entries|, rows + [entries[i]])
  {
    if mapping.Length > 0 {
      LastPosition(rows, entries[i]);
      forall k | 0 <= k < |entries| && k != i
        ensures MappedTo(rows + [entries[i]], entries[k]) == MappedTo(rows, entries[k])
      {
        OtherPosition(rows, entries[i], entries[k]);
      }
      mapping[i] := newPosition;
    }
  }

  lemma OtherPosition(rows: seq<Row>, added: Row, row: Row)
    requires Distinct(rows + [added]) && row != added
    ensures MappedTo(rows + [added], row) == MappedTo(rows, row)
  {
    if row in rows {
      PositionIsKept(rows, [added], Position(rows, row).value);
    }
  }

  lemma KeepAppend(entries: seq<Row>, others: seq<Row>, i: nat)
    requires i < |entries| && Distinct(entries)
    ensures Keep(entries[..i + 1], others, true)
         == if entries[i] in others then Keep(entries[..i], others, true) + [entries[i]] else Keep(entries[..i], others, true)
    ensures Distinct(Keep(entries[..i + 1], others, true))
  {
    assert entries[..i + 1][..i] == entries[..i];
    KeepIsDistinct(entries[..i + 1], others, true);
  }

  lemma IntersectionHasSize(first: seq<Row>, second: seq<Row>, size: nat)
    requires LabelSets.OfSize(first, size) && LabelSets.OfSize(second, size)
    ensures LabelSets.OfSize(IntersectionRows(first, second), size)
  {
    var rows := IntersectionRows(first, second);
    assert forall k :: 0 <= k < |rows| ==> rows[k] in rows;
  }

  /** The first `n` slots hold `found`, the others -1. */
  ghost predicate IsSelection(selected: seq<int>, found: seq<int>) {
    && |found| <= |selected| && selected[..|found|] == found
    && forall k :: |found| <= k < |selected| ==> selected[k] == -1
  }

  lemma SelectionStarts(selected: seq<int>, found: seq<int>)
    requires IsSelection(selected, found)
    ensures |found| <= |selected| && selected[..|found|] == found
  {}

  lemma PositionsFound(names: seq<string>, wanted: seq<string>)
    requires forall name :: name in wanted ==> name in names
    ensures ArePositions(names, wanted, Keys.PositionsOf(names, wanted))
  {
    var positions := Keys.PositionsOf(names, wanted);
    forall k | 0 <= k < |wanted| ensures positions[k] < |names| && names[positions[k]] == wanted[k] {
      assert wanted[k] in wanted;
    }
  }

  /** Write one more selected position. */
  method AddSelected(selected: array<int>, n: nat, position: nat, ghost found: seq<int>)
    requires IsSelection(selected[..], found) && n == |found| < selected.Length
    modifies selected
    ensures IsSelection(selected[..], found + [position])
  {
    ghost var before := selected[..];
    selected[n] := position;
    assert selected[..n] == before[..n];
  }

  method ClearSelection(selected: array<int>)
    modifies selected
    ensures IsSelection(selected[..], [])
  {
    for i := 0 to selected.Length
      invariant forall k :: 0 <= k < i ==> selected[k] == -1
    {
      selected[i] := -1;
    }
  }

  /** Where the names of the selection are. */
  method DimensionsToMatch(names: seq<string>, wanted: seq<string>) returns (r: Result<seq<nat>>)
    ensures r.Ok? <==> forall name :: name in wanted ==> name in names
    ensures r.Ok? ==> r.value == Keys.PositionsOf(names, wanted)
    ensures r.Ok? ==> forall k :: 0 <= k < |r.value| ==> r.value[k] < |names|
    ensures r.Err? ==> r.error == InvalidParameter
  {
    var dimensions: seq<nat> := [];
    for k := 0 to |wanted|
      invariant dimensions == Keys.PositionsOf(names, wanted[..k])
      invariant forall i :: 0 <= i < k ==> wanted[i] in names && dimensions[i] < |names|
    {
      match Position(names, wanted[k]) {
        case Some(i) => dimensions := dimensions + [i];
        case None => return Err(InvalidParameter);
      }
    }
    assert wanted[..|wanted|] == wanted;
    return Ok(dimensions);
  }

  /** The columns of an entry that are matched. */
  method Candidate(entry: Row, dimensions: seq<nat>) returns (candidate: Row)
    requires forall k :: 0 <= k < |dimensions| ==> dimensions[k] < |entry|
    ensures candidate == Project(entry, dimensions)
  {
    candidate := [];
    for k := 0 to |dimensions|
      invariant candidate == Project(entry, dimensions)[..k]
    {
      candidate := candidate + [entry[dimensions[k]]];
    }
  }

  lemma FoundAppend(rows: seq<Row>, wanted: seq<Row>, i: nat)
    requires i < |wanted|
    ensures FoundPositions(rows, wanted[..i + 1])
         == match Position(rows, wanted[i]) case Some(p) => FoundPositions(rows, wanted[..i]) + [p] case None => FoundPositions(rows, wanted[..i])
  {
    assert wanted[..i + 1][..i] == wanted[..i];
  }

  /** A selection never has more entries than there are rows. */
  lemma FoundFits(rows: seq<Row>, wanted: seq<Row>)
    requires Distinct(rows) && Distinct(wanted)
    ensures |FoundPositions(rows, wanted)| <= |rows|
  {
    FoundPositionsAre(rows, wanted);
    DistinctBelow(FoundPositions(rows, wanted), |rows|);
  }

  lemma MatchingAppend(rows: seq<Row>, positions: seq<nat>, wanted: seq<Row>, i: nat)
    requires i < |rows|
    ensures MatchingPositions(rows[..i + 1], positions, wanted)
         == if Project(rows[i], positions) in wanted then MatchingPositions(rows[..i], positions, wanted) + [i]
            else MatchingPositions(rows[..i], positions, wanted)
    ensures |MatchingPositions(rows[..i], positions, wanted)| <= i
  {
    assert rows[..i + 1][..i] == rows[..i];
    MatchingFits(rows[..i], positions, wanted);
  }

  lemma {:induction false} MatchingFits(rows: seq<Row>, positions: seq<nat>, wanted: seq<Row>)
    ensures |MatchingPositions(rows, positions, wanted)| <= |rows|
  {
    if rows != [] {
      MatchingFits(rows[..|rows| - 1], positions, wanted);
    }
  }

  class Labels {
    const names: seq<string>
    const values: seq<int>
    /** The index, once it has been needed. */
    var positions: Option<map<Row, nat>>

    ghost predicate WellFormed() {
      && LabelSets.ValidNames(names)
      && (names == [] ==> values == [])
      && (names != [] ==> |values| % |names| == 0 && Distinct(LabelSets.Chunks(values, |names|)))
    }

    ghost predicate Valid()
      reads this
    {
      WellFormed() && (positions.Some? ==> IsIndex(positions.value, Rows()))
    }

    /** The entries, in order. */
    function Rows(): (r: seq<Row>)
      requires WellFormed()
      ensures Distinct(r) && LabelSets.OfSize(r, |names|)
    {
      if names == [] then [] else LabelSets.Chunks(values, |names|)
    }

    /** These labels as a value. */
    ghost function Value(): (l: LabelSets.Labels)
      requires WellFormed()
      ensures LabelSets.ValidLabels(l)
    {
      LabelSets.Labels(names, Rows())
    }

    function Size(): nat { |names| }

    function Count(): (n: nat)
      requires WellFormed()
      ensures n == |Rows()|
    {
      if Size() == 0 then 0
      else
        LabelSets.Multiple(|Rows()|, Size());
        |values| / Size()
    }

    constructor (names: seq<string>, values: seq<int>, positions: Option<map<Row, nat>>)
      ensures this.names == names && this.values == values && this.positions == positions
    {
      this.names, this.values, this.positions := names, values, positions;
    }

    /** Labels with the given names and values, if the names are distinct
        identifiers and the entries are distinct. With `checkUnique` off, the
        caller guarantees distinct entries. */
    static method New(names: seq<string>, values: seq<int>, checkUnique: bool) returns (r: Result<Labels>)
      requires LabelSets.ValidNames(names) ==> if names == [] then values == [] else |values| % |names| == 0
      requires LabelSets.ValidNames(names) && names != [] && !checkUnique ==> Distinct(LabelSets.Chunks(values, |names|))
      ensures r.Ok? <==> LabelSets.ValidNames(names) && (names != [] ==> Distinct(LabelSets.Chunks(values, |names|)))
      ensures r.Ok? ==> fresh(r.value) && r.value.Valid() && r.value.names == names && r.value.values == values
      ensures r.Err? ==> r.error == InvalidParameter
    {
      for i := 0 to |names|
        invariant forall k :: 0 <= k < i ==> LabelSets.ValidName(names[k])
      {
        var valid := IsValidLabelName(names[i]);
        if !valid {
          return Err(InvalidParameter);
        }
      }
      var unique := NamesAreUnique(names);
      if !unique {
        return Err(InvalidParameter);
      }
      if |names| == 0 {
        var empty := new Labels([], [], None);
        return Ok(empty);
      }
      if checkUnique {
        var distinct := RowsAreUnique(LabelSets.Chunks(values, |names|));
        if !distinct {
          return Err(InvalidParameter);
        }
      }
      var labels := new Labels(names, values, None);
      return Ok(labels);
    }

    /** The index, built if it is not there yet. */
    method GetOrInitPositions() returns (index: map<Row, nat>)
      requires Valid() && Size() > 0
      modifies this`positions
      ensures Valid() && positions == Some(index) && IsIndex(index, Rows())
    {
      match positions {
        case Some(known) =>
          index := known;
        case None =>
          index := InitPositions(values, Size());
          positions := Some(index);
      }
    }

    /** Whether the entry is there. */
    method Contains(entry: Row) returns (found: bool)
      requires Valid() && Size() > 0
      modifies this`positions
      ensures Valid()
      ensures found <==> entry in Rows()
    {
      var index := GetOrInitPositions();
      found := entry in index;
    }

    /** Where the entry is: the same as a linear scan finds. */
    method PositionOf(entry: Row) returns (r: Option<nat>)
      requires Valid() && Size() > 0 && |entry| == Size()
      modifies this`positions
      ensures Valid()
      ensures r == Position(Rows(), entry)
    {
      var index := GetOrInitPositions();
      IndexFindsPosition(index, Rows(), entry);
      r := if entry in index then Some(index[entry]) else None;
    }

    /** The entries of these labels, then the new ones of the other labels.
        Mappings that are not empty get the positions in the union. */
    method Union(other: Labels, firstMapping: array<int>, secondMapping: array<int>) returns (r: Result<Labels>)
      requires Valid() && other.Valid()
      requires names == other.names ==> Size() > 0
      requires firstMapping.Length == 0 || firstMapping.Length == Count()
      requires HasRoom(secondMapping, other.Count())
      requires firstMapping != secondMapping
      modifies this`positions, firstMapping, secondMapping
      ensures Valid() && other.Valid()
      ensures r.Ok? <==> names == other.names
      ensures r.Err? ==> r.error == InvalidParameter && firstMapping[..] == old(firstMapping[..]) && secondMapping[..] == old(secondMapping[..])
      ensures r.Ok? ==> fresh(r.value) && r.value.Valid() && r.value.positions.Some?
      ensures r.Ok? ==> r.value.names == names && r.value.Rows() == UnionRows(Rows(), other.Rows())
      ensures r.Ok? ==> forall row :: row in r.value.Rows() <==> row in Rows() || row in other.Rows()
      ensures r.Ok? ==> Recorded(firstMapping, Rows(), |Rows()|, r.value.Rows())
      ensures r.Ok? && firstMapping.Length > 0 ==> PointsInto(firstMapping[..], Rows(), r.value.Rows())
      ensures r.Ok? ==> Recorded(secondMapping, other.Rows(), |other.Rows()|, r.value.Rows())
      ensures r.Ok? && secondMapping.Length > 0 ==> PointsInto(secondMapping[..], other.Rows(), r.value.Rows())
      ensures forall i :: |other.Rows()| <= i < secondMapping.Length ==> secondMapping[i] == old(secondMapping[i])
    {
      if names != other.names {
        return Err(InvalidParameter);
      }
      var index := GetOrInitPositions();
      StoresRows(index);
      hide Stores, UnionRows, IsIndex, MappedTo, Recorded, IsMapping, PointsInto;
      var entries := other.Rows();
      FillIdentity(firstMapping, Rows(), entries);
      var allIndex, allValues := AddEntries(index, values, entries, secondMapping, Rows(), Size());
      var labels := WithIndex(names, allValues, allIndex, UnionRows(Rows(), entries));
      forall row ensures row in UnionRows(Rows(), entries) <==> row in Rows() || row in entries {
        MembersOfUnionAndIntersection(Rows(), entries, row);
      }
      RecordedPointsInto(firstMapping, Rows(), UnionRows(Rows(), entries));
      RecordedPointsInto(secondMapping, entries, UnionRows(Rows(), entries));
      return Ok(labels);
    }

    /** Labels whose index is already known. */
    static method WithIndex(names: seq<string>, values: seq<int>, index: map<Row, nat>, ghost rows: seq<Row>) returns (labels: Labels)
      requires LabelSets.ValidNames(names) && names != [] && Stores(index, values, rows, |names|)
      ensures fresh(labels) && labels.Valid() && labels.names == names && labels.Rows() == rows && labels.positions.Some?
    {
      StoredRows(index, values, rows, |names|);
      labels := new Labels(names, values, Some(index));
    }

    lemma StoresRows(index: map<Row, nat>)
      requires WellFormed() && Size() > 0 && IsIndex(index, Rows())
      ensures Stores(index, values, Rows(), Size())
    {
      LabelSets.FlattenOfChunks(values, Size());
    }

    /** The entries of `first` that are also in `second`, as values. */
    static method CommonEntries(first: Labels, firstIndexes: array<int>, second: Labels, secondIndexes: array<int>) returns (values: seq<int>)
      requires first.Valid() && second.Valid() && first.names == second.names != []
      requires firstIndexes.Length == 0 || firstIndexes.Length == first.Count()
      requires secondIndexes.Length == 0 || secondIndexes.Length == second.Count()
      requires firstIndexes != secondIndexes
      modifies second`positions, firstIndexes, secondIndexes
      ensures first.Valid() && second.Valid()
      ensures values == LabelSets.Flatten(Keep(first.Rows(), second.Rows(), true))
      ensures Recorded(firstIndexes, first.Rows(), |first.Rows()|, Keep(first.Rows(), second.Rows(), true))
      ensures Recorded(secondIndexes, second.Rows(), |second.Rows()|, Keep(first.Rows(), second.Rows(), true))
    {
      var entries := first.Rows();
      ghost var others := second.Rows();
      FillAbsent(firstIndexes, entries);
      FillAbsent(secondIndexes, others);
      hide Recorded, IsMapping, MappedTo, IsIndex;
      values := [];
      var newPosition := 0;
      assert Keep(entries[..0], others, true) == [] && LabelSets.Flatten([]) == [];
      hide Keep, LabelSets.Flatten;
      for i := 0 to |entries|
        invariant first.Valid() && second.Valid()
        invariant newPosition == |Keep(entries[..i], others, true)|
        invariant values == LabelSets.Flatten(Keep(entries[..i], others, true))
        invariant Recorded(firstIndexes, entries, |entries|, Keep(entries[..i], others, true))
        invariant Recorded(secondIndexes, others, |others|, Keep(entries[..i], others, true))
      {
        ghost var rows := Keep(entries[..i], others, true);
        KeepAppend(entries, others, i);
        var position := second.PositionOf(entries[i]);
        if position.Some? {
          LabelSets.FlattenAppend(rows, entries[i]);
          values := values + entries[i];
          RecordNew(firstIndexes, entries, i, newPosition, rows);
          RecordNew(secondIndexes, others, position.value, newPosition, rows);
          newPosition := newPosition + 1;
        }
      }
      assert entries[..|entries|] == entries;
    }

    /** The common entries, in the order of the operand with fewer entries.
        Mappings that are not empty get the positions in the intersection, and
        -1 for entries that are not in it. */
    method Intersection(other: Labels, firstMapping: array<int>, secondMapping: array<int>) returns (r: Result<Labels>)
      requires Valid() && other.Valid()
      requires names == other.names ==> Size() > 0
      requires firstMapping.Length == 0 || firstMapping.Length == Count()
      requires secondMapping.Length == 0 || secondMapping.Length == other.Count()
      requires firstMapping != secondMapping
      modifies this`positions, other`positions, firstMapping, secondMapping
      ensures Valid() && other.Valid()
      ensures r.Ok? <==> names == other.names
      ensures r.Err? ==> r.error == InvalidParameter && firstMapping[..] == old(firstMapping[..]) && secondMapping[..] == old(secondMapping[..])
      ensures r.Ok? ==> fresh(r.value) && r.value.Valid() && r.value.names == names
      ensures r.Ok? ==> r.value.Rows() == IntersectionRows(Rows(), other.Rows())
      ensures r.Ok? ==> forall x, y :: x in r.value.Rows() && y in r.value.Rows() ==>
        (Before(r.value.Rows(), x, y) <==> Before(if Count() <= other.Count() then Rows() else other.Rows(), x, y))
      ensures r.Ok? ==> forall row :: row in r.value.Rows() <==> row in Rows() && row in other.Rows()
      ensures r.Ok? ==> Recorded(firstMapping, Rows(), |Rows()|, r.value.Rows())
      ensures r.Ok? && firstMapping.Length > 0 ==> PointsInto(firstMapping[..], Rows(), r.value.Rows())
      ensures r.Ok? ==> Recorded(secondMapping, other.Rows(), |other.Rows()|, r.value.Rows())
      ensures r.Ok? && secondMapping.Length > 0 ==> PointsInto(secondMapping[..], other.Rows(), r.value.Rows())
    {
      if names != other.names {
        return Err(InvalidParameter);
      }
      ghost var rows := IntersectionRows(Rows(), other.Rows());
      IntersectionIsDistinct(Rows(), other.Rows());
      IntersectionHasSize(Rows(), other.Rows(), Size());
      IntersectionFollowsFewer(Rows(), other.Rows());
      hide Recorded, IsIndex, Before, PointsInto;
      var newValues: seq<int>;
      if Count() <= other.Count() {
        newValues := CommonEntries(this, firstMapping, other, secondMapping);
      } else {
        newValues := CommonEntries(other, secondMapping, this, firstMapping);
      }
      LabelSets.ChunksOfFlatten(rows, Size());
      forall row ensures row in rows <==> row in Rows() && row in other.Rows() {
        MembersOfUnionAndIntersection(Rows(), other.Rows(), row);
      }
      var labels := new Labels(names, newValues, None);
      RecordedPointsInto(firstMapping, Rows(), rows);
      RecordedPointsInto(secondMapping, other.Rows(), rows);
      return Ok(labels);
    }

    /** The positions of the entries of `selection`, in its order. */
    method SelectEntries(selection: Labels, selected: array<int>) returns (n: nat)
      requires Valid() && selection.Valid() && selection.names == names != []
      requires selected.Length == Count() && IsSelection(selected[..], [])
      modifies this`positions, selected
      ensures Valid() && selection.Valid()
      ensures n == |FoundPositions(Rows(), selection.Rows())|
      ensures IsSelection(selected[..], FoundPositions(Rows(), selection.Rows()))
    {
      hide IsSelection, IsIndex;
      var entries := selection.Rows();
      ghost var rows := Rows();
      n := 0;
      assert FoundPositions(rows, entries[..0]) == [];
      for i := 0 to |entries|
        invariant Valid() && selection.Valid()
        invariant n == |FoundPositions(rows, entries[..i])|
        invariant IsSelection(selected[..], FoundPositions(rows, entries[..i]))
      {
        var position := PositionOf(entries[i]);
        FoundAppend(rows, entries, i);
        if position.Some? {
          FoundFits(rows, entries[..i + 1]);
          AddSelected(selected, n, position.value, FoundPositions(rows, entries[..i]));
          n := n + 1;
        }
      }
      assert entries[..|entries|] == entries;
    }

    /** The positions of the entries whose columns are in `selection`. */
    method SelectMatching(selection: Labels, dimensions: seq<nat>, selected: array<int>) returns (n: nat)
      requires Valid() && selection.Valid() && (Rows() != [] ==> selection.names != [])
      requires forall k :: 0 <= k < |dimensions| ==> dimensions[k] < |names|
      requires selected.Length == Count() && IsSelection(selected[..], [])
      modifies selection`positions, selected
      ensures Valid() && selection.Valid()
      ensures n == |MatchingPositions(Rows(), dimensions, selection.Rows())|
      ensures IsSelection(selected[..], MatchingPositions(Rows(), dimensions, selection.Rows()))
    {
      hide IsSelection, IsIndex;
      var entries := Rows();
      ghost var wanted := selection.Rows();
      n := 0;
      assert MatchingPositions(entries[..0], dimensions, wanted) == [];
      for i := 0 to |entries|
        invariant Valid() && selection.Valid()
        invariant n == |MatchingPositions(entries[..i], dimensions, wanted)|
        invariant IsSelection(selected[..], MatchingPositions(entries[..i], dimensions, wanted))
      {
        var candidate := Candidate(entries[i], dimensions);
        MatchingAppend(entries, dimensions, wanted, i);
        var found := selection.Contains(candidate);
        if found {
          AddSelected(selected, n, i, MatchingPositions(entries[..i], dimensions, wanted));
          n := n + 1;
        }
      }
      assert entries[..|entries|] == entries;
    }

    /** Where selected entries are: in the order of the selection when it has
        the same names, and in ascending order otherwise. */
    ghost function Selected(selection: Labels): seq<int>
      requires WellFormed() && selection.WellFormed()
    {
      if selection.names == names then FoundPositions(Rows(), selection.Rows())
      else MatchingPositions(Rows(), Keys.PositionsOf(names, selection.names), selection.Rows())
    }

    /** Find the entries that agree with some entry of `selection` on all of its
        dimensions. The slots of `selected` that are not used get -1. */
    method Select(selection: Labels, selected: array<int>) returns (r: Result<nat>)
      requires Valid() && selection.Valid() && selected.Length == Count()
      requires selection.names == names ==> Size() > 0
      requires Count() > 0 ==> selection.Size() > 0
      modifies this`positions, selection`positions, selected
      ensures Valid() && selection.Valid()
      ensures r.Ok? <==> forall name :: name in selection.names ==> name in names
      ensures r.Ok? ==> r.value == |Selected(selection)| && IsSelection(selected[..], Selected(selection))
      ensures r.Ok? ==> r.value <= selected.Length && AreAgreeing(names, Rows(), selection.names, selection.Rows(), selected[..r.value])
      ensures r.Ok? && selection.names == names ==> r.value <= selected.Length && InOrderOf(selection.Rows(), Rows(), selected[..r.value])
      ensures r.Ok? && selection.names != names ==> r.value <= selected.Length && AscendingInts(selected[..r.value])
      ensures r.Err? ==> r.error == InvalidParameter && IsSelection(selected[..], [])
    {
      ClearSelection(selected);
      hide IsSelection, IsIndex, AreAgreeing, InOrderOf, AscendingInts;
      if selection.names == names {
        var n := SelectEntries(selection, selected);
        FoundAgree(names, Rows(), selection.Rows());
        SelectionStarts(selected[..], FoundPositions(Rows(), selection.Rows()));
        return Ok(n);
      }
      var dimensions := DimensionsToMatch(names, selection.names);
      if dimensions.Err? {
        return Err(dimensions.error);
      }
      var n := SelectMatching(selection, dimensions.value, selected);
      PositionsFound(names, selection.names);
      MatchingAgree(names, Rows(), selection.names, selection.Rows(), dimensions.value);
      SelectionStarts(selected[..], MatchingPositions(Rows(), dimensions.value, selection.Rows()));
      return Ok(n);
    }
  }
}
