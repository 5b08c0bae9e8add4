/** Labels as values: named columns and distinct rows. The class
    `IndexedLabels.Labels` implements them with a flat buffer and an index. */
module LabelSets {
  import opened Sequences
  import opened Lexicographic

  datatype Labels = Labels(names: seq<string>, rows: seq<Row>)

  predicate IsNameStart(c: char) {
    'a' <= c <= 'z' || 'A' <= c <= 'Z' || c == '_'
  }

  predicate IsNameChar(c: char) {
    IsNameStart(c) || '0' <= c <= '9'
  }

  predicate ValidName(name: string) {
    name != "" && IsNameStart(name[0]) && forall i :: 0 <= i < |name| ==> IsNameChar(name[i])
  }

  ghost predicate ValidNames(names: seq<string>) {
    Distinct(names) && forall i :: 0 <= i < |names| ==> ValidName(names[i])
  }

  ghost predicate ValidLabels(l: Labels) {
    && ValidNames(l.names)
    && (l.names == [] ==> l.rows == [])
    && OfSize(l.rows, |l.names|)
    && Distinct(l.rows)
  }

  /** The rows one after the other, as `Labels` stores them. */
  function Flatten(rows: seq<Row>): seq<int> {
    if rows == [] then [] else Flatten(rows[..|rows| - 1]) + rows[|rows| - 1]
  }

  /** The rows of a flat buffer. */
  function Chunks(values: seq<int>, size: nat): (rows: seq<Row>)
    requires size > 0 && |values| % size == 0
    ensures |rows| * size == |values|
    ensures forall i :: 0 <= i < |rows| ==> |rows[i]| == size
  {
    if values == [] then []
    else
      var n := |values| - size;
      ShorterBySize(|values|, size);
      Chunks(values[..n], size) + [values[n..]]
  }

  lemma ShorterBySize(n: nat, size: nat)
    requires size > 0 && n > 0 && n % size == 0
    ensures n >= size && (n - size) % size == 0
  {
    var q := n / size;
    assert n == q * size;
    assert q <= 0 ==> q * size <= 0;
    assert q * size >= size;
    assert n - size == (q - 1) * size;
    Multiple(q - 1, size);
  }

  lemma Multiple(q: nat, size: nat)
    requires size > 0
    ensures (q * size) % size == 0 && (q * size) / size == q
  {
    var x := q * size;
    var d := x / size - q;
    assert x == size * (x / size) + x % size;
    assert size * d == -(x % size);
    assert d >= 1 ==> size * d >= size;
    assert d <= -1 ==> size * d + size <= 0;
  }

  ghost predicate OfSize(rows: seq<Row>, size: nat) {
    forall i :: 0 <= i < |rows| ==> |rows[i]| == size
  }

  lemma {:induction false} ChunksOfFlatten(rows: seq<Row>, size: nat)
    requires size > 0 && OfSize(rows, size)
    ensures |Flatten(rows)| == |rows| * size && |Flatten(rows)| % size == 0
    ensures Chunks(Flatten(rows), size) == rows
  {
    Multiple(|rows|, size);
    if rows != [] {
      var n := |rows| - 1;
      ChunksOfFlatten(rows[..n], size);
      var v, w := Flatten(rows), Flatten(rows[..n]);
      assert |v| - size == |w| && v[..|w|] == w && v[|w|..] == rows[n];
      assert rows == rows[..n] + [rows[n]];
    }
  }

  lemma {:induction false} FlattenOfChunks(values: seq<int>, size: nat)
    requires size > 0 && |values| % size == 0
    ensures Flatten(Chunks(values, size)) == values
  {
    if values != [] {
      var n := |values| - size;
      ShorterBySize(|values|, size);
      FlattenOfChunks(values[..n], size);
      var rows, before := Chunks(values, size), Chunks(values[..n], size);
      assert rows == before + [values[n..]];
      assert rows[..|rows| - 1] == before;
      assert values == values[..n] + values[n..];
    }
  }

  /** Row `i` of a buffer starts at `i` times the size of a row. */
  lemma {:induction false} ChunkAt(values: seq<int>, size: nat, i: nat, k: nat)
    requires size > 0 && |values| % size == 0 && i < |Chunks(values, size)| && k < size
    ensures i * size + k < |values| && Chunks(values, size)[i][k] == values[i * size + k]
  {
    var n := |values| - size;
    ShorterBySize(|values|, size);
    var before := Chunks(values[..n], size);
    assert |before| * size == n && Chunks(values, size) == before + [values[n..]];
    if i < |before| {
      ChunkAt(values[..n], size, i, k);
    }
  }

  lemma FlattenAppend(rows: seq<Row>, row: Row)
    ensures Flatten(rows + [row]) == Flatten(rows) + row
  {
    assert (rows + [row])[..|rows|] == rows;
  }

  /** `Labels::new_unchecked_uniqueness`, for names and values it accepts. */
  function FromValues(names: seq<string>, values: seq<int>): Labels
    requires names != [] && |values| % |names| == 0
  {
    Labels(names, Chunks(values, |names|))
  }
}
