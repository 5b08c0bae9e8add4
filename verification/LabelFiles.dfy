/** Labels as NPY files: a structured array with one 32-bit integer per name. */
module LabelFiles {
  import opened Wrappers
  import opened Sequences
  import opened Lexicographic
  import opened LabelSets
  import opened Bytes
  import opened NpyParser
  import opened NpySyntax
  import opened NpyLayouts
  import opened NpyHeaders
  import opened NpyRoundTrip
  import opened NpyBytes
  import IndexedLabels

  /** Label values are 32-bit signed integers. */
  ghost predicate AllI32(values: seq<int>) {
    forall i :: 0 <= i < |values| ==> IsI32(values[i])
  }

  /** Labels as they can be in memory. */
  ghost predicate Storable(l: Labels) {
    ValidLabels(l) && l.names != [] && |l.rows| <= USIZE_MAX && AllI32(Flatten(l.rows))
  }

  function Format(e: Endianness): string {
    match e
    case LittleEndian => "<i4"
    case BigEndian => ">i4"
  }

  function FieldsOf(names: seq<string>, e: Endianness): (r: seq<Field>)
    ensures |r| == |names| && forall i :: 0 <= i < |r| ==> r[i] == Field(names[i], Format(e))
  {
    seq(|names|, i requires 0 <= i < |names| => Field(names[i], Format(e)))
  }

  function LabelsHeader(l: Labels, e: Endianness): Header {
    Header(Compound(FieldsOf(l.names, e)), false, [|l.rows|])
  }

  function I32Pieces(values: seq<int>, e: Endianness): (r: seq<seq<byte>>)
    ensures |r| == |values| && OfLength(r, 4)
    ensures forall i :: 0 <= i < |r| && IsI32(values[i]) ==> r[i] == I32ToBytes(e, values[i])
  {
    seq(|values|, i requires 0 <= i < |values| => if IsI32(values[i]) then I32ToBytes(e, values[i]) else [0, 0, 0, 0])
  }

  /** The file for labels, on a machine with the given byte order. */
  function LabelsFile(l: Labels, native: Endianness): Result<seq<byte>> {
    var header :- HeaderBytes(LabelsHeader(l, native));
    Ok(header + Joined(I32Pieces(Flatten(l.rows), native)))
  }

  lemma PieceAppended(done: seq<int>, value: int, e: Endianness)
    requires IsI32(value)
    ensures Joined(I32Pieces(done + [value], e)) == Joined(I32Pieces(done, e)) + I32ToBytes(e, value)
  {
    hide I32ToBytes;
    assert I32Pieces(done + [value], e) == I32Pieces(done, e) + [I32ToBytes(e, value)];
    JoinedAppend(I32Pieces(done, e), I32ToBytes(e, value));
  }

  /** Write one entry, value by value. */
  method WriteEntry(before: seq<byte>, entry: Row, native: Endianness, ghost done: seq<int>) returns (out: seq<byte>)
    requires before == Joined(I32Pieces(done, native)) && AllI32(entry)
    ensures out == Joined(I32Pieces(done + entry, native))
  {
    hide I32ToBytes, Joined, I32Pieces;
    out := before;
    assert done + entry[..0] == done;
    for j := 0 to |entry|
      invariant out == Joined(I32Pieces(done + entry[..j], native))
    {
      PieceAppended(done + entry[..j], entry[j], native);
      assert done + entry[..j + 1] == done + entry[..j] + [entry[j]];
      out := out + I32ToBytes(native, entry[j]);
    }
    assert entry[..|entry|] == entry;
  }

  lemma {:induction false} EntryIsI32(rows: seq<Row>, i: nat)
    requires AllI32(Flatten(rows)) && i < |rows|
    ensures AllI32(rows[i])
  {
    var n := |rows| - 1;
    var before := Flatten(rows[..n]);
    assert forall k :: 0 <= k < |before| ==> before[k] == Flatten(rows)[k];
    assert forall k :: 0 <= k < |rows[n]| ==> rows[n][k] == Flatten(rows)[|before| + k];
    if i < n {
      EntryIsI32(rows[..n], i);
    }
  }

  method LabelsDescriptor(names: seq<string>, native: Endianness) returns (fields: seq<Field>)
    ensures fields == FieldsOf(names, native)
  {
    fields := [];
    for i := 0 to |names|
      invariant fields == FieldsOf(names, native)[..i]
    {
      if native.LittleEndian? {
        fields := fields + [Field(names[i], "<i4")];
      } else {
        fields := fields + [Field(names[i], ">i4")];
      }
    }
  }

  method WriteEntries(rows: seq<Row>, native: Endianness) returns (out: seq<byte>)
    requires AllI32(Flatten(rows))
    ensures out == Joined(I32Pieces(Flatten(rows), native))
  {
    out := [];
    for i := 0 to |rows|
      invariant out == Joined(I32Pieces(Flatten(rows[..i]), native))
    {
      EntryIsI32(rows, i);
      FlattenAppend(rows[..i], rows[i]);
      assert rows[..i + 1] == rows[..i] + [rows[i]];
      out := WriteEntry(out, rows[i], native, Flatten(rows[..i]));
    }
    assert rows[..|rows|] == rows;
  }

  /** Write labels with at least one dimension; iterating over the entries of
      labels without dimensions aborts. */
  method SaveLabels(labels: Labels, native: Endianness) returns (r: Result<seq<byte>>)
    requires Storable(labels)
    ensures r == LabelsFile(labels, native)
  {
    var typeDescriptor := LabelsDescriptor(labels.names, native);
    hide HeaderBytes, FieldsOf, Joined, I32Pieces;
    var header := Header(Compound(typeDescriptor), false, [|labels.rows|]);
    var start :- HeaderToBytes(header);
    var values := WriteEntries(labels.rows, native);
    return Ok(start + values);
  }

  /** The names and the byte order of a type descriptor. */
  datatype Columns = Columns(names: seq<string>, endianness: Endianness)

  function FieldNames(fields: seq<Field>): (r: seq<string>)
    ensures |r| == |fields| && forall i :: 0 <= i < |r| ==> r[i] == fields[i].name
  {
    seq(|fields|, i requires 0 <= i < |fields| => fields[i].name)
  }

  predicate AllFormats(fields: seq<Field>, format: string) {
    forall i :: 0 <= i < |fields| ==> fields[i].format == format
  }

  /** All columns are 32-bit integers in the same byte order. */
  function ColumnsOf(d: DataType): Result<Columns> {
    match d
    case Scalar(_) => Err(Serialization)
    case Compound(fields) =>
      if fields == [] then Err(OutOfBounds)
      else if AllFormats(fields, "<i4") then Ok(Columns(FieldNames(fields), LittleEndian))
      else if AllFormats(fields, ">i4") then Ok(Columns(FieldNames(fields), BigEndian))
      else Err(Serialization)
  }

  lemma FirstFormat(fields: seq<Field>, i: nat, format: string)
    requires 0 < i <= |fields| && AllFormats(fields[..i], format)
    ensures fields[0].format == format
  {
    assert fields[..i][0] == fields[0];
  }

  method CheckFields(fields: seq<Field>) returns (r: Result<Columns>)
    ensures r == ColumnsOf(Compound(fields))
  {
    var names: seq<string> := [];
    var endianness: Option<Endianness> := None;
    for i := 0 to |fields|
      invariant names == FieldNames(fields)[..i]
      invariant endianness.None? <==> i == 0
      invariant endianness.Some? ==> AllFormats(fields[..i], Format(endianness.value))
    {
      var format := fields[i].format;
      if i > 0 {
        FirstFormat(fields, i, Format(endianness.value));
      }
      assert fields[..i + 1] == fields[..i] + [fields[i]];
      if endianness.None? {
        if format == "<i4" {
          endianness := Some(LittleEndian);
        } else if format == ">i4" {
          endianness := Some(BigEndian);
        }
      }
      if format == "<i4" {
        if endianness != Some(LittleEndian) {
          return Err(Serialization);
        }
      } else if format == ">i4" {
        if endianness != Some(BigEndian) {
          return Err(Serialization);
        }
      } else {
        return Err(Serialization);
      }
      names := names + [fields[i].name];
    }
    assert fields[..|fields|] == fields;
    if endianness.None? {
      return Err(OutOfBounds);
    }
    FirstFormat(fields, |fields|, Format(endianness.value));
    assert FieldNames(fields)[..|fields|] == FieldNames(fields) && "<i4"[0] != ">i4"[0];
    return Ok(Columns(names, endianness.value));
  }

  method CheckTypeDescriptor(d: DataType) returns (r: Result<Columns>)
    ensures r == ColumnsOf(d)
  {
    match d {
      case Compound(fields) => r := CheckFields(fields);
      case Scalar(_) => r := Err(Serialization);
    }
  }

  /** The integers in a buffer. */
  function I32sIn(bytes: seq<byte>, n: nat, e: Endianness): (r: seq<int>)
    ensures |r| == n && forall i :: 0 <= i < n ==> r[i] == I32FromBytes(e, Slice(bytes, 4, i))
  {
    seq(n, i requires 0 <= i < n => I32FromBytes(e, Slice(bytes, 4, i)))
  }

  /** `Labels::new`, for values that fill whole entries. */
  ghost function NewLabels(names: seq<string>, values: seq<int>): Result<Labels> {
    if ValidNames(names) && names != [] && |values| % |names| == 0 && Distinct(Chunks(values, |names|)) then Ok(FromValues(names, values))
    else Err(InvalidParameter)
  }

  /** What is read from the bytes after the header. */
  ghost function LabelsAfter(header: Header, rest: seq<byte>): Result<Labels> {
    if header.fortranOrder || |header.shape| != 1 then Err(Serialization)
    else
      var columns :- ColumnsOf(header.typeDescriptor);
      var n := header.shape[0] * |columns.names|;
      if |rest| < 4 * n then Err(Io)
      else if |rest| > 4 * n then Err(Serialization)
      else NewLabels(columns.names, I32sIn(rest, n, columns.endianness))
  }

  /** What is read from a file. */
  ghost function ReadLabels(bytes: seq<byte>): Result<Labels> {
    var read :- ReadHeader(bytes);
    LabelsAfter(read.header, read.rest)
  }

  lemma {:induction false} CollectedTypesHaveFields(entries: seq<Entry>)
    requires forall i :: 0 <= i < |entries| && entries[i].Descr? ==> HasFields(entries[i].dataType)
    ensures Collect(entries).descr.Some? ==> HasFields(Collect(entries).descr.value)
  {
    if entries != [] {
      CollectedTypesHaveFields(entries[..|entries| - 1]);
    }
  }

  /** The names of the columns are not missing, because the parser does not
      accept an empty list of fields. */
  lemma ParsedTypesHaveFields(s: string)
    requires ParseHeader(s).Ok?
    ensures HasFields(ParseHeader(s).value.value.typeDescriptor)
  {
    hide ParseHeader, RenderHeader, Collect;
    var t := OnlyLayoutsAreRead(s);
    var entries := EntryMeanings(t.entries);
    forall i | 0 <= i < |entries| && entries[i].Descr? ensures HasFields(entries[i].dataType) {
      assert ValidEntry(t.entries[i].item);
    }
    CollectedTypesHaveFields(entries);
  }

  lemma {:induction false} CollectedShapesFit(entries: seq<Entry>)
    requires forall i :: 0 <= i < |entries| && entries[i].Shape? ==> FitsUsize(entries[i].shape)
    ensures Collect(entries).shape.Some? ==> FitsUsize(Collect(entries).shape.value)
  {
    if entries != [] {
      CollectedShapesFit(entries[..|entries| - 1]);
    }
  }

  /** The sizes that are parsed are 64-bit numbers. */
  lemma ParsedShapesFit(s: string)
    requires ParseHeader(s).Ok?
    ensures FitsUsize(ParseHeader(s).value.value.shape)
  {
    hide ParseHeader, RenderHeader, Collect;
    var t := OnlyLayoutsAreRead(s);
    var entries := EntryMeanings(t.entries);
    forall i | 0 <= i < |entries| && entries[i].Shape? ensures FitsUsize(entries[i].shape) {
      assert ValidEntry(t.entries[i].item);
    }
    CollectedShapesFit(entries);
  }

  /** What is known of every header that is read. */
  lemma ReadHeaderIsSound(bytes: seq<byte>)
    requires ReadHeader(bytes).Ok?
    ensures HasFields(ReadHeader(bytes).value.header.typeDescriptor)
    ensures FitsUsize(ReadHeader(bytes).value.header.shape)
  {
    hide ParseHeader, DecodeText, HasFields, FitsUsize;
    var v := VersionFromBytes(bytes[6], bytes[7]).value;
    var sized := bytes[6..][2..];
    var body := sized[v.LengthBytes()..][..FromBytes(LittleEndian, sized[..v.LengthBytes()])];
    ParsedTypesHaveFields(DecodeText(v, body[..|body| - 1]).value);
    ParsedShapesFit(DecodeText(v, body[..|body| - 1]).value);
  }

  /** Loading labels aborts only where reading the header does: a byte order is
      always found. */
  lemma AbortsOnlyInHeader(bytes: seq<byte>)
    ensures ReadLabels(bytes) == Err(OutOfBounds) <==> ReadHeader(bytes) == Err(OutOfBounds)
  {
    hide ReadHeader, AllFormats, NewLabels;
    if ReadHeader(bytes).Ok? {
      ReadHeaderIsSound(bytes);
      NewLabelsFail();
    }
  }

  lemma NewLabelsFail()
    ensures forall names, values :: NewLabels(names, values).Err? ==> NewLabels(names, values).error == InvalidParameter
  {}

  /** Labels that are loaded can be saved again. */
  lemma LoadedLabelsAreStorable(bytes: seq<byte>)
    requires ReadLabels(bytes).Ok?
    ensures Storable(ReadLabels(bytes).value)
  {
    hide ReadHeader, Chunks, FitsUsize, I32FromBytes;
    ReadHeaderIsSound(bytes);
    var read := ReadHeader(bytes).value;
    var columns := ColumnsOf(read.header.typeDescriptor).value;
    var n := read.header.shape[0] * |columns.names|;
    var values := I32sIn(read.rest, n, columns.endianness);
    FlattenOfChunks(values, |columns.names|);
    I32sAreI32(read.rest, n, columns.endianness);
    SameCount(|Chunks(values, |columns.names|)|, read.header.shape[0], |columns.names|);
    assert read.header.shape[0] <= USIZE_MAX by {
      FirstSizeFits(read.header.shape);
    }
  }

  lemma FirstSizeFits(shape: seq<nat>)
    requires FitsUsize(shape) && shape != []
    ensures shape[0] <= USIZE_MAX
  {}

  lemma SameCount(a: nat, b: nat, size: nat)
    requires a * size == b * size && size > 0
    ensures a == b
  {
    Multiple(a, size);
    Multiple(b, size);
  }

  lemma I32sAreI32(bytes: seq<byte>, n: nat, e: Endianness)
    requires |bytes| == 4 * n
    ensures AllI32(I32sIn(bytes, n, e))
  {
    hide I32FromBytes;
    forall i | 0 <= i < n ensures IsI32(I32sIn(bytes, n, e)[i]) {
      SliceFits(i, n, 4);
      FourBytesAreI32(e, Slice(bytes, 4, i));
    }
  }

  method DecodeI32s(bytes: seq<byte>, n: nat, e: Endianness) returns (values: seq<int>)
    requires 4 * n <= |bytes|
    ensures values == I32sIn(bytes, n, e)
  {
    values := [];
    for i := 0 to n
      invariant values == I32sIn(bytes, n, e)[..i]
    {
      values := values + [I32FromBytes(e, bytes[4 * i..4 * i + 4])];
    }
  }

  lemma SlicesOfStart(bytes: seq<byte>, n: nat, e: Endianness)
    requires 4 * n <= |bytes|
    ensures I32sIn(bytes[..4 * n], n, e) == I32sIn(bytes, n, e)
  {
    forall i | 0 <= i < n ensures Slice(bytes[..4 * n], 4, i) == Slice(bytes, 4, i) {
      SliceFits(i, n, 4);
    }
  }

  method ReadI32s(reader: Reader, n: nat, e: Endianness) returns (r: Result<seq<int>>)
    requires reader.Valid()
    modifies reader`position
    ensures reader.Valid()
    ensures r.Ok? <==> 4 * n <= |old(reader.Rest())|
    ensures r.Ok? ==> r.value == I32sIn(old(reader.Rest()), n, e) && reader.Rest() == old(reader.Rest())[4 * n..]
    ensures r.Err? ==> r.error == Io
  {
    hide I32sIn;
    ghost var all := reader.Rest();
    var bytes :- reader.ReadExact(4 * n);
    SlicesOfStart(all, n, e);
    var values := DecodeI32s(bytes, n, e);
    return Ok(values);
  }

  method LoadLabels(reader: Reader) returns (r: Result<Labels>)
    requires reader.Valid()
    modifies reader`position
    ensures reader.Valid() && r == ReadLabels(old(reader.Rest()))
  {
    hide ReadHeader, I32FromBytes, ColumnsOf;
    var header :- HeaderFromReader(reader);
    if header.fortranOrder {
      return Err(Serialization);
    } else if |header.shape| != 1 {
      return Err(Serialization);
    }
    var columns :- CheckTypeDescriptor(header.typeDescriptor);
    var data :- ReadI32s(reader, header.shape[0] * |columns.names|, columns.endianness);
    var extra := reader.ReadToEnd();
    if |extra| != 0 {
      return Err(Serialization);
    }
    ColumnsAreNamed(header.typeDescriptor);
    Multiple(header.shape[0], |columns.names|);
    var labels :- IndexedLabels.Labels.New(columns.names, data, true);
    return Ok(Labels(columns.names, labels.Rows()));
  }

  lemma ColumnsAreNamed(d: DataType)
    requires ColumnsOf(d).Ok?
    ensures ColumnsOf(d).value.names != []
  {}

  lemma NamesAreReadable(names: seq<string>, e: Endianness)
    requires ValidNames(names)
    ensures QuoteFreeType(Compound(FieldsOf(names, e))) && AsciiType(Compound(FieldsOf(names, e)))
  {
    forall i | 0 <= i < |names| ensures QuoteFree(names[i]) && IsAsciiText(names[i]) {
      assert ValidName(names[i]);
    }
  }

  lemma FormatsAreFound(names: seq<string>, e: Endianness)
    requires names != []
    ensures ColumnsOf(Compound(FieldsOf(names, e))) == Ok(Columns(names, e))
  {
    var fields := FieldsOf(names, e);
    assert "<i4"[0] != ">i4"[0];
    assert fields[0].format == Format(e);
    assert FieldNames(fields) == names;
  }

  lemma ValuesAreReadBack(values: seq<int>, e: Endianness)
    requires AllI32(values)
    ensures var bytes := Joined(I32Pieces(values, e));
      |bytes| == 4 * |values| && I32sIn(bytes, |values|, e) == values
  {
    var pieces := I32Pieces(values, e);
    JoinedLength(pieces, 4);
    forall i | 0 <= i < |values| ensures I32FromBytes(e, Slice(Joined(pieces), 4, i)) == values[i] {
      SliceOfJoined(pieces, 4, i);
      I32RoundTrip(e, values[i]);
    }
  }

  /** Labels are read back from their file, in both byte orders. */
  lemma LabelsAreReadBack(l: Labels, e: Endianness)
    requires Storable(l) && LabelsFile(l, e).Ok?
    ensures ReadLabels(LabelsFile(l, e).value) == Ok(l)
  {
    hide HeaderBytes, ReadHeader, FieldsOf, Joined, I32Pieces, I32sIn, QuoteFreeType, AsciiType, ColumnsOf;
    var values := Flatten(l.rows);
    NamesAreReadable(l.names, e);
    FormatsAreFound(l.names, e);
    HeaderIsReadBack(LabelsHeader(l, e), Joined(I32Pieces(values, e)));
    ChunksOfFlatten(l.rows, |l.names|);
    ValuesAreReadBack(values, e);
  }

  /** The header and the size of a file that is accepted: a structured array with
      one axis, fields that are all `<i4` or all `>i4`, four bytes per value. */
  predicate IsLabelsFile(header: Header, rest: seq<byte>) {
    && !header.fortranOrder && |header.shape| == 1
    && header.typeDescriptor.Compound? && header.typeDescriptor.fields != []
    && ((forall k :: 0 <= k < |header.typeDescriptor.fields| ==> header.typeDescriptor.fields[k].format == "<i4")
        || (forall k :: 0 <= k < |header.typeDescriptor.fields| ==> header.typeDescriptor.fields[k].format == ">i4"))
    && |rest| == 4 * (header.shape[0] * |header.typeDescriptor.fields|)
  }

  lemma ValueFits(i: nat, k: nat, rows: nat, size: nat)
    requires i < rows && k < size
    ensures i * size + k < rows * size
  {
    SliceFits(i, rows, size);
  }

  /** The value of field `k` of entry `i` in the file: its four bytes, in two's
      complement, lowest byte first for `<i4` and highest byte first for `>i4`. */
  function LabelIn(header: Header, rest: seq<byte>, i: nat, k: nat): int
    requires IsLabelsFile(header, rest) && i < header.shape[0] && k < |header.typeDescriptor.fields|
  {
    ValueFits(i, k, header.shape[0], |header.typeDescriptor.fields|);
    var at := 4 * (i * |header.typeDescriptor.fields| + k);
    var b := rest[at..at + 4];
    Signed32(if header.typeDescriptor.fields[k].format == "<i4" then LowestFirst4(b) else LowestFirst4(Reversed(b)))
  }

  /** Two entries of the file differ in some field. */
  ghost predicate EntriesDiffer(header: Header, rest: seq<byte>, i: nat, j: nat)
    requires IsLabelsFile(header, rest) && i < header.shape[0] && j < header.shape[0]
  {
    exists k: nat :: k < |header.typeDescriptor.fields| && LabelIn(header, rest, i, k) != LabelIn(header, rest, j, k)
  }

  lemma ColumnsExactly(d: DataType)
    ensures ColumnsOf(d).Ok? <==>
      && d.Compound? && d.fields != []
      && ((forall k :: 0 <= k < |d.fields| ==> d.fields[k].format == "<i4") || (forall k :: 0 <= k < |d.fields| ==> d.fields[k].format == ">i4"))
    ensures ColumnsOf(d).Ok? ==> ColumnsOf(d).value.names == FieldNames(d.fields)
    ensures ColumnsOf(d).Ok? ==> forall k :: 0 <= k < |d.fields| ==> d.fields[k].format == if ColumnsOf(d).value.endianness.LittleEndian? then "<i4" else ">i4"
  {
    assert "<i4"[0] != ">i4"[0];
  }

  /** The values in the buffer are the values in the file. */
  lemma BufferHolds(header: Header, rest: seq<byte>, i: nat, k: nat)
    requires IsLabelsFile(header, rest) && i < header.shape[0] && k < |header.typeDescriptor.fields|
    ensures ColumnsOf(header.typeDescriptor).Ok?
    ensures var m := |header.typeDescriptor.fields|;
      var values := I32sIn(rest, header.shape[0] * m, ColumnsOf(header.typeDescriptor).value.endianness);
      && |values| % m == 0 && |Chunks(values, m)| == header.shape[0]
      && Chunks(values, m)[i][k] == LabelIn(header, rest, i, k)
  {
    var m, n := |header.typeDescriptor.fields|, header.shape[0];
    ColumnsExactly(header.typeDescriptor);
    var e := ColumnsOf(header.typeDescriptor).value.endianness;
    Multiple(n, m);
    ValueFits(i, k, n, m);
    var values := I32sIn(rest, n * m, e);
    SameCount(|Chunks(values, m)|, n, m);
    ChunkAt(values, m, i, k);
    var p := i * m + k;
    SignedFourBytes(rest[4 * p..4 * p + 4]);
    assert "<i4"[0] != ">i4"[0];
  }

  /** Entries of the buffer are different rows exactly if they differ in the file. */
  lemma DistinctExactly(header: Header, rest: seq<byte>)
    requires IsLabelsFile(header, rest) && ColumnsOf(header.typeDescriptor).Ok?
    ensures var m := |header.typeDescriptor.fields|;
      var values := I32sIn(rest, header.shape[0] * m, ColumnsOf(header.typeDescriptor).value.endianness);
      && |values| % m == 0 && |Chunks(values, m)| == header.shape[0]
      && (Distinct(Chunks(values, m)) <==> forall i: nat, j: nat :: i < j < header.shape[0] ==> EntriesDiffer(header, rest, i, j))
  {
    var m, n := |header.typeDescriptor.fields|, header.shape[0];
    var values := I32sIn(rest, n * m, ColumnsOf(header.typeDescriptor).value.endianness);
    Multiple(n, m);
    SameCount(|Chunks(values, m)|, n, m);
    var rows := Chunks(values, m);
    forall i: nat, j: nat | i < j < n ensures rows[i] != rows[j] <==> EntriesDiffer(header, rest, i, j) {
      RowsDifferExactly(header, rest, rows, i, j);
    }
    hide EntriesDiffer, IsLabelsFile;
  }

  lemma RowsDifferExactly(header: Header, rest: seq<byte>, rows: seq<Row>, i: nat, j: nat)
    requires IsLabelsFile(header, rest) && ColumnsOf(header.typeDescriptor).Ok? && i < j < header.shape[0]
    requires var m := |header.typeDescriptor.fields|;
      var values := I32sIn(rest, header.shape[0] * m, ColumnsOf(header.typeDescriptor).value.endianness);
      |values| % m == 0 && rows == Chunks(values, m) && |rows| == header.shape[0]
    ensures rows[i] != rows[j] <==> EntriesDiffer(header, rest, i, j)
  {
    var m := |header.typeDescriptor.fields|;
    forall k: nat | k < m ensures rows[i][k] == LabelIn(header, rest, i, k) && rows[j][k] == LabelIn(header, rest, j, k) {
      BufferHolds(header, rest, i, k);
      BufferHolds(header, rest, j, k);
    }
    hide LabelIn, IsLabelsFile, I32sIn, Chunks;
    if rows[i] != rows[j] {
      var k :| 0 <= k < m && rows[i][k] != rows[j][k];
      assert LabelIn(header, rest, i, k) != LabelIn(header, rest, j, k);
    }
  }

  /** Which files are read as labels: those with valid names for the fields, and
      entries that differ from each other. */
  lemma LabelsAreReadExactly(bytes: seq<byte>)
    ensures ReadLabels(bytes).Ok? <==>
      && ReadHeader(bytes).Ok?
      && var header, rest := ReadHeader(bytes).value.header, ReadHeader(bytes).value.rest;
      && IsLabelsFile(header, rest) && ValidNames(FieldNames(header.typeDescriptor.fields))
      && forall i: nat, j: nat :: i < j < header.shape[0] ==> EntriesDiffer(header, rest, i, j)
  {
    hide ReadHeader, ValidNames, EntriesDiffer, I32sIn, ColumnsOf, LabelIn;
    if ReadHeader(bytes).Ok? {
      var header, rest := ReadHeader(bytes).value.header, ReadHeader(bytes).value.rest;
      ColumnsExactly(header.typeDescriptor);
      if IsLabelsFile(header, rest) {
        DistinctExactly(header, rest);
      }
    }
  }

  /** Every entry holds the integers in its own bytes, under the names of the
      fields. */
  lemma LabelIsRead(bytes: seq<byte>, i: nat, k: nat)
    requires ReadLabels(bytes).Ok?
    ensures ReadHeader(bytes).Ok? && IsLabelsFile(ReadHeader(bytes).value.header, ReadHeader(bytes).value.rest)
    ensures var header, rest, labels := ReadHeader(bytes).value.header, ReadHeader(bytes).value.rest, ReadLabels(bytes).value;
      && |labels.rows| == header.shape[0] && |labels.names| == |header.typeDescriptor.fields|
      && (k < |labels.names| ==> labels.names[k] == header.typeDescriptor.fields[k].name)
      && (i < |labels.rows| && k < |labels.names| ==> |labels.rows[i]| == |labels.names| && labels.rows[i][k] == LabelIn(header, rest, i, k))
  {
    LabelsAreReadExactly(bytes);
    hide ReadHeader, ValidNames, EntriesDiffer, I32sIn, ColumnsOf, LabelIn;
    var header, rest := ReadHeader(bytes).value.header, ReadHeader(bytes).value.rest;
    ColumnsExactly(header.typeDescriptor);
    DistinctExactly(header, rest);
    if i < header.shape[0] && k < |header.typeDescriptor.fields| {
      BufferHolds(header, rest, i, k);
    }
  }

  /** What is in the file of labels: one field per name, `<i4` on machines that
      put the lowest byte first and `>i4` on others. */
  lemma WrittenLabelsAre(l: Labels, e: Endianness, k: nat)
    requires Storable(l) && LabelsFile(l, e).Ok?
    ensures var read := ReadHeader(LabelsFile(l, e).value);
      && read.Ok? && !read.value.header.fortranOrder && read.value.header.shape == [|l.rows|]
      && read.value.header.typeDescriptor.Compound? && |read.value.header.typeDescriptor.fields| == |l.names|
      && (k < |l.names| ==>
            read.value.header.typeDescriptor.fields[k] == Field(l.names[k], if e.LittleEndian? then "<i4" else ">i4"))
  {
    hide HeaderBytes, ReadHeader, Joined, I32Pieces, QuoteFreeType, AsciiType;
    NamesAreReadable(l.names, e);
    HeaderIsReadBack(LabelsHeader(l, e), Joined(I32Pieces(Flatten(l.rows), e)));
  }
}
