/** Arrays as NPY files: 64-bit floating point numbers in row-major order. */
module DataFiles {
  import opened Wrappers
  import opened RowMajor
  import opened Arrays
  import opened Bytes
  import opened NpyParser
  import opened NpyHeaders
  import opened NpyRoundTrip
  import opened NpyBytes

  /** The data of an array, in row-major order. */
  function DataOf(a: Array): (r: seq<Value>)
    ensures |r| == Product(a.shape)
    ensures forall i :: 0 <= i < |r| ==> r[i] == Get(a, Unravel(a.shape, i))
  {
    seq(Product(a.shape), i requires 0 <= i < Product(a.shape) => Get(a, Unravel(a.shape, i)))
  }

  /** An array of the given shape, filled with row-major data. */
  function Filled(shape: seq<nat>, data: seq<Value>): (a: Array)
    ensures ValidArray(a) && a.shape == shape
  {
    Array(shape, map index | index in Indices(shape) :: if Linear(shape, index) < |data| then data[Linear(shape, index)] else ZERO)
  }

  /** The data determines the array. */
  lemma FilledWithData(a: Array)
    requires ValidArray(a)
    ensures Filled(a.shape, DataOf(a)) == a
  {
    var r := Filled(a.shape, DataOf(a));
    forall index: Index | InRange(a.shape, index) ensures Get(r, index) == Get(a, index) {
      LinearUnravel(a.shape, index);
    }
    SameArray(r, a);
  }

  function FloatFormat(e: Endianness): string {
    match e
    case LittleEndian => "<f8"
    case BigEndian => ">f8"
  }

  function DataHeader(a: Array, e: Endianness): Header {
    Header(Scalar(FloatFormat(e)), false, a.shape)
  }

  function ValuePieces(data: seq<Value>, e: Endianness): (r: seq<seq<byte>>)
    ensures |r| == |data| && OfLength(r, 8)
    ensures forall i :: 0 <= i < |r| ==> r[i] == ToBytes(e, data[i] as nat, 8)
  {
    seq(|data|, i requires 0 <= i < |data| => ToBytes(e, data[i] as nat, 8))
  }

  /** The file for an array, on a machine with the given byte order. */
  function DataFile(a: Array, native: Endianness): Result<seq<byte>> {
    var header :- HeaderBytes(DataHeader(a, native));
    Ok(header + Joined(ValuePieces(DataOf(a), native)))
  }

  method WriteValues(data: seq<Value>, native: Endianness) returns (out: seq<byte>)
    ensures out == Joined(ValuePieces(data, native))
  {
    JoinedNothing();
    hide ToBytes, Joined;
    assert data[..0] == [] && ValuePieces(data[..0], native) == [];
    out := [];
    for i := 0 to |data|
      invariant out == Joined(ValuePieces(data[..i], native))
    {
      var piece := ToBytes(native, data[i] as nat, 8);
      JoinedAppend(ValuePieces(data[..i], native), piece);
      assert ValuePieces(data[..i + 1], native) == ValuePieces(data[..i], native) + [piece];
      out := out + piece;
    }
    assert data[..|data|] == data;
  }

  method WriteData(a: Array, native: Endianness) returns (r: Result<seq<byte>>)
    ensures r == DataFile(a, native)
  {
    hide HeaderBytes, Joined, ValuePieces, DataOf;
    var typeDescriptor := if native.LittleEndian? then "<f8" else ">f8";
    var header := Header(Scalar(typeDescriptor), false, a.shape);
    var start :- HeaderToBytes(header);
    var values := WriteValues(DataOf(a), native);
    return Ok(start + values);
  }

  /** The bit pattern of a number in a buffer. */
  function ValueFromBytes(e: Endianness, bytes: seq<byte>): Value {
    var n := FromBytes(e, bytes);
    if n < 0x1_0000_0000_0000_0000 then n as Value else ZERO
  }

  function ValuesIn(bytes: seq<byte>, n: nat, e: Endianness): (r: seq<Value>)
    ensures |r| == n && forall i :: 0 <= i < n ==> r[i] == ValueFromBytes(e, Slice(bytes, 8, i))
  {
    seq(n, i requires 0 <= i < n => ValueFromBytes(e, Slice(bytes, 8, i)))
  }

  function ByteOrderOf(d: DataType): Result<Endianness> {
    if d == Scalar("<f8") then Ok(LittleEndian)
    else if d == Scalar(">f8") then Ok(BigEndian)
    else Err(Serialization)
  }

  /** What is read from the bytes after the header. */
  function DataAfter(header: Header, rest: seq<byte>): Result<Array> {
    if header.fortranOrder then Err(Serialization)
    else
      var e :- ByteOrderOf(header.typeDescriptor);
      var n := Product(header.shape);
      if |rest| < 8 * n then Err(Io)
      else if |rest| > 8 * n then Err(Serialization)
      else Ok(Filled(header.shape, ValuesIn(rest, n, e)))
  }

  /** What is read from a file, when the new array can be created. */
  function ReadArray(bytes: seq<byte>): (r: Result<Array>)
    ensures r.Ok? ==> ValidArray(r.value)
  {
    var read :- ReadHeader(bytes);
    DataAfter(read.header, read.rest)
  }

  method DecodeValues(bytes: seq<byte>, n: nat, e: Endianness) returns (values: seq<Value>)
    requires 8 * n <= |bytes|
    ensures values == ValuesIn(bytes, n, e)
  {
    values := [];
    for i := 0 to n
      invariant values == ValuesIn(bytes, n, e)[..i]
    {
      values := values + [ValueFromBytes(e, bytes[8 * i..8 * i + 8])];
    }
  }

  lemma ValuesOfStart(bytes: seq<byte>, n: nat, e: Endianness)
    requires 8 * n <= |bytes|
    ensures ValuesIn(bytes[..8 * n], n, e) == ValuesIn(bytes, n, e)
  {
    forall i | 0 <= i < n ensures Slice(bytes[..8 * n], 8, i) == Slice(bytes, 8, i) {
      SliceFits(i, n, 8);
    }
  }

  method ReadData(reader: Reader) returns (r: Result<Array>)
    requires reader.Valid()
    modifies reader`position
    ensures reader.Valid() && r == ReadArray(old(reader.Rest()))
  {
    hide ReadHeader, ValuesIn, Filled, Product;
    var header :- HeaderFromReader(reader);
    if header.fortranOrder {
      return Err(Serialization);
    }
    ghost var rest := reader.Rest();
    var e :- ByteOrderOf(header.typeDescriptor);
    var n := Product(header.shape);
    var bytes :- reader.ReadExact(8 * n);
    ValuesOfStart(rest, n, e);
    var data := DecodeValues(bytes, n, e);
    var extra := reader.ReadToEnd();
    if |extra| != 0 {
      return Err(Serialization);
    }
    assert rest[..8 * n] == rest;
    return Ok(Filled(header.shape, data));
  }

  lemma DataIsReadable(a: Array, e: Endianness)
    ensures QuoteFreeType(DataHeader(a, e).typeDescriptor) && AsciiType(DataHeader(a, e).typeDescriptor)
    ensures ByteOrderOf(DataHeader(a, e).typeDescriptor) == Ok(e)
  {
    assert "<f8"[0] != ">f8"[0];
  }

  lemma FloatsAreReadBack(data: seq<Value>, e: Endianness)
    ensures var bytes := Joined(ValuePieces(data, e));
      |bytes| == 8 * |data| && ValuesIn(bytes, |data|, e) == data
  {
    var pieces := ValuePieces(data, e);
    JoinedLength(pieces, 8);
    PowersOf256();
    forall i | 0 <= i < |data| ensures ValueFromBytes(e, Slice(Joined(pieces), 8, i)) == data[i] {
      SliceOfJoined(pieces, 8, i);
      BytesRoundTrip(e, data[i] as nat, 8);
    }
  }

  /** An array with at least one axis is read back from its file, bit by bit and
      in both byte orders. */
  lemma ArrayIsReadBack(a: Array, e: Endianness)
    requires ValidArray(a) && a.shape != [] && FitsUsize(a.shape) && DataFile(a, e).Ok?
    ensures ReadArray(DataFile(a, e).value) == Ok(a)
  {
    hide HeaderBytes, ReadHeader, Joined, ValuePieces, ValuesIn, Filled, DataOf, Product, QuoteFreeType, AsciiType, ByteOrderOf;
    DataIsReadable(a, e);
    HeaderIsReadBack(DataHeader(a, e), Joined(ValuePieces(DataOf(a), e)));
    FloatsAreReadBack(DataOf(a), e);
    FilledWithData(a);
  }

  /** The header and the size of a file that is accepted: row-major order, 64-bit
      floating point numbers in one of two byte orders, eight bytes per cell. */
  predicate IsArrayFile(header: Header, rest: seq<byte>) {
    && !header.fortranOrder
    && (header.typeDescriptor == Scalar("<f8") || header.typeDescriptor == Scalar(">f8"))
    && |rest| == 8 * Product(header.shape)
  }

  /** Which files are read as an array, and of which shape. */
  lemma ArrayIsReadExactly(bytes: seq<byte>)
    ensures ReadArray(bytes).Ok? <==> ReadHeader(bytes).Ok? && IsArrayFile(ReadHeader(bytes).value.header, ReadHeader(bytes).value.rest)
    ensures ReadArray(bytes).Ok? ==> ReadArray(bytes).value.shape == ReadHeader(bytes).value.header.shape
  {
    hide ReadHeader, ValuesIn, Product;
  }

  /** The bits of a cell in the file: eight bytes at its row-major position,
      lowest byte first for `<f8` and highest byte first for `>f8`. */
  function CellBits(header: Header, rest: seq<byte>, index: Index): nat
    requires IsArrayFile(header, rest) && InRange(header.shape, index)
  {
    LinearUnravel(header.shape, index);
    var at := 8 * Linear(header.shape, index);
    var b := rest[at..at + 8];
    if header.typeDescriptor == Scalar("<f8") then LowestFirst8(b) else LowestFirst8(Reversed(b))
  }

  /** Every cell holds the number in its own bytes. */
  lemma CellIsRead(bytes: seq<byte>, index: Index)
    requires ReadArray(bytes).Ok? && InRange(ReadArray(bytes).value.shape, index)
    ensures ReadHeader(bytes).Ok? && IsArrayFile(ReadHeader(bytes).value.header, ReadHeader(bytes).value.rest)
    ensures ReadArray(bytes).value.shape == ReadHeader(bytes).value.header.shape
    ensures Get(ReadArray(bytes).value, index) as nat == CellBits(ReadHeader(bytes).value.header, ReadHeader(bytes).value.rest, index)
  {
    ArrayIsReadExactly(bytes);
    var header, rest := ReadHeader(bytes).value.header, ReadHeader(bytes).value.rest;
    LinearUnravel(header.shape, index);
    hide ReadHeader, Linear, Product, FromBytes, ToBytes, LowestFirst8;
    var p := Linear(header.shape, index);
    assert Slice(rest, 8, p) == rest[8 * p..8 * p + 8];
    assert "<f8"[0] != ">f8"[0];
    PowersOf256();
    FromBytesIsBelow(LittleEndian, rest[8 * p..8 * p + 8]);
    FromBytesIsBelow(BigEndian, rest[8 * p..8 * p + 8]);
    EightBytes(rest[8 * p..8 * p + 8]);
  }

  /** Which error a file is refused with, if its header can be read: missing data
      is noticed by the reader, everything else by the checks. */
  lemma ArrayIsRefused(bytes: seq<byte>)
    requires ReadHeader(bytes).Ok? && ReadArray(bytes).Err?
    ensures var header, rest := ReadHeader(bytes).value.header, ReadHeader(bytes).value.rest;
      ReadArray(bytes).error == if IsArrayFile(header, rest + Zeros(8 * Product(header.shape) - |rest|)) then Io else Serialization
  {
    hide ReadHeader, ValuesIn, Product;
  }

  function Zeros(n: int): (r: seq<byte>)
    ensures |r| == if n < 0 then 0 else n
  {
    if n < 0 then [] else seq(n, _ => 0)
  }

  /** What is in the file of an array: `<f8` on machines that put the lowest byte
      first and `>f8` on others, in row-major order. */
  lemma WrittenArrayIs(a: Array, e: Endianness)
    requires ValidArray(a) && a.shape != [] && FitsUsize(a.shape) && DataFile(a, e).Ok?
    ensures var read := ReadHeader(DataFile(a, e).value);
      read.Ok? && read.value.header == Header(Scalar(if e.LittleEndian? then "<f8" else ">f8"), false, a.shape)
  {
    hide HeaderBytes, ReadHeader, Joined, ValuePieces, DataOf, QuoteFreeType, AsciiType;
    DataIsReadable(a, e);
    HeaderIsReadBack(DataHeader(a, e), Joined(ValuePieces(DataOf(a), e)));
  }
}
