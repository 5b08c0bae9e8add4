/** The header of a NPY file, as bytes: what is written, and what is read back.
    The format is described in the sections "Format Version 1.0" and "Format
    Version 2.0" of the documentation of numpy.lib.format. */
module NpyHeaders {
  import opened Wrappers
  import opened Bytes
  import opened NpyParser
  import opened HeaderParsers

  const MAGIC_STRING: seq<byte> := [0x93, 0x4E, 0x55, 0x4D, 0x50, 0x59]
  const HEADER_DIVISOR := 64
  const NEWLINE: byte := 0x0A
  const SPACE: byte := 0x20

  datatype Version = V1 | V2 | V3 {
    function Major(): byte {
      match this
      case V1 => 1
      case V2 => 2
      case V3 => 3
    }

    /** The number of bytes of the length field. */
    function LengthBytes(): nat {
      if V1? then 2 else 4
    }

    function PrefixLength(): nat {
      |MAGIC_STRING| + 2 + LengthBytes()
    }
  }

  function VersionFromBytes(major: byte, minor: byte): Result<Version> {
    if minor != 0 then Err(Serialization)
    else if major == 1 then Ok(V1)
    else if major == 2 then Ok(V2)
    else if major == 3 then Ok(V3)
    else Err(Serialization)
  }

  /** The length field, unless the length does not fit in it. */
  function FormatLength(v: Version, length: nat): (r: Option<seq<byte>>)
    ensures r.Some? ==> |r.value| == v.LengthBytes()
  {
    if length < Pow256(v.LengthBytes()) then Some(ToBytes(LittleEndian, length, v.LengthBytes())) else None
  }

  datatype HeaderLengths = HeaderLengths(total: nat, formatted: seq<byte>)

  /** The padded length of the header around a literal of the given length. */
  function ComputeLengths(v: Version, literalLength: nat): Option<HeaderLengths> {
    var unpadded := v.PrefixLength() + literalLength + 1;
    var padding := HEADER_DIVISOR - unpadded % HEADER_DIVISOR;
    var total := unpadded + padding;
    if total > USIZE_MAX then None
    else
      match FormatLength(v, total - v.PrefixLength())
      case None => None
      case Some(formatted) => Some(HeaderLengths(total, formatted))
  }

  function DigitChar(d: nat): (c: char)
    requires d < 10
    ensures IsDigit(c) && c as int == d + '0' as int
  {
    (d + '0' as int) as char
  }

  /** A number in decimal. */
  function Decimal(n: nat): string {
    if n < 10 then [DigitChar(n)] else Decimal(n / 10) + [DigitChar(n % 10)]
  }

  function FieldLiteral(f: Field): string {
    "('" + f.name + "', '" + f.format + "'), "
  }

  function FieldsLiteral(fields: seq<Field>): string {
    if fields == [] then "" else FieldsLiteral(fields[..|fields| - 1]) + FieldLiteral(fields[|fields| - 1])
  }

  function TypeLiteral(d: DataType): string {
    match d
    case Scalar(format) => "'" + format + "'"
    case Compound(fields) => "[" + FieldsLiteral(fields) + "]"
  }

  function SizeLiteral(n: nat): string {
    Decimal(n) + ", "
  }

  function ShapeLiteral(shape: seq<nat>): string {
    if shape == [] then "" else ShapeLiteral(shape[..|shape| - 1]) + SizeLiteral(shape[|shape| - 1])
  }

  /** The dictionary literal that is written for a header. */
  function DictLiteral(h: Header): string {
    "{ 'descr': " + TypeLiteral(h.typeDescriptor) + ", "
    + "'fortran_order': " + (if h.fortranOrder then "True" else "False") + ", "
    + "'shape': (" + ShapeLiteral(h.shape) + ") }"
  }

  /** The header as bytes in a version: magic string, version, length, literal,
      spaces, newline. */
  function VersionedHeader(v: Version, lengths: HeaderLengths, literal: seq<byte>): seq<byte> {
    var start := MAGIC_STRING + [v.Major()] + [0] + lengths.formatted + literal;
    var spaces := if lengths.total > |start| then lengths.total - 1 - |start| else 0;
    start + seq(spaces, _ => SPACE) + [NEWLINE]
  }

  /** Version 1.0 if its length field is large enough, and 2.0 otherwise. */
  function HeaderBytes(h: Header): Result<seq<byte>> {
    var literal := EncodeUtf8(DictLiteral(h));
    match ComputeLengths(V1, |literal|)
    case Some(lengths) => Ok(VersionedHeader(V1, lengths, literal))
    case None =>
      match ComputeLengths(V2, |literal|)
      case Some(lengths) => Ok(VersionedHeader(V2, lengths, literal))
      case None => Err(Serialization)
  }

  method TypeToString(d: DataType) returns (result: string)
    ensures result == TypeLiteral(d)
  {
    match d {
      case Scalar(format) =>
        result := "'" + format + "'";
      case Compound(fields) =>
        result := "[";
        for i := 0 to |fields|
          invariant result == "[" + FieldsLiteral(fields[..i])
        {
          var item := "('" + fields[i].name + "', '" + fields[i].format + "'), ";
          assert fields[..i + 1][..i] == fields[..i];
          assert item == FieldLiteral(fields[i]);
          assert result + item == "[" + (FieldsLiteral(fields[..i]) + item);
          result := result + item;
        }
        assert fields[..|fields|] == fields;
        result := result + "]";
    }
  }

  method ToDictLiteral(h: Header) returns (result: string)
    ensures result == DictLiteral(h)
  {
    var descriptor := TypeToString(h.typeDescriptor);
    result := "{ 'descr': " + descriptor + ", ";
    var order := if h.fortranOrder then "True" else "False";
    result := result + "'fortran_order': " + order + ", ";
    result := result + "'shape': (";
    ghost var start := result;
    for i := 0 to |h.shape|
      invariant result == start + ShapeLiteral(h.shape[..i])
    {
      var item := SizeLiteral(h.shape[i]);
      assert h.shape[..i + 1][..i] == h.shape[..i];
      assert result + item == start + (ShapeLiteral(h.shape[..i]) + item);
      result := result + item;
    }
    assert h.shape[..|h.shape|] == h.shape;
    result := result + ") }";
  }

  method HeaderToBytes(h: Header) returns (r: Result<seq<byte>>)
    ensures r == HeaderBytes(h)
  {
    var literal := ToDictLiteral(h);
    var arrayFormat := EncodeUtf8(literal);
    var version := V1;
    var lengths := ComputeLengths(V1, |arrayFormat|);
    if lengths.None? {
      version := V2;
      lengths := ComputeLengths(V2, |arrayFormat|);
    }
    if lengths.None? {
      return Err(Serialization);
    }
    LengthsAreRight(version, |arrayFormat|);
    var out := MAGIC_STRING;
    out := out + [version.Major()];
    out := out + [0];
    out := out + lengths.value.formatted;
    out := out + arrayFormat;
    out := out + seq(lengths.value.total - 1 - |out|, _ => SPACE);
    out := out + [NEWLINE];
    return Ok(out);
  }

  /** The total length is a multiple of 64 with room for a newline, and the
      field holds the length of what comes after it. */
  lemma LengthsAreRight(v: Version, literalLength: nat)
    requires ComputeLengths(v, literalLength).Some?
    ensures var lengths := ComputeLengths(v, literalLength).value;
      && lengths.total % HEADER_DIVISOR == 0
      && v.PrefixLength() + literalLength + 1 < lengths.total <= v.PrefixLength() + literalLength + 1 + HEADER_DIVISOR
      && |lengths.formatted| == v.LengthBytes()
      && FromBytes(LittleEndian, lengths.formatted) == lengths.total - v.PrefixLength()
  {
    var lengths := ComputeLengths(v, literalLength).value;
    Padded(v.PrefixLength() + literalLength + 1);
    hide Pow256, ToBytes, FromBytes;
    BytesRoundTrip(LittleEndian, lengths.total - v.PrefixLength(), v.LengthBytes());
  }

  lemma Padded(n: nat)
    ensures (n + (HEADER_DIVISOR - n % HEADER_DIVISOR)) % HEADER_DIVISOR == 0
  {
    var q, r := n / HEADER_DIVISOR, n % HEADER_DIVISOR;
    assert n == HEADER_DIVISOR * q + r;
    assert n + (HEADER_DIVISOR - r) == HEADER_DIVISOR * (q + 1);
  }

  /** A header, and the bytes after it. */
  datatype HeaderRead = HeaderRead(header: Header, rest: seq<byte>)

  /** The text of a dictionary literal: ASCII in the first two versions. */
  function DecodeText(v: Version, bytes: seq<byte>): Result<string> {
    if v.V3? then
      match DecodeUtf8(bytes)
      case Some(text) => Ok(text)
      case None => Err(Serialization)
    else if IsAscii(bytes) then Ok(AsciiString(bytes))
    else Err(Serialization)
  }

  /** What is read from the literal and the final newline. */
  function ReadLiteral(v: Version, bytes: seq<byte>): Result<Header> {
    if bytes == [] || bytes[|bytes| - 1] != NEWLINE then Err(Serialization)
    else
      var text :- DecodeText(v, bytes[..|bytes| - 1]);
      var parsed :- ParseHeader(text);
      Ok(parsed.value)
  }

  /** What is read from bytes that start with a header. */
  function ReadHeader(bytes: seq<byte>): Result<HeaderRead> {
    if |bytes| < |MAGIC_STRING| then Err(Io)
    else if bytes[..|MAGIC_STRING|] != MAGIC_STRING then Err(Serialization)
    else
      var afterMagic := bytes[|MAGIC_STRING|..];
      if |afterMagic| < 2 then Err(Io)
      else
        var version :- VersionFromBytes(afterMagic[0], afterMagic[1]);
        ReadSized(version, afterMagic[2..])
  }

  function ReadSized(v: Version, bytes: seq<byte>): Result<HeaderRead> {
    if |bytes| < v.LengthBytes() then Err(Io)
    else
      var length := FromBytes(LittleEndian, bytes[..v.LengthBytes()]);
      var body := bytes[v.LengthBytes()..];
      if |body| < length then Err(Io)
      else
        var header :- ReadLiteral(v, body[..length]);
        Ok(HeaderRead(header, body[length..]))
  }

  ghost predicate ReadsTo(wanted: Result<HeaderRead>, r: Result<Header>, rest: seq<byte>) {
    match wanted
    case Ok(read) => r == Ok(read.header) && rest == read.rest
    case Err(e) => r == Err(e)
  }

  method HeaderFromString(value: string) returns (r: Result<Header>)
    ensures r == match ParseHeader(value) case Ok(parsed) => Ok(parsed.value) case Err(e) => Err(e)
  {
    var parser := new HeaderParser(value);
    r := parser.Parse();
  }

  method HeaderFromReader(reader: Reader) returns (r: Result<Header>)
    requires reader.Valid()
    modifies reader`position
    ensures reader.Valid() && ReadsTo(ReadHeader(old(reader.Rest())), r, reader.Rest())
  {
    hide ParseHeader;
    var magic :- reader.ReadExact(|MAGIC_STRING|);
    if magic != MAGIC_STRING {
      return Err(Serialization);
    }
    var numbers :- reader.ReadExact(2);
    var version :- VersionFromBytes(numbers[0], numbers[1]);
    var field :- reader.ReadExact(version.LengthBytes());
    var length := FromBytes(LittleEndian, field);
    var buffer :- reader.ReadExact(length);
    if buffer == [] || buffer[|buffer| - 1] != NEWLINE {
      return Err(Serialization);
    }
    var text :- DecodeText(version, buffer[..|buffer| - 1]);
    r := HeaderFromString(text);
  }
}
