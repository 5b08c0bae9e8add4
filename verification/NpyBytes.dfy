/** The bytes of a header are read back as the header. */
module NpyBytes {
  import opened Wrappers
  import opened Bytes
  import opened NpyParser
  import opened NpyHeaders
  import opened NpyRoundTrip

  function Spaces(n: nat): (r: seq<byte>)
    ensures |r| == n
  {
    seq(n, _ => SPACE)
  }

  /** The bytes after the length field: literal, spaces, newline. */
  function Body(literal: seq<byte>, spaces: nat): seq<byte> {
    literal + Spaces(spaces) + [NEWLINE]
  }

  function Padding(v: Version, literal: seq<byte>): nat
    requires ComputeLengths(v, |literal|).Some?
  {
    LengthsAreRight(v, |literal|);
    ComputeLengths(v, |literal|).value.total - v.PrefixLength() - |literal| - 1
  }

  /** The start of a header: magic string, version, length. */
  function Prefix(v: Version, formatted: seq<byte>): seq<byte> {
    MAGIC_STRING + [v.Major()] + [0] + formatted
  }

  lemma HeaderParts(v: Version, literal: seq<byte>)
    requires ComputeLengths(v, |literal|).Some?
    ensures var lengths := ComputeLengths(v, |literal|).value;
      && |VersionedHeader(v, lengths, literal)| == lengths.total
      && VersionedHeader(v, lengths, literal) == Prefix(v, lengths.formatted) + Body(literal, Padding(v, literal))
      && |Body(literal, Padding(v, literal))| == lengths.total - v.PrefixLength()
  {
    LengthsAreRight(v, |literal|);
    var lengths := ComputeLengths(v, |literal|).value;
    var start := Prefix(v, lengths.formatted) + literal;
    var spaces := Spaces(Padding(v, literal));
    assert lengths.total - 1 - |start| == Padding(v, literal);
    assert start + spaces + [NEWLINE] == Prefix(v, lengths.formatted) + (literal + spaces + [NEWLINE]);
  }

  /** The length of a header with padding. */
  function PaddedLength(v: Version, literalLength: nat): nat {
    var unpadded := v.PrefixLength() + literalLength + 1;
    unpadded + (HEADER_DIVISOR - unpadded % HEADER_DIVISOR)
  }

  /** Which literals are too long for the length field of a version. */
  lemma FitsExactly(literalLength: nat)
    ensures ComputeLengths(V1, literalLength).Some? <==> literalLength < 0xFFF5
    ensures ComputeLengths(V2, literalLength).Some? <==> literalLength < 0xFFFF_FFF3
  {
    PowersOf256();
    RoundedUp(V1.PrefixLength() + literalLength + 1);
    RoundedUp(V2.PrefixLength() + literalLength + 1);
    assert PaddedLength(V1, literalLength) < 0x1_0000 + 10 <==> literalLength < 0xFFF5;
    assert PaddedLength(V2, literalLength) < 0x1_0000_0000 + 12 <==> literalLength < 0xFFFF_FFF3;
  }

  lemma RoundedUp(n: nat)
    ensures n + (HEADER_DIVISOR - n % HEADER_DIVISOR) == (n / 64 + 1) * 64
  {
    assert n == n / 64 * 64 + n % 64;
  }

  /** What is written is well formed: its length is a multiple of 64, it ends in
      a newline, and it is in version 2.0 exactly if the literal is too long for
      the two length bytes of version 1.0. */
  lemma HeaderIsAligned(h: Header)
    requires HeaderBytes(h).Ok?
    ensures var bytes := HeaderBytes(h).value;
      && |bytes| % 64 == 0 && |bytes| > 10 && bytes[|bytes| - 1] == 0x0A
      && (bytes[6] == 1 || bytes[6] == 2)
      && (bytes[6] == 2 <==> |EncodeUtf8(DictLiteral(h))| >= 0xFFF5)
  {
    hide EncodeUtf8, DictLiteral, ComputeLengths;
    var literal := EncodeUtf8(DictLiteral(h));
    var v := if ComputeLengths(V1, |literal|).Some? then V1 else V2;
    HeaderParts(v, literal);
    LengthsAreRight(v, |literal|);
    assert HeaderBytes(h).value[6] == v.Major();
    FitsExactly(|literal|);
  }

  /** A header is too long to be written exactly if its literal does not fit in
      the four length bytes of version 2.0, with its padding. */
  lemma TooLongExactly(h: Header)
    ensures HeaderBytes(h).Err? <==> |EncodeUtf8(DictLiteral(h))| >= 0xFFFF_FFF3
    ensures HeaderBytes(h).Err? ==> HeaderBytes(h).error == Serialization
  {
    hide EncodeUtf8, DictLiteral, ComputeLengths;
    FitsExactly(|EncodeUtf8(DictLiteral(h))|);
  }

  lemma PrefixIsRead(v: Version, formatted: seq<byte>, rest: seq<byte>)
    requires v.V1? || v.V2?
    ensures ReadHeader(Prefix(v, formatted) + rest) == ReadSized(v, formatted + rest)
  {
    hide ReadSized;
    var bytes := Prefix(v, formatted) + rest;
    var afterMagic := [v.Major()] + [0] + formatted + rest;
    assert bytes == MAGIC_STRING + afterMagic;
    assert bytes[|MAGIC_STRING|..] == afterMagic;
    assert afterMagic[2..] == formatted + rest;
  }

  lemma SizedIsRead(v: Version, formatted: seq<byte>, body: seq<byte>, rest: seq<byte>)
    requires |formatted| == v.LengthBytes() && FromBytes(LittleEndian, formatted) == |body|
    ensures ReadSized(v, formatted + (body + rest))
         == match ReadLiteral(v, body) case Ok(h) => Ok(HeaderRead(h, rest)) case Err(e) => Err(e)
  {
    hide ReadLiteral;
    var bytes := formatted + (body + rest);
    assert bytes[..v.LengthBytes()] == formatted && bytes[v.LengthBytes()..] == body + rest;
    assert (body + rest)[..|body|] == body && (body + rest)[|body|..] == rest;
  }

  lemma VersionedIsRead(v: Version, literal: seq<byte>, rest: seq<byte>)
    requires ComputeLengths(v, |literal|).Some? && (v.V1? || v.V2?)
    ensures ReadHeader(VersionedHeader(v, ComputeLengths(v, |literal|).value, literal) + rest)
         == match ReadLiteral(v, Body(literal, Padding(v, literal))) case Ok(h) => Ok(HeaderRead(h, rest)) case Err(e) => Err(e)
  {
    hide ReadLiteral, ReadSized, ReadHeader, ComputeLengths, VersionedHeader, Body, Prefix;
    var lengths := ComputeLengths(v, |literal|).value;
    var body := Body(literal, Padding(v, literal));
    HeaderParts(v, literal);
    LengthsAreRight(v, |literal|);
    assert Prefix(v, lengths.formatted) + body + rest == Prefix(v, lengths.formatted) + (body + rest);
    PrefixIsRead(v, lengths.formatted, body + rest);
    SizedIsRead(v, lengths.formatted, body, rest);
  }

  lemma LiteralOfBody(literal: seq<byte>, spaces: nat)
    ensures var body := Body(literal, spaces);
      && body != [] && body[|body| - 1] == NEWLINE && body[..|body| - 1] == literal + Spaces(spaces)
      && (IsAscii(literal + Spaces(spaces)) <==> IsAscii(literal))
  {
    var all := literal + Spaces(spaces);
    assert Body(literal, spaces)[..|all|] == all;
    assert forall i :: 0 <= i < |literal| ==> literal[i] == all[i];
  }

  /** What the literal of an encoded text and spaces is read as. */
  lemma TextIsRead(v: Version, text: string, spaces: nat)
    requires v.V1? || v.V2?
    ensures ReadLiteral(v, Body(EncodeUtf8(text), spaces))
         == if !IsAsciiText(text) then Err(Serialization)
            else match ParseHeader(text + SpaceText(spaces)) case Ok(parsed) => Ok(parsed.value) case Err(e) => Err(e)
  {
    hide ParseHeader, EncodeUtf8;
    AsciiIsKept(text);
    var literal := EncodeUtf8(text);
    LiteralOfBody(literal, spaces);
    if IsAsciiText(text) {
      assert AsciiString(literal + Spaces(spaces)) == text + SpaceText(spaces);
    }
  }

  function SpaceText(n: nat): (r: string)
    ensures |r| == n
  {
    seq(n, _ => ' ')
  }

  lemma {:induction false} FieldsAreAscii(fields: seq<Field>)
    ensures IsAsciiText(FieldsLiteral(fields)) <==> AsciiType(Compound(fields))
  {
    if fields != [] {
      var n := |fields| - 1;
      FieldsAreAscii(fields[..n]);
      AsciiAppend(FieldsLiteral(fields[..n]), FieldLiteral(fields[n]));
      FieldIsAscii(fields[n]);
      assert fields == fields[..n] + [fields[n]];
      assert forall i :: 0 <= i < n ==> fields[..n][i] == fields[i];
    }
  }

  lemma AsciiAppend(s: string, t: string)
    ensures IsAsciiText(s + t) <==> IsAsciiText(s) && IsAsciiText(t)
  {
    if IsAsciiText(s + t) {
      assert forall i :: 0 <= i < |s| ==> s[i] == (s + t)[i];
      assert forall i :: 0 <= i < |t| ==> t[i] == (s + t)[|s| + i];
    }
  }

  lemma FieldIsAscii(f: Field)
    ensures IsAsciiText(FieldLiteral(f)) <==> IsAsciiText(f.name) && IsAsciiText(f.format)
  {
    AsciiAppend("('", f.name);
    AsciiAppend("('" + f.name, "', '");
    AsciiAppend("('" + f.name + "', '", f.format);
    AsciiAppend("('" + f.name + "', '" + f.format, "'), ");
  }

  lemma {:induction false} ShapeIsAscii(shape: seq<nat>)
    ensures IsAsciiText(ShapeLiteral(shape))
  {
    if shape != [] {
      var n := |shape| - 1;
      ShapeIsAscii(shape[..n]);
      DecimalIsRight(shape[n]);
      assert IsAsciiText(SizeLiteral(shape[n]));
      AsciiAppend(ShapeLiteral(shape[..n]), SizeLiteral(shape[n]));
    }
  }

  lemma TypeIsAscii(d: DataType)
    ensures IsAsciiText(TypeLiteral(d)) <==> AsciiType(d)
  {
    match d
    case Scalar(format) =>
      AsciiAppend("'", format);
      AsciiAppend("'" + format, "'");
    case Compound(fields) =>
      FieldsAreAscii(fields);
      AsciiAppend("[", FieldsLiteral(fields));
      AsciiAppend("[" + FieldsLiteral(fields), "]");
  }

  lemma LiteralIsAscii(h: Header)
    ensures IsAsciiText(DictLiteral(h)) <==> AsciiType(h.typeDescriptor)
  {
    hide TypeLiteral, ShapeLiteral, AsciiType;
    TypeIsAscii(h.typeDescriptor);
    ShapeIsAscii(h.shape);
    var t, order, shape := TypeLiteral(h.typeDescriptor), if h.fortranOrder then "True" else "False", ShapeLiteral(h.shape);
    var s1 := "{ 'descr': " + t;
    AsciiAppend("{ 'descr': ", t);
    AsciiAppend(s1, ", ");
    AsciiAppend(s1 + ", ", "'fortran_order': ");
    AsciiAppend(s1 + ", " + "'fortran_order': ", order);
    var s2 := s1 + ", " + "'fortran_order': " + order;
    AsciiAppend(s2, ", ");
    AsciiAppend(s2 + ", ", "'shape': (");
    AsciiAppend(s2 + ", " + "'shape': (", shape);
    AsciiAppend(s2 + ", " + "'shape': (" + shape, ") }");
  }

  /** Headers that are read back: their strings are ASCII, and they have a
      dimension and, if they are compound, a field. */
  predicate Readable(h: Header) {
    AsciiType(h.typeDescriptor) && h.shape != [] && HasFields(h.typeDescriptor)
  }

  /** Without quotes in its strings, a header is read back from what is written
      exactly if it is one of these; others are refused. */
  lemma HeaderIsReadBack(h: Header, rest: seq<byte>)
    requires QuoteFreeType(h.typeDescriptor) && FitsUsize(h.shape) && HeaderBytes(h).Ok?
    ensures ReadHeader(HeaderBytes(h).value + rest) == if Readable(h) then Ok(HeaderRead(h, rest)) else Err(Serialization)
  {
    hide EncodeUtf8, DictLiteral, ParseHeader, ReadHeader, ReadLiteral, ReadSized, VersionedHeader, Body, AsciiType;
    var literal := EncodeUtf8(DictLiteral(h));
    var v := if ComputeLengths(V1, |literal|).Some? then V1 else V2;
    var spaces := Padding(v, literal);
    VersionedIsRead(v, literal, rest);
    TextIsRead(v, DictLiteral(h), spaces);
    LiteralIsAscii(h);
    if h.shape != [] && HasFields(h.typeDescriptor) {
      LiteralIsReadBack(h, SpaceText(spaces));
    } else {
      EmptyListsFail(h, SpaceText(spaces));
    }
  }
}
