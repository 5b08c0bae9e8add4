/** What the bytes of a NPY header are, stated by their places and values: which
    bytes are accepted, and which header they stand for. */
module HeaderContents {
  import opened Wrappers
  import opened Bytes
  import opened NpyParser
  import opened NpySyntax
  import opened NpyLayouts
  import opened NpyHeaders
  import opened NpyRoundTrip
  import opened NpyBytes

  /** The number in the length field of the given size. */
  function LengthIn(field: seq<byte>): nat
    requires |field| == 2 || |field| == 4
  {
    if |field| == 2 then field[0] as nat + 0x100 * field[1] as nat else LowestFirst4(field)
  }

  /** Bytes as text: ASCII, or UTF-8 in version 3.0. */
  ghost predicate IsTextOf(bytes: seq<byte>, major: byte, text: string) {
    if major == 3 then bytes == EncodeUtf8(text)
    else |bytes| == |text| && forall i :: 0 <= i < |bytes| ==> bytes[i] < 0x80 && bytes[i] as int == text[i] as int
  }

  function FieldSize(major: byte): nat {
    if major == 1 then 2 else 4
  }

  /** A header around a text, in front of the rest: the magic string, a version,
      the length of what follows, the text, and a newline. */
  ghost predicate IsHeader(bytes: seq<byte>, text: string, rest: seq<byte>) {
    && |bytes| >= 8
    && bytes[0] == 0x93 && bytes[1] as int == 'N' as int && bytes[2] as int == 'U' as int && bytes[3] as int == 'M' as int
    && bytes[4] as int == 'P' as int && bytes[5] as int == 'Y' as int
    && 1 <= bytes[6] <= 3 && bytes[7] == 0
    && IsSized(bytes[8..], bytes[6], text, rest)
  }

  /** What comes behind the version. */
  ghost predicate IsSized(bytes: seq<byte>, major: byte, text: string, rest: seq<byte>) {
    var w := FieldSize(major);
    && |bytes| >= w
    && var n := LengthIn(bytes[..w]);
      && 0 < n && w + n <= |bytes|
      && bytes[w + n - 1] == 0x0A && IsTextOf(bytes[w..w + n - 1], major, text)
      && rest == bytes[w + n..]
  }

  lemma TextIsDecoded(v: Version, bytes: seq<byte>, text: string)
    ensures DecodeText(v, bytes) == Ok(text) <==> IsTextOf(bytes, v.Major(), text)
  {
    DecodedExactly(bytes, text);
    if !v.V3? && IsTextOf(bytes, v.Major(), text) {
      assert AsciiString(bytes) == text;
    }
  }

  lemma LengthIsRead(v: Version, field: seq<byte>)
    requires |field| == v.LengthBytes()
    ensures v.LengthBytes() == FieldSize(v.Major()) && FromBytes(LittleEndian, field) == LengthIn(field)
  {
    if v.V1? {
      assert field[1..][1..] == [];
      assert FromBytes(LittleEndian, field[1..]) == field[1] as nat;
    } else {
      FourBytes(field);
    }
  }

  ghost predicate Parses(text: string, h: Header) {
    ParseHeader(text).Ok? && ParseHeader(text).value.value == h
  }

  lemma PartsOfBody(bytes: seq<byte>, body: seq<byte>, w: nat, n: nat)
    requires w <= |bytes| && body == bytes[w..] && 0 < n <= |body|
    ensures body[..n][..n - 1] == bytes[w..w + n - 1] && body[..n][n - 1] == bytes[w + n - 1] && body[n..] == bytes[w + n..]
  {
    var text, wanted := body[..n][..n - 1], bytes[w..w + n - 1];
    assert forall i :: 0 <= i < n - 1 ==> text[i] == wanted[i];
  }

  lemma SizedIsReadExactly(v: Version, bytes: seq<byte>, h: Header, rest: seq<byte>)
    ensures ReadSized(v, bytes) == Ok(HeaderRead(h, rest)) <==> exists text :: IsSized(bytes, v.Major(), text, rest) && Parses(text, h)
  {
    hide ParseHeader, DecodeText, IsTextOf, LengthIn, FromBytes;
    var w := v.LengthBytes();
    if w <= |bytes| {
      LengthIsRead(v, bytes[..w]);
      var n := LengthIn(bytes[..w]);
      var body := bytes[w..];
      if 0 < n && w + n <= |bytes| {
        PartsOfBody(bytes, body, w, n);
        forall text ensures DecodeText(v, bytes[w..w + n - 1]) == Ok(text) <==> IsTextOf(bytes[w..w + n - 1], v.Major(), text) {
          TextIsDecoded(v, bytes[w..w + n - 1], text);
        }
        if ReadSized(v, bytes) == Ok(HeaderRead(h, rest)) {
          var text := DecodeText(v, bytes[w..w + n - 1]).value;
          assert IsSized(bytes, v.Major(), text, rest) && Parses(text, h);
        }
      }
    }
    forall text | IsSized(bytes, v.Major(), text, rest) && Parses(text, h) ensures ReadSized(v, bytes) == Ok(HeaderRead(h, rest)) {
      SizedTextIsRead(v, bytes, text, h, rest);
    }
  }

  lemma SizedTextIsRead(v: Version, bytes: seq<byte>, text: string, h: Header, rest: seq<byte>)
    requires IsSized(bytes, v.Major(), text, rest) && Parses(text, h)
    ensures ReadSized(v, bytes) == Ok(HeaderRead(h, rest))
  {
    hide ParseHeader, DecodeText, IsTextOf, LengthIn, FromBytes;
    var w := v.LengthBytes();
    assert w == FieldSize(v.Major());
    LengthIsRead(v, bytes[..w]);
    var n := LengthIn(bytes[..w]);
    var body := bytes[w..];
    PartsOfBody(bytes, body, w, n);
    TextIsDecoded(v, bytes[w..w + n - 1], text);
  }

  lemma VersionIsRead(major: byte, minor: byte, v: Version)
    ensures VersionFromBytes(major, minor) == Ok(v) <==> minor == 0 && major == v.Major()
  {}

  /** Bytes are read as a header, with the rest behind it, exactly if they are one
      around a text that is a layout of this header. */
  lemma HeaderIsReadExactly(bytes: seq<byte>, h: Header, rest: seq<byte>)
    ensures ReadHeader(bytes) == Ok(HeaderRead(h, rest)) <==> exists text :: IsHeader(bytes, text, rest) && Parses(text, h)
  {
    hide ReadSized, IsSized, Parses;
    if |bytes| >= 8 {
      assert bytes[6..][2..] == bytes[8..];
      MagicExactly(bytes);
      forall v ensures VersionFromBytes(bytes[6], bytes[7]) == Ok(v) <==> bytes[7] == 0 && bytes[6] == v.Major() {
        VersionIsRead(bytes[6], bytes[7], v);
      }
      if VersionFromBytes(bytes[6], bytes[7]).Ok? {
        var v := VersionFromBytes(bytes[6], bytes[7]).value;
        SizedIsReadExactly(v, bytes[8..], h, rest);
        if ReadSized(v, bytes[8..]) == Ok(HeaderRead(h, rest)) && bytes[..6] == MAGIC_STRING {
          var text :| IsSized(bytes[8..], v.Major(), text, rest) && Parses(text, h);
          assert IsHeader(bytes, text, rest);
        }
      }
    }
  }

  lemma MagicExactly(bytes: seq<byte>)
    requires |bytes| >= 6
    ensures bytes[..6] == MAGIC_STRING <==>
      && bytes[0] == 0x93 && bytes[1] as int == 'N' as int && bytes[2] as int == 'U' as int && bytes[3] as int == 'M' as int
      && bytes[4] as int == 'P' as int && bytes[5] as int == 'Y' as int
  {}

  /** What is written around a literal of `n` bytes: the start of a header, the
      literal, spaces up to a multiple of 64, and a newline. */
  ghost predicate IsWritten(bytes: seq<byte>, literal: seq<byte>) {
    var n := |literal|;
    var major: byte := if n < 0xFFF5 then 1 else 2;
    var start := 8 + FieldSize(major);
    && |bytes| % 64 == 0 && start + n + 1 < |bytes| <= start + n + 1 + 64
    && bytes[..6] == [0x93, 0x4E, 0x55, 0x4D, 0x50, 0x59] && bytes[6] == major && bytes[7] == 0
    && LengthIn(bytes[8..start]) == |bytes| - start
    && bytes[start..start + n] == literal
    && (forall i :: start + n <= i < |bytes| - 1 ==> bytes[i] == 0x20)
    && bytes[|bytes| - 1] == 0x0A
  }

  lemma WrittenHeaderIs(h: Header)
    requires HeaderBytes(h).Ok?
    ensures IsWritten(HeaderBytes(h).value, EncodeUtf8(DictLiteral(h)))
  {
    var literal := EncodeUtf8(DictLiteral(h));
    hide EncodeUtf8, DictLiteral, ComputeLengths;
    FitsExactly(|literal|);
    var v := if ComputeLengths(V1, |literal|).Some? then V1 else V2;
    VersionedIsWritten(v, literal);
  }

  lemma VersionedIsWritten(v: Version, literal: seq<byte>)
    requires ComputeLengths(v, |literal|).Some? && v == if |literal| < 0xFFF5 then V1 else V2
    ensures IsWritten(VersionedHeader(v, ComputeLengths(v, |literal|).value, literal), literal)
  {
    HeaderParts(v, literal);
    LengthsAreRight(v, |literal|);
    var lengths := ComputeLengths(v, |literal|).value;
    LengthIsRead(v, lengths.formatted);
    hide ComputeLengths, VersionedHeader, LengthIn, FromBytes, ToBytes;
    var prefix, spaces := Prefix(v, lengths.formatted), Spaces(Padding(v, literal));
    PartsOfWritten(v, lengths.formatted, literal, spaces);
  }

  lemma PartsOfWritten(v: Version, formatted: seq<byte>, literal: seq<byte>, spaces: seq<byte>)
    requires |formatted| == FieldSize(v.Major()) && v == if |literal| < 0xFFF5 then V1 else V2
    requires forall i :: 0 <= i < |spaces| ==> spaces[i] == 0x20
    requires var bytes := Prefix(v, formatted) + (literal + spaces + [NEWLINE]);
      && |bytes| % 64 == 0 && |Prefix(v, formatted)| + |literal| + 1 < |bytes| <= |Prefix(v, formatted)| + |literal| + 1 + 64
      && LengthIn(formatted) == |bytes| - |Prefix(v, formatted)|
    ensures IsWritten(Prefix(v, formatted) + (literal + spaces + [NEWLINE]), literal)
  {
    hide LengthIn;
    var prefix := Prefix(v, formatted);
    var bytes := prefix + (literal + spaces + [NEWLINE]);
    var start := |prefix|;
    assert prefix[..6] == MAGIC_STRING && prefix[8..] == formatted;
    assert bytes[..6] == prefix[..6] && bytes[8..start] == prefix[8..];
    assert bytes[start..start + |literal|] == literal;
    forall i | start + |literal| <= i < |bytes| - 1 ensures bytes[i] == 0x20 {
      assert bytes[i] == spaces[i - start - |literal|];
    }
  }

  /** Which layouts a text can have does not depend on the parser; blanks in them
      are spaces, tabs and form feeds, quotes are single or double, and sizes are
      numbers of 64 bits. */
  lemma TextParsesExactly(text: string, h: Header)
    ensures Parses(text, h) <==> exists t: HeaderText, behind :: ValidText(t) && Meaning(t) == h && text == RenderHeader(t, behind)
    ensures forall w: string :: Blank(w) <==> forall i :: 0 <= i < |w| ==> w[i] as int == 0x20 || w[i] as int == 0x09 || w[i] as int == 0x0C
    ensures forall d: DimensionText :: ValidDimension(d) <==>
      && d.digits != "" && (forall i :: 0 <= i < |d.digits| ==> '0' <= d.digits[i] <= '9')
      && DigitsValue(d.digits) <= 0xFFFF_FFFF_FFFF_FFFF && Blank(d.after)
    ensures forall q: Quoted :: ValidQuoted(q) <==> (q.quote as int == 0x22 || q.quote as int == 0x27) && q.quote !in q.text
  {
    hide ParseHeader, RenderHeader, ValidText, Meaning;
    if Parses(text, h) {
      ReadExactlyIfLayout(text, h, ParseHeader(text).value.rest);
    }
    forall t: HeaderText, behind | ValidText(t) && Meaning(t) == h && text == RenderHeader(t, behind) ensures Parses(text, h) {
      ReadExactlyIfLayout(text, h, behind);
    }
  }

  /** Of entries with the same key, the last one counts; a key without an entry
      is missing. */
  lemma {:induction false} LastEntryCounts(entries: seq<Entry>, k: nat)
    requires k < |entries|
    ensures entries[k].Descr? && (forall i :: k < i < |entries| ==> !entries[i].Descr?) ==> Collect(entries).descr == Some(entries[k].dataType)
    ensures entries[k].FortranOrder? && (forall i :: k < i < |entries| ==> !entries[i].FortranOrder?) ==>
      Collect(entries).order == Some(entries[k].order)
    ensures entries[k].Shape? && (forall i :: k < i < |entries| ==> !entries[i].Shape?) ==> Collect(entries).shape == Some(entries[k].shape)
  {
    var n := |entries| - 1;
    if k < n {
      LastEntryCounts(entries[..n], k);
    }
  }

  lemma {:induction false} MissingEntries(entries: seq<Entry>)
    ensures Collect(entries).descr.None? <==> forall i :: 0 <= i < |entries| ==> !entries[i].Descr?
    ensures Collect(entries).order.None? <==> forall i :: 0 <= i < |entries| ==> !entries[i].FortranOrder?
    ensures Collect(entries).shape.None? <==> forall i :: 0 <= i < |entries| ==> !entries[i].Shape?
  {
    if entries != [] {
      MissingEntries(entries[..|entries| - 1]);
    }
  }

  function Pow10(k: nat): nat {
    if k == 0 then 1 else 10 * Pow10(k - 1)
  }

  lemma LastDigit(digits: string, last: char)
    ensures DigitsValue(digits + [last]) == 10 * DigitsValue(digits) + (last as int - '0' as int)
  {
    assert (digits + [last])[..|digits|] == digits;
  }

  lemma TimesTen(a: int, p: nat, d: int, q: nat)
    ensures 10 * (a * p + d * q) == a * (10 * p) + d * (10 * q)
  {}

  /** The digit at a place counts as often as the power of ten of the place. */
  lemma {:induction false} DigitCounts(before: string, digit: char, after: string)
    ensures DigitsValue(before + [digit] + after)
         == DigitsValue(before) * Pow10(|after| + 1) + (digit as int - '0' as int) * Pow10(|after|) + DigitsValue(after)
  {
    hide DigitsValue;
    if after == "" {
      assert before + [digit] + after == before + [digit];
      LastDigit(before, digit);
      assert Pow10(1) == 10 && Pow10(0) == 1;
      NoDigits();
    } else {
      var n := |after| - 1;
      var rest, last := after[..n], after[n];
      assert after == rest + [last] && before + [digit] + after == before + [digit] + rest + [last];
      DigitCounts(before, digit, rest);
      LastDigit(rest, last);
      LastDigit(before + [digit] + rest, last);
      TimesTen(DigitsValue(before), Pow10(n + 1), digit as int - '0' as int, Pow10(n));
    }
  }

  lemma NoDigits()
    ensures DigitsValue("") == 0
  {}

  /** A number is written without zeros in front of it, as digits for its value. */
  lemma {:induction false} DecimalIsShortest(n: nat)
    ensures Decimal(n) != [] && AllDigits(Decimal(n)) && DigitsValue(Decimal(n)) == n
    ensures Decimal(n)[0] == '0' ==> n == 0 && |Decimal(n)| == 1
  {
    DecimalIsRight(n);
    if n >= 10 {
      DecimalIsShortest(n / 10);
    }
  }

  /** How a small header is written. */
  lemma ExampleLiteral()
    ensures DictLiteral(Header(Scalar("<f8"), false, [12, 3]))
         == "{ 'descr': " + "'<f8'" + ", " + "'fortran_order': " + "False" + ", " + "'shape': (" + "12, 3, " + ") }"
  {
    assert Decimal(12) == "12" && Decimal(3) == "3";
    assert [12, 3][..1] == [12] && [12][..0] == [];
    hide Decimal;
    assert ShapeLiteral([12]) == "12, ";
    assert ShapeLiteral([12, 3]) == "12, 3, ";
    hide ShapeLiteral;
    assert TypeLiteral(Scalar("<f8")) == "'<f8'";
  }
}
