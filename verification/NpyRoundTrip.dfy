/** What is written for a header is read back as that header. */
module NpyRoundTrip {
  import opened Wrappers
  import opened Bytes
  import opened NpyParser
  import opened NpySyntax
  import opened NpyHeaders

  predicate QuoteFree(s: string) {
    '\'' !in s
  }

  predicate QuoteFreeType(d: DataType) {
    match d
    case Scalar(format) => QuoteFree(format)
    case Compound(fields) => forall i :: 0 <= i < |fields| ==> QuoteFree(fields[i].name) && QuoteFree(fields[i].format)
  }

  predicate AsciiType(d: DataType) {
    match d
    case Scalar(format) => IsAsciiText(format)
    case Compound(fields) => forall i :: 0 <= i < |fields| ==> IsAsciiText(fields[i].name) && IsAsciiText(fields[i].format)
  }

  /** Sizes are 64-bit unsigned integers. */
  predicate FitsUsize(shape: seq<nat>) {
    forall i :: 0 <= i < |shape| ==> shape[i] <= USIZE_MAX
  }

  predicate HasFields(d: DataType) {
    d.Compound? ==> d.fields != []
  }

  function PairOf(f: Field): PairText {
    PairText("", Quoted('\'', f.name), "", " ", Quoted('\'', f.format), "", "")
  }

  /** The pairs that are written, the first one without a space. */
  function PairsOf(fields: seq<Field>): (r: seq<Spaced<PairText>>)
    ensures |r| == |fields|
    ensures forall i :: 0 <= i < |r| ==> r[i] == Spaced(if i == 0 then "" else " ", PairOf(fields[i]))
  {
    seq(|fields|, i requires 0 <= i < |fields| => Spaced(if i == 0 then "" else " ", PairOf(fields[i])))
  }

  function DimensionsOf(shape: seq<nat>): (r: seq<Spaced<DimensionText>>)
    ensures |r| == |shape|
    ensures forall i :: 0 <= i < |r| ==> r[i] == Spaced(if i == 0 then "" else " ", DimensionText(Decimal(shape[i]), ""))
  {
    seq(|shape|, i requires 0 <= i < |shape| => Spaced(if i == 0 then "" else " ", DimensionText(Decimal(shape[i]), "")))
  }

  function TypeOf(d: DataType): ValueText {
    match d
    case Scalar(format) => ScalarText(Quoted('\'', format))
    case Compound(fields) => CompoundText(PairsOf(fields), Some(" "))
  }

  function EntryOf(v: ValueText, after: string): EntryText {
    EntryText('\'', "", " ", v, after)
  }

  function EntriesOf(h: Header): seq<Spaced<EntryText>> {
    [Spaced(" ", EntryOf(TypeOf(h.typeDescriptor), "")),
     Spaced(" ", EntryOf(OrderText(h.fortranOrder), "")),
     Spaced(" ", EntryOf(ShapeText(DimensionsOf(h.shape), Some(" ")), " "))]
  }

  /** The layout in which headers are written. */
  function LayoutOf(h: Header): HeaderText {
    HeaderText("", EntriesOf(h), None)
  }

  lemma {:induction false} DecimalIsRight(n: nat)
    ensures Decimal(n) != [] && AllDigits(Decimal(n)) && DigitsValue(Decimal(n)) == n
  {
    if n < 10 {
      assert Decimal(n)[..0] == "";
    } else {
      DecimalIsRight(n / 10);
      assert Decimal(n)[..|Decimal(n)| - 1] == Decimal(n / 10);
    }
  }

  lemma CollectThree(a: Entry, b: Entry, c: Entry)
    ensures Collect([a, b, c]) == NOTHING.With(a).With(b).With(c)
  {
    assert [a, b, c][..2] == [a, b] && [a, b][..1] == [a] && [a][..0] == [];
    assert Collect([a]) == NOTHING.With(a);
    assert Collect([a, b]) == NOTHING.With(a).With(b);
  }

  lemma TypeIsValid(d: DataType)
    requires QuoteFreeType(d) && HasFields(d)
    ensures ValidValue(TypeOf(d)) && EntryMeaning(EntryOf(TypeOf(d), "")) == Descr(d)
  {
    if d.Compound? {
      assert PairMeanings(PairsOf(d.fields)) == d.fields;
    }
  }

  lemma ShapeIsValid(shape: seq<nat>)
    requires FitsUsize(shape) && shape != []
    ensures var v := ShapeText(DimensionsOf(shape), Some(" "));
      ValidValue(v) && EntryMeaning(EntryOf(v, " ")) == Shape(shape)
  {
    forall i | 0 <= i < |shape|
      ensures ValidDimension(DimensionsOf(shape)[i].item) && DimensionMeaning(DimensionsOf(shape)[i].item) == shape[i]
    {
      DecimalIsRight(shape[i]);
    }
    assert DimensionMeanings(DimensionsOf(shape)) == shape;
  }

  lemma LayoutIsValid(h: Header)
    requires QuoteFreeType(h.typeDescriptor) && FitsUsize(h.shape)
    requires h.shape != [] && HasFields(h.typeDescriptor)
    ensures ValidText(LayoutOf(h)) && Meaning(LayoutOf(h)) == h
  {
    var entries := EntriesOf(h);
    TypeIsValid(h.typeDescriptor);
    ShapeIsValid(h.shape);
    hide TypeOf, DimensionsOf, ValidValue, Collect;
    assert EntryMeanings(entries) == [Descr(h.typeDescriptor), FortranOrder(h.fortranOrder), Shape(h.shape)];
    OrderIsValid(h.fortranOrder);
    CollectThree(Descr(h.typeDescriptor), FortranOrder(h.fortranOrder), Shape(h.shape));
  }

  lemma OrderIsValid(order: bool)
    ensures ValidValue(OrderText(order))
  {}

  lemma EntryIsWritten(v: ValueText, after: string, tail: string)
    ensures RenderEntry(EntryOf(v, after), tail) == "'" + KeyOf(v) + "': " + RenderValue(v, after + tail)
  {
    hide RenderValue, KeyOf;
    var value := RenderValue(v, after + tail);
    assert "" + (":" + (" " + value)) == ": " + value;
    assert ["'"[0]] == "'";
  }

  lemma PairIsWritten(f: Field, tail: string)
    ensures RenderPair(PairOf(f), tail) == "('" + f.name + "', '" + f.format + "')" + tail
  {
    var format := RenderQuoted(Quoted('\'', f.format), "" + (")" + ("" + tail)));
    assert format == "'" + f.format + "')" + tail;
    var name := RenderQuoted(Quoted('\'', f.name), "" + ("," + (" " + format)));
    assert name == "'" + f.name + "', " + format;
  }

  lemma Assoc(a: string, b: string, c: string)
    ensures a + b + c == a + (b + c)
  {}

  lemma {:induction false} FieldsFromFront(fields: seq<Field>)
    requires fields != []
    ensures FieldsLiteral(fields) == FieldLiteral(fields[0]) + FieldsLiteral(fields[1..])
  {
    hide FieldLiteral;
    var n := |fields| - 1;
    if n == 0 {
      assert FieldsLiteral(fields[..0]) == "";
    } else {
      FieldsFromFront(fields[..n]);
      assert fields[..n][1..] == fields[1..][..n - 1];
      assert fields[1..][n - 1] == fields[n];
      Assoc(FieldLiteral(fields[0]), FieldsLiteral(fields[1..][..n - 1]), FieldLiteral(fields[n]));
    }
  }

  lemma {:induction false} ShapeFromFront(shape: seq<nat>)
    requires shape != []
    ensures ShapeLiteral(shape) == SizeLiteral(shape[0]) + ShapeLiteral(shape[1..])
  {
    hide SizeLiteral;
    var n := |shape| - 1;
    if n == 0 {
      assert ShapeLiteral(shape[..0]) == "";
    } else {
      ShapeFromFront(shape[..n]);
      assert shape[..n][1..] == shape[1..][..n - 1];
      assert shape[1..][n - 1] == shape[n];
      Assoc(SizeLiteral(shape[0]), ShapeLiteral(shape[1..][..n - 1]), SizeLiteral(shape[n]));
    }
  }

  lemma FieldIsWritten(f: Field, tail: string)
    ensures RenderPair(PairOf(f), "," + (" " + tail)) == FieldLiteral(f) + tail
  {
    PairIsWritten(f, "," + (" " + tail));
    hide RenderPair;
    var start := "('" + f.name + "', '" + f.format + "')";
    assert "'), " == "')" + ", ";
    Assoc("('" + f.name + "', '" + f.format, "')", ", ");
    assert FieldLiteral(f) == start + ", ";
    assert "," + (" " + tail) == ", " + tail;
    Assoc(start, ", ", tail);
  }

  lemma SizeIsWritten(n: nat, tail: string)
    ensures RenderDimension(DimensionText(Decimal(n), ""), "," + (" " + tail)) == SizeLiteral(n) + tail
  {
    hide Decimal;
    assert "" + ("," + (" " + tail)) == ", " + tail;
    Assoc(Decimal(n), ", ", tail);
  }

  lemma {:induction false} FieldsAreWritten(fields: seq<Field>, k: nat, rest: string)
    requires k < |fields|
    ensures RenderItems(PairsOf(fields)[k..], Some(" "), ']', RenderPair, rest) == FieldsLiteral(fields[k..]) + ("]" + rest)
    decreases |fields| - k
  {
    hide FieldsLiteral, RenderPair, FieldLiteral;
    var items, end := PairsOf(fields)[k..], "]" + rest;
    FieldsFromFront(fields[k..]);
    if k + 1 == |fields| {
      FieldIsWritten(fields[k], end);
      NoFields();
      assert fields[k..][1..] == [];
      assert FieldLiteral(fields[k]) + "" == FieldLiteral(fields[k]);
    } else {
      FieldsAreWritten(fields, k + 1, rest);
      assert items[1..] == PairsOf(fields)[k + 1..] && fields[k..][1..] == fields[k + 1..];
      FieldIsWritten(fields[k], FieldsLiteral(fields[k + 1..]) + end);
      Assoc(FieldLiteral(fields[k]), FieldsLiteral(fields[k + 1..]), end);
    }
  }

  lemma NoFields()
    ensures FieldsLiteral([]) == "" && ShapeLiteral([]) == ""
  {}

  lemma {:induction false} ShapeIsWritten(shape: seq<nat>, k: nat, rest: string)
    requires k < |shape|
    ensures RenderItems(DimensionsOf(shape)[k..], Some(" "), ')', RenderDimension, rest) == ShapeLiteral(shape[k..]) + (")" + rest)
    decreases |shape| - k
  {
    hide ShapeLiteral, Decimal, RenderDimension, SizeLiteral;
    var items, end := DimensionsOf(shape)[k..], ")" + rest;
    ShapeFromFront(shape[k..]);
    if k + 1 == |shape| {
      SizeIsWritten(shape[k], end);
      NoFields();
      assert shape[k..][1..] == [];
      assert SizeLiteral(shape[k]) + "" == SizeLiteral(shape[k]);
    } else {
      ShapeIsWritten(shape, k + 1, rest);
      assert items[1..] == DimensionsOf(shape)[k + 1..] && shape[k..][1..] == shape[k + 1..];
      SizeIsWritten(shape[k], ShapeLiteral(shape[k + 1..]) + end);
      Assoc(SizeLiteral(shape[k]), ShapeLiteral(shape[k + 1..]), end);
    }
  }

  lemma Wrapped(open: string, body: string, close: string, rest: string)
    ensures open + ("" + (body + (close + rest))) == open + body + close + rest
  {
    Assoc(open, body, close + rest);
    Assoc(open + body, close, rest);
    assert "" + (body + (close + rest)) == body + (close + rest);
  }

  lemma TypeIsWritten(d: DataType, rest: string)
    ensures RenderValue(TypeOf(d), rest) == TypeLiteral(d) + rest
  {
    hide FieldsLiteral, RenderItems, RenderPair;
    NoFields();
    match d
    case Scalar(format) =>
      Assoc("'", format, "'" + rest);
      Assoc("'" + format, "'", rest);
    case Compound(fields) =>
      Wrapped("[", FieldsLiteral(fields), "]", rest);
      if fields == [] {
        assert "" + ("" + ("]" + rest)) == "]" + rest;
      } else {
        FieldsAreWritten(fields, 0, rest);
        assert PairsOf(fields)[0..] == PairsOf(fields) && fields[0..] == fields;
      }
  }

  lemma DimensionsAreWritten(shape: seq<nat>, rest: string)
    ensures RenderValue(ShapeText(DimensionsOf(shape), Some(" ")), rest) == "(" + ShapeLiteral(shape) + ")" + rest
  {
    hide ShapeLiteral, RenderItems, RenderDimension;
    NoFields();
    Wrapped("(", ShapeLiteral(shape), ")", rest);
    if shape == [] {
      assert "" + ("" + (")" + rest)) == ")" + rest;
    } else {
      ShapeIsWritten(shape, 0, rest);
      assert DimensionsOf(shape)[0..] == DimensionsOf(shape) && shape[0..] == shape;
    }
  }

  lemma OrderIsWritten(order: bool, rest: string)
    ensures RenderValue(OrderText(order), rest) == OrderLiteral(order) + rest
  {}

  lemma RenderThree(a: Spaced<EntryText>, b: Spaced<EntryText>, c: Spaced<EntryText>, rest: string)
    ensures RenderItems([a, b, c], None, '}', RenderEntry, rest)
         == RenderEntry(a.item, "," + (b.before + RenderEntry(b.item, "," + (c.before + RenderEntry(c.item, "}" + rest)))))
  {
    hide RenderEntry;
    assert [a, b, c][1..] == [b, c] && [b, c][1..] == [c];
    assert RenderItems([c], None, '}', RenderEntry, rest) == RenderEntry(c.item, "}" + rest);
    assert RenderItems([b, c], None, '}', RenderEntry, rest)
        == RenderEntry(b.item, "," + (c.before + RenderItems([c], None, '}', RenderEntry, rest)));
  }

  /** The pieces of the dictionary literal, however they are grouped. */
  lemma PiecesTogether(t: string, b: string, s: string, rest: string)
    ensures "{ 'descr': " + t + ", " + "'fortran_order': " + b + ", " + "'shape': (" + s + ") }" + rest
         == "{ 'descr': " + (t + (", 'fortran_order': " + (b + (", 'shape': (" + (s + (") }" + rest))))))
  {
    var start := "{ 'descr': ";
    var t2, t3 := ", 'fortran_order': ", ", 'shape': (";
    assert ", " + "'fortran_order': " == t2 && ", " + "'shape': (" == t3;
    Assoc(start + t, ", ", "'fortran_order': ");
    Assoc(start + t + t2 + b, ", ", "'shape': (");
    Nested(start, t, t2, b, t3, s, ") }", rest);
  }

  lemma Nested(a: string, b: string, c: string, d: string, e: string, f: string, g: string, h: string)
    ensures a + b + c + d + e + f + g + h == a + (b + (c + (d + (e + (f + (g + h))))))
  {
    Assoc(a + b + c + d + e + f, g, h);
    Assoc(a + b + c + d + e, f, g + h);
    Assoc(a + b + c + d, e, f + (g + h));
    Assoc(a + b + c, d, e + (f + (g + h)));
    Assoc(a + b, c, d + (e + (f + (g + h))));
    Assoc(a, b, c + (d + (e + (f + (g + h)))));
  }

  lemma DescrIsWritten(d: DataType, tail: string)
    ensures " " + RenderEntry(EntryOf(TypeOf(d), ""), tail) == " 'descr': " + (TypeLiteral(d) + tail)
  {
    hide RenderEntry, RenderValue, TypeLiteral;
    EntryIsWritten(TypeOf(d), "", tail);
    assert "" + tail == tail;
    TypeIsWritten(d, tail);
  }

  lemma OrderEntryIsWritten(order: bool, tail: string)
    ensures "," + (" " + RenderEntry(EntryOf(OrderText(order), ""), tail)) == ", 'fortran_order': " + (OrderLiteral(order) + tail)
  {
    hide RenderEntry, RenderValue, OrderLiteral;
    EntryIsWritten(OrderText(order), "", tail);
    assert "" + tail == tail;
    OrderIsWritten(order, tail);
    var text := OrderLiteral(order) + tail;
    Assoc(",", " ", "'fortran_order': " + text);
    Assoc(", ", "'fortran_order': ", text);
    assert "," + " " == ", " && ", " + "'fortran_order': " == ", 'fortran_order': ";
  }

  lemma ShapeEntryIsWritten(shape: seq<nat>, rest: string)
    ensures "," + (" " + RenderEntry(EntryOf(ShapeText(DimensionsOf(shape), Some(" ")), " "), "}" + rest))
         == ", 'shape': (" + (ShapeLiteral(shape) + (") }" + rest))
  {
    hide RenderEntry, RenderValue, ShapeLiteral;
    var v := ShapeText(DimensionsOf(shape), Some(" "));
    EntryIsWritten(v, " ", "}" + rest);
    DimensionsAreWritten(shape, " " + ("}" + rest));
    var value := "(" + ShapeLiteral(shape) + ")" + (" " + ("}" + rest));
    assert ")" + (" " + ("}" + rest)) == ") }" + rest;
    Assoc("(" + ShapeLiteral(shape), ")", " " + ("}" + rest));
    Assoc("(", ShapeLiteral(shape), ") }" + rest);
    assert "," + (" " + ("'shape': " + ("(" + (ShapeLiteral(shape) + (") }" + rest)))))
        == ", 'shape': (" + (ShapeLiteral(shape) + (") }" + rest));
  }

  /** The pieces of the literal from the first key on. */
  function Pieces(t: string, order: string, shape: string, rest: string): string {
    t + (", 'fortran_order': " + (order + (", 'shape': (" + (shape + (") }" + rest)))))
  }

  function OrderLiteral(order: bool): string {
    if order then "True" else "False"
  }

  lemma EntriesAreWritten(h: Header, rest: string)
    ensures " " + RenderItems(EntriesOf(h), None, '}', RenderEntry, rest)
         == " 'descr': " + Pieces(TypeLiteral(h.typeDescriptor), OrderLiteral(h.fortranOrder), ShapeLiteral(h.shape), rest)
  {
    hide RenderEntry, RenderItems, TypeLiteral, ShapeLiteral, TypeOf, DimensionsOf;
    var entries := EntriesOf(h);
    RenderThree(entries[0], entries[1], entries[2], rest);
    ShapeEntryIsWritten(h.shape, rest);
    var s3 := ", 'shape': (" + (ShapeLiteral(h.shape) + (") }" + rest));
    OrderEntryIsWritten(h.fortranOrder, s3);
    var s2 := ", 'fortran_order': " + (OrderLiteral(h.fortranOrder) + s3);
    DescrIsWritten(h.typeDescriptor, s2);
  }

  lemma LiteralPieces(h: Header, rest: string)
    ensures DictLiteral(h) + rest
         == "{ 'descr': " + Pieces(TypeLiteral(h.typeDescriptor), OrderLiteral(h.fortranOrder), ShapeLiteral(h.shape), rest)
  {
    hide TypeLiteral, ShapeLiteral;
    PiecesTogether(TypeLiteral(h.typeDescriptor), OrderLiteral(h.fortranOrder), ShapeLiteral(h.shape), rest);
  }

  /** The literal is one layout of the header. */
  lemma LiteralIsLayout(h: Header, rest: string)
    ensures DictLiteral(h) + rest == RenderHeader(LayoutOf(h), rest)
  {
    hide RenderEntry, RenderItems, TypeLiteral, ShapeLiteral, TypeOf, DimensionsOf, Pieces, DictLiteral, RenderHeader, EntriesOf;
    var pieces := Pieces(TypeLiteral(h.typeDescriptor), OrderLiteral(h.fortranOrder), ShapeLiteral(h.shape), rest);
    LiteralPieces(h, rest);
    EntriesAreWritten(h, rest);
    LayoutText(h, rest);
    assert "{" + (" 'descr': " + pieces) == "{ 'descr': " + pieces;
  }

  lemma LayoutText(h: Header, rest: string)
    ensures RenderHeader(LayoutOf(h), rest) == "{" + (" " + RenderItems(EntriesOf(h), None, '}', RenderEntry, rest))
  {
    hide RenderItems, RenderEntry, TypeOf, DimensionsOf;
    var text := "{" + (" " + RenderItems(EntriesOf(h), None, '}', RenderEntry, rest));
    assert "" + text == text;
  }

  /** The literal is read back as the header, whatever comes after it. */
  lemma LiteralIsReadBack(h: Header, rest: string)
    requires QuoteFreeType(h.typeDescriptor) && FitsUsize(h.shape)
    requires h.shape != [] && HasFields(h.typeDescriptor)
    ensures ParseHeader(DictLiteral(h) + rest) == Ok(Parsed(h, rest))
  {
    LiteralIsLayout(h, rest);
    LayoutIsValid(h);
    hide RenderHeader, DictLiteral, ParseHeader;
    LayoutDoesNotMatter(LayoutOf(h), rest);
  }

  /** An entry whose value can not be read can not be read either. */
  lemma EntryFails(e: EntryText, tail: string, error: Error)
    requires (e.quote == '\'' || e.quote == '"') && Blank(e.w0) && Blank(e.w1)
    requires var text := RenderValue(e.value, e.after + tail);
      text != [] && !IsWhitespace(text[0]) && ParseValue(KeyOf(e.value), text) == Err(error)
    ensures ParseEntry(RenderEntry(e, tail)) == Err(error)
    ensures RenderEntry(e, tail) != [] && RenderEntry(e, tail)[0] == e.quote
  {
    hide ParseValue, RenderValue, KeyOf, RenderQuoted, ParseString;
    var text := RenderValue(e.value, e.after + tail);
    KeyIsQuotable(e.value, e.quote);
    QuotedParses(Quoted(e.quote, KeyOf(e.value)), e.w0 + (":" + (e.w1 + text)));
    OneAfterBlank(e.w0, ':', e.w1 + text);
    SkipBlank(e.w1, text);
  }

  lemma EmptyShapeFails(rest: string)
    ensures ParseEntry(RenderEntry(EntryOf(ShapeText(DimensionsOf([]), Some(" ")), " "), rest)) == Err(Serialization)
    ensures RenderEntry(EntryOf(ShapeText(DimensionsOf([]), Some(" ")), " "), rest) != []
    ensures RenderEntry(EntryOf(ShapeText(DimensionsOf([]), Some(" ")), " "), rest)[0] == '\''
  {
    var v := ShapeText(DimensionsOf([]), Some(" "));
    var inside := ")" + (" " + rest);
    var text := RenderValue(v, " " + rest);
    assert text == "(" + inside && text[1..] == inside;
    SkipBlank("", inside);
    assert "" + inside == inside;
    DigitsAreTaken("", inside);
    assert ParseDimension(inside) == Err(Serialization);
    EntryFails(EntryOf(v, " "), rest, Serialization);
  }

  lemma EmptyTypeFails(rest: string)
    ensures ParseEntry(RenderEntry(EntryOf(TypeOf(Compound([])), ""), rest)) == Err(Serialization)
    ensures RenderEntry(EntryOf(TypeOf(Compound([])), ""), rest) != []
    ensures RenderEntry(EntryOf(TypeOf(Compound([])), ""), rest)[0] == '\''
  {
    var v := TypeOf(Compound([]));
    var inside := "]" + ("" + rest);
    var text := RenderValue(v, "" + rest);
    assert text == "[" + inside && text[1..] == inside;
    SkipBlank("", inside);
    assert "" + inside == inside;
    assert ParsePair(inside) == Err(Serialization);
    EntryFails(EntryOf(v, ""), rest, Serialization);
  }

  lemma NextFails(e: EntryText, before: string, more: string, error: Error)
    requires ValidEntry(e) && Blank(before) && more != [] && more[0] == '\'' && ParseItems(more, ParseEntry, '}') == Err(error)
    ensures ParseItems(RenderEntry(e, "," + (before + more)), ParseEntry, '}') == Err(error)
    ensures RenderEntry(e, "," + (before + more)) != [] && RenderEntry(e, "," + (before + more))[0] == e.quote
  {
    hide RenderEntry, ParseEntry;
    MiddleTail(before, more, '}');
    EntryParses(e, "," + (before + more));
  }

  lemma ItemFails(s: string, error: Error)
    requires ParseEntry(s) == Err(error)
    ensures ParseItems(s, ParseEntry, '}') == Err(error)
  {}

  /** Without a dimension, or without a field, the literal is not accepted. */
  lemma EmptyListsFail(h: Header, rest: string)
    requires QuoteFreeType(h.typeDescriptor) && FitsUsize(h.shape)
    requires h.shape == [] || !HasFields(h.typeDescriptor)
    ensures ParseHeader(DictLiteral(h) + rest) == Err(Serialization)
  {
    var entries := EntriesOf(h);
    var e0, e1, e2 := entries[0].item, entries[1].item, entries[2].item;
    var s2 := RenderEntry(e2, "}" + rest);
    var s1 := RenderEntry(e1, "," + (" " + s2));
    var s0 := RenderEntry(e0, "," + (" " + s1));
    OrderIsValid(h.fortranOrder);
    if !HasFields(h.typeDescriptor) {
      EmptyTypeFails("," + (" " + s1));
      ItemFails(s0, Serialization);
    } else {
      TypeIsValid(h.typeDescriptor);
      EmptyShapeFails("}" + rest);
      ItemFails(s2, Serialization);
      hide RenderEntry, ParseEntry, ParseItems, TypeOf, DimensionsOf;
      NextFails(e1, " ", s2, Serialization);
      NextFails(e0, " ", s1, Serialization);
    }
    HeaderFails(h, rest, s0);
  }

  lemma HeaderFails(h: Header, rest: string, items: string)
    requires items == RenderEntry(EntriesOf(h)[0].item, "," + (" " + RenderEntry(EntriesOf(h)[1].item,
                        "," + (" " + RenderEntry(EntriesOf(h)[2].item, "}" + rest)))))
    requires items != [] && items[0] == '\'' && ParseItems(items, ParseEntry, '}') == Err(Serialization)
    ensures ParseHeader(DictLiteral(h) + rest) == Err(Serialization)
  {
    hide RenderEntry, ParseEntry, ParseItems, TypeOf, DimensionsOf, DictLiteral, RenderHeader, Collect;
    var entries := EntriesOf(h);
    LiteralIsLayout(h, rest);
    LayoutText(h, rest);
    RenderThree(entries[0], entries[1], entries[2], rest);
    var text := DictLiteral(h) + rest;
    OneAfterBlank("", '{', " " + items);
    assert "" + text == text;
    SkipBlank(" ", items);
  }
}
