/** Headers with quotes in their strings: they are never read back as they were,
    because a text that is read as such a header has more double quotes than the
    one that is written. */
module QuotedHeaders {
  import opened Wrappers
  import opened Bytes
  import opened NpyParser
  import opened NpySyntax
  import opened NpyLayouts
  import opened NpyHeaders
  import opened NpyRoundTrip
  import opened NpyBytes

  function DoubleQuotes(s: string): nat {
    multiset(s)['"']
  }

  lemma QuotesAppend(a: string, b: string)
    ensures DoubleQuotes(a + b) == DoubleQuotes(a) + DoubleQuotes(b)
  {}

  /** The double quotes in any text that reads as `s`: a single quote inside
      needs double quotes around it. */
  function Need(s: string): nat {
    DoubleQuotes(s) + if '\'' in s then 2 else 0
  }

  lemma NeedAppend(a: string, b: string)
    ensures Need(a + b) <= Need(a) + Need(b)
  {
    QuotesAppend(a, b);
  }

  /** All strings of some fields, one after the other. */
  function FieldsText(fields: seq<Field>): string {
    if fields == [] then "" else fields[0].name + fields[0].format + FieldsText(fields[1..])
  }

  function TypeText(d: DataType): string {
    match d
    case Scalar(format) => format
    case Compound(fields) => FieldsText(fields)
  }

  lemma {:induction false} QuoteFreeFields(fields: seq<Field>)
    ensures QuoteFreeType(Compound(fields)) <==> QuoteFree(FieldsText(fields))
  {
    if fields != [] {
      QuoteFreeFields(fields[1..]);
      assert forall i :: 0 <= i < |fields| - 1 ==> fields[1..][i] == fields[i + 1];
      assert fields == [fields[0]] + fields[1..];
    }
  }

  lemma QuoteFreeText(d: DataType)
    ensures QuoteFreeType(d) <==> QuoteFree(TypeText(d))
  {
    if d.Compound? {
      QuoteFreeFields(d.fields);
    }
  }

  lemma QuotesOfQuoted(q: Quoted, rest: string)
    requires ValidQuoted(q)
    ensures DoubleQuotes(RenderQuoted(q, rest)) >= Need(q.text) + DoubleQuotes(rest)
  {
    QuotesAppend([q.quote], q.text + ([q.quote] + rest));
    QuotesAppend(q.text, [q.quote] + rest);
    QuotesAppend([q.quote], rest);
  }

  /** Whatever follows it, the item takes at least `w` double quotes. */
  ghost predicate Takes<I>(item: I, render: (I, string) -> string, w: nat) {
    forall tail :: DoubleQuotes(render(item, tail)) >= w + DoubleQuotes(tail)
  }

  function Sum(w: seq<nat>): nat {
    if w == [] then 0 else w[0] + Sum(w[1..])
  }

  lemma {:induction false} SumIsLarge(w: seq<nat>, i: nat)
    requires i < |w|
    ensures Sum(w) >= w[i]
  {
    if i > 0 {
      SumIsLarge(w[1..], i - 1);
    }
  }

  lemma MoreQuotes(a: string, b: string)
    ensures DoubleQuotes(a + b) >= DoubleQuotes(b)
  {
    QuotesAppend(a, b);
  }

  lemma QuotesOfClosing(trailing: Option<string>, close: char, rest: string)
    ensures DoubleQuotes(ClosingTail(trailing, close, rest)) >= DoubleQuotes(rest)
  {
    MoreQuotes([close], rest);
    if trailing.Some? {
      MoreQuotes(trailing.value, [close] + rest);
      MoreQuotes(",", trailing.value + ([close] + rest));
    }
  }

  lemma {:induction false} QuotesOfItems<I>(items: seq<Spaced<I>>, trailing: Option<string>, close: char, render: (I, string) -> string,
                                            rest: string, w: seq<nat>)
    requires items != [] && |w| == |items| && forall i :: 0 <= i < |items| ==> Takes(items[i].item, render, w[i])
    ensures DoubleQuotes(RenderItems(items, trailing, close, render, rest)) >= Sum(w) + DoubleQuotes(rest)
  {
    if |items| == 1 {
      assert w[1..] == [];
      QuotesOfClosing(trailing, close, rest);
    } else {
      var others := RenderItems(items[1..], trailing, close, render, rest);
      QuotesOfItems(items[1..], trailing, close, render, rest, w[1..]);
      MoreQuotes(items[1].before, others);
      MoreQuotes(",", items[1].before + others);
    }
  }

  lemma QuotesOfList<I>(open: char, items: seq<Spaced<I>>, trailing: Option<string>, close: char, render: (I, string) -> string,
                        rest: string, w: seq<nat>)
    requires items != [] && |w| == |items| && forall i :: 0 <= i < |items| ==> Takes(items[i].item, render, w[i])
    ensures DoubleQuotes(RenderList(open, items, trailing, close, render, rest)) >= Sum(w) + DoubleQuotes(rest)
  {
    hide RenderItems, Takes, Sum;
    var all := RenderItems(items, trailing, close, render, rest);
    QuotesOfItems(items, trailing, close, render, rest, w);
    MoreQuotes(items[0].before, all);
    MoreQuotes([open], items[0].before + all);
  }

  lemma QuotesOfPair(p: PairText)
    requires ValidPair(p)
    ensures Takes(p, RenderPair, Need(p.name.text + p.format.text))
  {
    hide RenderQuoted, Need, DoubleQuotes;
    NeedAppend(p.name.text, p.format.text);
    forall tail ensures DoubleQuotes(RenderPair(p, tail)) >= Need(p.name.text + p.format.text) + DoubleQuotes(tail) {
      var end := p.w3 + (")" + (p.w4 + tail));
      MoreQuotes(p.w4, tail);
      MoreQuotes(")", p.w4 + tail);
      MoreQuotes(p.w3, ")" + (p.w4 + tail));
      QuotesOfQuoted(p.format, end);
      var format := RenderQuoted(p.format, end);
      MoreQuotes(p.w2, format);
      MoreQuotes(",", p.w2 + format);
      MoreQuotes(p.w1, "," + (p.w2 + format));
      QuotesOfQuoted(p.name, p.w1 + ("," + (p.w2 + format)));
      var name := RenderQuoted(p.name, p.w1 + ("," + (p.w2 + format)));
      MoreQuotes(p.w0, name);
      MoreQuotes("(", p.w0 + name);
    }
  }

  lemma QuotesOfDimension(d: DimensionText)
    ensures Takes(d, RenderDimension, 0)
  {
    forall tail ensures DoubleQuotes(RenderDimension(d, tail)) >= DoubleQuotes(tail) {
      MoreQuotes(d.after, tail);
      MoreQuotes(d.digits, d.after + tail);
    }
  }

  function PairNeeds(fields: seq<Field>): (w: seq<nat>)
    ensures |w| == |fields| && forall i :: 0 <= i < |w| ==> w[i] == Need(fields[i].name + fields[i].format)
  {
    seq(|fields|, i requires 0 <= i < |fields| => Need(fields[i].name + fields[i].format))
  }

  lemma {:induction false} FieldsNeed(fields: seq<Field>)
    ensures Sum(PairNeeds(fields)) >= Need(FieldsText(fields))
  {
    hide Need;
    if fields == [] {
      assert Need("") == 0 by { NothingNeeded(); }
    } else {
      FieldsNeed(fields[1..]);
      assert PairNeeds(fields)[1..] == PairNeeds(fields[1..]);
      NeedAppend(fields[0].name + fields[0].format, FieldsText(fields[1..]));
    }
  }

  lemma NothingNeeded()
    ensures Need("") == 0
  {}

  /** What the value of an entry takes. */
  function EntryNeed(e: Entry): nat {
    if e.Descr? then Need(TypeText(e.dataType)) else 0
  }

  lemma QuotesOfValue(e: EntryText, rest: string)
    requires ValidValue(e.value)
    ensures DoubleQuotes(RenderValue(e.value, rest)) >= EntryNeed(EntryMeaning(e)) + DoubleQuotes(rest)
  {
    hide RenderList, Need, DoubleQuotes, RenderQuoted, Takes;
    match e.value
    case ScalarText(q) =>
      QuotesOfQuoted(q, rest);
    case CompoundText(pairs, trailing) =>
      var fields := PairMeanings(pairs);
      forall i | 0 <= i < |pairs| ensures Takes(pairs[i].item, RenderPair, PairNeeds(fields)[i]) {
        QuotesOfPair(pairs[i].item);
      }
      QuotesOfList('[', pairs, trailing, ']', RenderPair, rest, PairNeeds(fields));
      FieldsNeed(fields);
    case OrderText(order) =>
      MoreQuotes("True", rest);
      MoreQuotes("False", rest);
    case ShapeText(dimensions, trailing) =>
      var w: seq<nat> := seq(|dimensions|, _ => 0);
      forall i | 0 <= i < |dimensions| ensures Takes(dimensions[i].item, RenderDimension, w[i]) {
        QuotesOfDimension(dimensions[i].item);
      }
      QuotesOfList('(', dimensions, trailing, ')', RenderDimension, rest, w);
  }

  lemma QuotesOfEntry(e: EntryText)
    requires ValidEntry(e)
    ensures Takes(e, RenderEntry, EntryNeed(EntryMeaning(e)))
  {
    hide RenderValue, EntryNeed, DoubleQuotes, ValidValue;
    forall tail ensures DoubleQuotes(RenderEntry(e, tail)) >= EntryNeed(EntryMeaning(e)) + DoubleQuotes(tail) {
      MoreQuotes(e.after, tail);
      QuotesOfValue(e, e.after + tail);
      var value := RenderValue(e.value, e.after + tail);
      MoreQuotes(e.w1, value);
      MoreQuotes(":", e.w1 + value);
      MoreQuotes(e.w0, ":" + (e.w1 + value));
      MoreQuotes([e.quote], e.w0 + (":" + (e.w1 + value)));
      MoreQuotes(KeyOf(e.value), [e.quote] + (e.w0 + (":" + (e.w1 + value))));
      MoreQuotes([e.quote], KeyOf(e.value) + ([e.quote] + (e.w0 + (":" + (e.w1 + value)))));
    }
  }

  /** The type that is collected is that of some entry. */
  lemma {:induction false} CollectedFrom(entries: seq<Entry>) returns (i: nat)
    requires Collect(entries).descr.Some?
    ensures i < |entries| && entries[i] == Descr(Collect(entries).descr.value)
  {
    var n := |entries| - 1;
    if entries[n].Descr? {
      i := n;
    } else {
      i := CollectedFrom(entries[..n]);
    }
  }

  /** Every text that is read as a header has the double quotes its type needs. */
  lemma QuotesOfHeader(t: HeaderText, rest: string)
    requires ValidText(t)
    ensures DoubleQuotes(RenderHeader(t, rest)) >= Need(TypeText(Meaning(t).typeDescriptor))
  {
    var entries := EntryMeanings(t.entries);
    var i := CollectedFrom(entries);
    hide RenderList, Need, DoubleQuotes, ValidEntry, Takes, Collect, EntryMeaning;
    var w: seq<nat> := seq(|entries|, k requires 0 <= k < |entries| => EntryNeed(entries[k]));
    forall k | 0 <= k < |t.entries| ensures Takes(t.entries[k].item, RenderEntry, w[k]) {
      QuotesOfEntry(t.entries[k].item);
    }
    QuotesOfList('{', t.entries, t.trailing, '}', RenderEntry, rest, w);
    SumIsLarge(w, i);
    MoreQuotes(t.before, RenderList('{', t.entries, t.trailing, '}', RenderEntry, rest));
  }

  lemma QuotesOfField(f: Field)
    ensures DoubleQuotes(FieldLiteral(f)) == DoubleQuotes(f.name + f.format)
  {
    QuotesAppend("('", f.name);
    QuotesAppend("('" + f.name, "', '");
    QuotesAppend("('" + f.name + "', '", f.format);
    QuotesAppend("('" + f.name + "', '" + f.format, "'), ");
    QuotesAppend(f.name, f.format);
  }

  lemma {:induction false} QuotesOfFields(fields: seq<Field>)
    ensures DoubleQuotes(FieldsLiteral(fields)) == DoubleQuotes(FieldsText(fields))
  {
    if fields == [] {
      NoQuotes(FieldsLiteral([]));
    } else {
      hide FieldLiteral, FieldsLiteral, DoubleQuotes;
      FieldsFromFront(fields);
      QuotesOfFields(fields[1..]);
      QuotesOfField(fields[0]);
      QuotesAppend(FieldLiteral(fields[0]), FieldsLiteral(fields[1..]));
      QuotesAppend(fields[0].name + fields[0].format, FieldsText(fields[1..]));
    }
  }

  lemma QuotesOfType(d: DataType)
    ensures DoubleQuotes(TypeLiteral(d)) == DoubleQuotes(TypeText(d))
  {
    match d
    case Scalar(format) =>
      QuotesAppend("'", format);
      QuotesAppend("'" + format, "'");
    case Compound(fields) =>
      QuotesOfFields(fields);
      QuotesAppend("[", FieldsLiteral(fields));
      QuotesAppend("[" + FieldsLiteral(fields), "]");
  }

  lemma NoQuotesInSize(n: nat)
    ensures DoubleQuotes(SizeLiteral(n)) == 0
  {
    hide Decimal, DoubleQuotes;
    DecimalIsRight(n);
    NoQuotes(Decimal(n));
    NoQuotes(", ");
    QuotesAppend(Decimal(n), ", ");
  }

  lemma {:induction false} NoQuotesInShape(shape: seq<nat>)
    ensures DoubleQuotes(ShapeLiteral(shape)) == 0
  {
    if shape == [] {
      NoQuotes(ShapeLiteral([]));
    } else {
      var n := |shape| - 1;
      hide DoubleQuotes, SizeLiteral;
      NoQuotesInShape(shape[..n]);
      NoQuotesInSize(shape[n]);
      QuotesAppend(ShapeLiteral(shape[..n]), SizeLiteral(shape[n]));
    }
  }

  /** The literal has the double quotes of the strings, and no others. */
  lemma QuotesOfLiteral(h: Header, spaces: nat)
    ensures DoubleQuotes(DictLiteral(h) + SpaceText(spaces)) == DoubleQuotes(TypeText(h.typeDescriptor))
  {
    hide DoubleQuotes, TypeLiteral, ShapeLiteral, TypeText;
    QuotesOfType(h.typeDescriptor);
    NoQuotesInShape(h.shape);
    var order := if h.fortranOrder then "True" else "False";
    NoQuotesAround("{ 'descr': ", TypeLiteral(h.typeDescriptor), ", ", "'fortran_order': ", order, "'shape': (",
                   ShapeLiteral(h.shape), ") }", SpaceText(spaces));
  }

  lemma NoQuotes(s: string)
    requires '"' !in s
    ensures DoubleQuotes(s) == 0
  {}

  lemma NoQuotesAround(a: string, t: string, b: string, c: string, order: string, d: string, shape: string, e: string, spaces: string)
    requires '"' !in a && '"' !in b && '"' !in c && '"' !in order && '"' !in d && '"' !in e && '"' !in spaces && DoubleQuotes(shape) == 0
    ensures DoubleQuotes(a + t + b + c + order + b + d + shape + e + spaces) == DoubleQuotes(t)
  {
    hide DoubleQuotes;
    NoQuotes(a);
    NoQuotes(b);
    NoQuotes(c);
    NoQuotes(order);
    NoQuotes(d);
    NoQuotes(e);
    NoQuotes(spaces);
    QuotesAppend(a, t);
    QuotesAppend(a + t, b);
    QuotesAppend(a + t + b, c);
    QuotesAppend(a + t + b + c, order);
    QuotesAppend(a + t + b + c + order, b);
    QuotesAppend(a + t + b + c + order + b, d);
    QuotesAppend(a + t + b + c + order + b + d, shape);
    QuotesAppend(a + t + b + c + order + b + d + shape, e);
    QuotesAppend(a + t + b + c + order + b + d + shape + e, spaces);
  }

  /** A type that is read back as itself has no single quote in its strings. */
  lemma ReadBackIsQuoteFree(h: Header, spaces: nat)
    requires ParseHeader(DictLiteral(h) + SpaceText(spaces)).Ok?
    requires ParseHeader(DictLiteral(h) + SpaceText(spaces)).value.value.typeDescriptor == h.typeDescriptor
    ensures QuoteFreeType(h.typeDescriptor)
  {
    hide ParseHeader, DictLiteral, RenderHeader, QuoteFreeType, TypeText, DoubleQuotes;
    var s := DictLiteral(h) + SpaceText(spaces);
    var t := OnlyLayoutsAreRead(s);
    QuotesOfHeader(t, ParseHeader(s).value.rest);
    QuotesOfLiteral(h, spaces);
    QuoteFreeText(h.typeDescriptor);
  }

  /** A header is read back from what is written exactly if its strings are ASCII
      without single quotes, and it has a dimension and, if it is compound, a
      field. */
  lemma HeaderIsReadBackExactly(h: Header, rest: seq<byte>)
    requires FitsUsize(h.shape) && HeaderBytes(h).Ok?
    ensures ReadHeader(HeaderBytes(h).value + rest) == Ok(HeaderRead(h, rest))
       <==> QuoteFreeType(h.typeDescriptor) && Readable(h)
  {
    hide EncodeUtf8, DictLiteral, ParseHeader, ReadHeader, ReadLiteral, ReadSized, VersionedHeader, Body, AsciiType, QuoteFreeType;
    if QuoteFreeType(h.typeDescriptor) {
      HeaderIsReadBack(h, rest);
    } else {
      var literal := EncodeUtf8(DictLiteral(h));
      var v := if ComputeLengths(V1, |literal|).Some? then V1 else V2;
      var spaces := Padding(v, literal);
      VersionedIsRead(v, literal, rest);
      TextIsRead(v, DictLiteral(h), spaces);
      if ReadHeader(HeaderBytes(h).value + rest) == Ok(HeaderRead(h, rest)) {
        ReadBackIsQuoteFree(h, spaces);
      }
    }
  }
}
