/** The texts that stand for a NPY header, by their layout: white space, quotes,
    the order of the keys and trailing commas are free. Texts are written in
    front of what comes after them. */
module NpySyntax {
  import opened Wrappers
  import opened NpyParser

  ghost predicate Blank(w: string) {
    forall i :: 0 <= i < |w| ==> IsWhitespace(w[i])
  }

  ghost predicate AllDigits(digits: string) {
    forall i :: 0 <= i < |digits| ==> IsDigit(digits[i])
  }

  datatype Quoted = Quoted(quote: char, text: string)

  ghost predicate ValidQuoted(q: Quoted) {
    (q.quote == '\'' || q.quote == '"') && q.quote !in q.text
  }

  function RenderQuoted(q: Quoted, rest: string): string {
    [q.quote] + (q.text + ([q.quote] + rest))
  }

  /** An item of a list with the white space in front of it. */
  datatype Spaced<I> = Spaced(before: string, item: I)

  datatype PairText = PairText(w0: string, name: Quoted, w1: string, w2: string, format: Quoted, w3: string, w4: string)

  datatype DimensionText = DimensionText(digits: string, after: string)

  datatype ValueText =
    | ScalarText(value: Quoted)
    | CompoundText(pairs: seq<Spaced<PairText>>, trailing: Option<string>)
    | OrderText(order: bool)
    | ShapeText(dimensions: seq<Spaced<DimensionText>>, trailing: Option<string>)

  datatype EntryText = EntryText(quote: char, w0: string, w1: string, value: ValueText, after: string)

  datatype HeaderText = HeaderText(before: string, entries: seq<Spaced<EntryText>>, trailing: Option<string>)

  /** The end of a list, perhaps with a comma. */
  function ClosingTail(trailing: Option<string>, close: char, rest: string): string {
    match trailing
    case None => [close] + rest
    case Some(w) => "," + (w + ([close] + rest))
  }

  /** Items with commas between them, perhaps one more comma, and the closing
      character. The white space before the first item is not included. */
  function RenderItems<I>(items: seq<Spaced<I>>, trailing: Option<string>, close: char, render: (I, string) -> string, rest: string): string
    requires items != []
  {
    if |items| == 1 then render(items[0].item, ClosingTail(trailing, close, rest))
    else render(items[0].item, "," + (items[1].before + RenderItems(items[1..], trailing, close, render, rest)))
  }

  function RenderPair(p: PairText, rest: string): string {
    "(" + (p.w0 + RenderQuoted(p.name, p.w1 + ("," + (p.w2 + RenderQuoted(p.format, p.w3 + (")" + (p.w4 + rest)))))))
  }

  function RenderDimension(d: DimensionText, rest: string): string {
    d.digits + (d.after + rest)
  }

  function RenderList<I>(open: char, items: seq<Spaced<I>>, trailing: Option<string>, close: char, render: (I, string) -> string, rest: string): string {
    if items == [] then [open] + ([close] + rest)
    else [open] + (items[0].before + RenderItems(items, trailing, close, render, rest))
  }

  function RenderValue(v: ValueText, rest: string): string {
    match v
    case ScalarText(q) => RenderQuoted(q, rest)
    case CompoundText(pairs, trailing) => RenderList('[', pairs, trailing, ']', RenderPair, rest)
    case OrderText(true) => "True" + rest
    case OrderText(false) => "False" + rest
    case ShapeText(dimensions, trailing) => RenderList('(', dimensions, trailing, ')', RenderDimension, rest)
  }

  function KeyOf(v: ValueText): string {
    match v
    case ScalarText(_) => "descr"
    case CompoundText(_, _) => "descr"
    case OrderText(_) => "fortran_order"
    case ShapeText(_, _) => "shape"
  }

  function RenderEntry(e: EntryText, rest: string): string {
    RenderQuoted(Quoted(e.quote, KeyOf(e.value)), e.w0 + (":" + (e.w1 + RenderValue(e.value, e.after + rest))))
  }

  function RenderHeader(t: HeaderText, rest: string): string {
    t.before + RenderList('{', t.entries, t.trailing, '}', RenderEntry, rest)
  }

  ghost predicate ValidPair(p: PairText) {
    Blank(p.w0) && ValidQuoted(p.name) && Blank(p.w1) && Blank(p.w2) && ValidQuoted(p.format) && Blank(p.w3) && Blank(p.w4)
  }

  ghost predicate ValidDimension(d: DimensionText) {
    d.digits != [] && AllDigits(d.digits) && DigitsValue(d.digits) <= USIZE_MAX && Blank(d.after)
  }

  ghost predicate ValidValue(v: ValueText) {
    match v
    case ScalarText(q) => ValidQuoted(q)
    case CompoundText(pairs, trailing) =>
      && pairs != [] && (forall i :: 0 <= i < |pairs| ==> Blank(pairs[i].before) && ValidPair(pairs[i].item))
      && (trailing.Some? ==> Blank(trailing.value))
    case OrderText(_) => true
    case ShapeText(dimensions, trailing) =>
      && dimensions != [] && (forall i :: 0 <= i < |dimensions| ==> Blank(dimensions[i].before) && ValidDimension(dimensions[i].item))
      && (trailing.Some? ==> Blank(trailing.value))
  }

  ghost predicate ValidEntry(e: EntryText) {
    (e.quote == '\'' || e.quote == '"') && Blank(e.w0) && Blank(e.w1) && ValidValue(e.value) && Blank(e.after)
  }

  /** A text with all three keys, any of them more than once. */
  ghost predicate ValidText(t: HeaderText) {
    && Blank(t.before)
    && t.entries != [] && (forall i :: 0 <= i < |t.entries| ==> Blank(t.entries[i].before) && ValidEntry(t.entries[i].item))
    && (t.trailing.Some? ==> Blank(t.trailing.value))
    && Collect(EntryMeanings(t.entries)).Finish().Ok?
  }

  function PairMeaning(p: PairText): Field {
    Field(p.name.text, p.format.text)
  }

  function PairMeanings(pairs: seq<Spaced<PairText>>): (r: seq<Field>)
    ensures |r| == |pairs| && forall i :: 0 <= i < |r| ==> r[i] == PairMeaning(pairs[i].item)
  {
    seq(|pairs|, i requires 0 <= i < |pairs| => PairMeaning(pairs[i].item))
  }

  function DimensionMeaning(d: DimensionText): nat {
    if DigitsValue(d.digits) >= 0 then DigitsValue(d.digits) else 0
  }

  function DimensionMeanings(dimensions: seq<Spaced<DimensionText>>): (r: seq<nat>)
    ensures |r| == |dimensions| && forall i :: 0 <= i < |r| ==> r[i] == DimensionMeaning(dimensions[i].item)
  {
    seq(|dimensions|, i requires 0 <= i < |dimensions| => DimensionMeaning(dimensions[i].item))
  }

  function EntryMeaning(e: EntryText): Entry {
    match e.value
    case ScalarText(q) => Descr(Scalar(q.text))
    case CompoundText(pairs, _) => Descr(Compound(PairMeanings(pairs)))
    case OrderText(order) => FortranOrder(order)
    case ShapeText(dimensions, _) => Shape(DimensionMeanings(dimensions))
  }

  function EntryMeanings(entries: seq<Spaced<EntryText>>): (r: seq<Entry>)
    ensures |r| == |entries| && forall i :: 0 <= i < |r| ==> r[i] == EntryMeaning(entries[i].item)
  {
    seq(|entries|, i requires 0 <= i < |entries| => EntryMeaning(entries[i].item))
  }

  /** The header that a text stands for. */
  ghost function Meaning(t: HeaderText): Header
    requires ValidText(t)
  {
    Collect(EntryMeanings(t.entries)).Finish().value
  }

  lemma {:induction false} SkipBlank(w: string, s: string)
    requires Blank(w) && s != [] && !IsWhitespace(s[0])
    ensures SkipWhitespaces(w + s) == Ok(s)
  {
    if w == [] {
      assert w + s == s;
    } else {
      assert (w + s)[1..] == w[1..] + s;
      SkipBlank(w[1..], s);
    }
  }

  lemma {:induction false} UntilQuote(text: string, quote: char, rest: string)
    requires quote !in text
    ensures Until(text + ([quote] + rest), quote) == Ok(Parsed(text, rest))
  {
    var s := text + ([quote] + rest);
    if text == [] {
      assert s == [quote] + rest && s[1..] == rest;
    } else {
      assert s[1..] == text[1..] + ([quote] + rest);
      UntilQuote(text[1..], quote, rest);
      assert text == [text[0]] + text[1..];
    }
  }

  lemma QuotedParses(q: Quoted, rest: string)
    requires ValidQuoted(q)
    ensures ParseString(RenderQuoted(q, rest)) == Ok(Parsed(q.text, rest))
    ensures RenderQuoted(q, rest) != [] && RenderQuoted(q, rest)[0] == q.quote && !IsWhitespace(q.quote)
  {
    assert RenderQuoted(q, rest)[1..] == q.text + ([q.quote] + rest);
    UntilQuote(q.text, q.quote, rest);
  }

  lemma {:induction false} DigitsAreTaken(digits: string, rest: string)
    requires AllDigits(digits) && rest != [] && !IsDigit(rest[0])
    ensures TakeDigits(digits + rest) == Ok(Parsed(digits, rest))
  {
    if digits == [] {
      assert digits + rest == rest;
    } else {
      assert (digits + rest)[1..] == digits[1..] + rest;
      DigitsAreTaken(digits[1..], rest);
      assert digits == [digits[0]] + digits[1..];
    }
  }

  lemma {:induction false} DigitsValueIsNat(digits: string)
    requires AllDigits(digits)
    ensures DigitsValue(digits) >= 0
  {
    if digits != [] {
      DigitsValueIsNat(digits[..|digits| - 1]);
    }
  }

  /** What can follow an item of a list. */
  predicate Follow(tail: string, close: char) {
    tail != [] && (tail[0] == ',' || tail[0] == close)
  }

  ghost predicate IsClosing(close: char) {
    close == ')' || close == ']' || close == '}'
  }

  lemma OneAfterBlank(w: string, c: char, rest: string)
    requires Blank(w) && !IsWhitespace(c)
    ensures SkipWhitespaces(w + ([c] + rest)) == Ok([c] + rest)
    ensures NpyParser.Expects([c] + rest, c) == Ok(rest)
  {
    SkipBlank(w, [c] + rest);
    assert ([c] + rest)[1..] == rest;
  }

  lemma PairParses(p: PairText, tail: string)
    requires ValidPair(p) && Follow(tail, ']')
    ensures ParsePair(RenderPair(p, tail)) == Ok(Parsed(PairMeaning(p), tail))
    ensures RenderPair(p, tail) != [] && RenderPair(p, tail)[0] == '('
  {
    var t4 := p.w3 + (")" + (p.w4 + tail));
    var t3 := RenderQuoted(p.format, t4);
    var t2 := p.w1 + ("," + (p.w2 + t3));
    var t1 := RenderQuoted(p.name, t2);
    OneAfterBlank([], '(', p.w0 + t1);
    assert [] + RenderPair(p, tail) == RenderPair(p, tail);
    QuotedParses(p.name, t2);
    SkipBlank(p.w0, t1);
    OneAfterBlank(p.w1, ',', p.w2 + t3);
    QuotedParses(p.format, t4);
    SkipBlank(p.w2, t3);
    OneAfterBlank(p.w3, ')', p.w4 + tail);
    SkipBlank(p.w4, tail);
  }

  lemma DimensionParses(d: DimensionText, tail: string)
    requires ValidDimension(d) && Follow(tail, ')')
    ensures ParseDimension(RenderDimension(d, tail)) == Ok(Parsed(DimensionMeaning(d), tail))
    ensures RenderDimension(d, tail) != [] && IsDigit(RenderDimension(d, tail)[0])
  {
    var after := d.after + tail;
    assert after[0] == if d.after == [] then tail[0] else d.after[0];
    SkipBlank([], RenderDimension(d, tail));
    assert [] + RenderDimension(d, tail) == RenderDimension(d, tail);
    DigitsAreTaken(d.digits, after);
    DigitsValueIsNat(d.digits);
    SkipBlank(d.after, tail);
  }

  /** An item is read back, whatever follows it in the list. */
  ghost predicate ReadsBack<I(!new), T(!new)>(i: I, t: T, close: char, render: (I, string) -> string, item: string -> Result<Parsed<T>>) {
    forall tail :: Follow(tail, close) ==>
      && item(render(i, tail)) == Ok(Parsed(t, tail))
      && render(i, tail) != [] && !IsWhitespace(render(i, tail)[0]) && render(i, tail)[0] != close
  }

  lemma {:induction false} ItemsParse<I(!new), T(!new)>(items: seq<Spaced<I>>, trailing: Option<string>, close: char,
                                                        render: (I, string) -> string, item: string -> Result<Parsed<T>>, values: seq<T>, rest: string)
    requires Shrinks(item) && IsClosing(close) && items != [] && |values| == |items|
    requires forall i :: 0 <= i < |items| ==> Blank(items[i].before) && ReadsBack(items[i].item, values[i], close, render, item)
    requires trailing.Some? ==> Blank(trailing.value)
    ensures ParseItems(RenderItems(items, trailing, close, render, rest), item, close) == Ok(Parsed(values, rest))
    ensures RenderItems(items, trailing, close, render, rest) != []
    ensures !IsWhitespace(RenderItems(items, trailing, close, render, rest)[0]) && RenderItems(items, trailing, close, render, rest)[0] != close
  {
    hide ReadsBack, NextItem, SkipWhitespaces;
    var tail := ListTail(items, trailing, close, render, rest);
    assert RenderItems(items, trailing, close, render, rest) == render(items[0].item, tail);
    if |items| == 1 {
      LastTail(trailing, close, rest);
      ReadBack(items[0].item, values[0], close, render, item, tail);
      assert values == [values[0]];
    } else {
      ItemsParse(items[1..], trailing, close, render, item, values[1..], rest);
      var more := RenderItems(items[1..], trailing, close, render, rest);
      MiddleTail(items[1].before, more, close);
      ReadBack(items[0].item, values[0], close, render, item, tail);
      assert values == [values[0]] + values[1..];
    }
  }

  /** What follows the first item. */
  function ListTail<I>(items: seq<Spaced<I>>, trailing: Option<string>, close: char, render: (I, string) -> string, rest: string): string
    requires items != []
  {
    if |items| == 1 then ClosingTail(trailing, close, rest)
    else "," + (items[1].before + RenderItems(items[1..], trailing, close, render, rest))
  }

  lemma LastTail(trailing: Option<string>, close: char, rest: string)
    requires IsClosing(close) && (trailing.Some? ==> Blank(trailing.value))
    ensures Follow(ClosingTail(trailing, close, rest), close)
    ensures NextItem(ClosingTail(trailing, close, rest), close) == Ok(Stop(rest))
  {
    var tail := ClosingTail(trailing, close, rest);
    if trailing.Some? {
      OneAfterBlank(trailing.value, close, rest);
      assert tail[1..] == trailing.value + ([close] + rest);
      assert ([close] + rest)[1..] == rest;
    } else {
      assert tail[1..] == rest;
    }
  }

  lemma MiddleTail(before: string, more: string, close: char)
    requires Blank(before) && more != [] && !IsWhitespace(more[0]) && more[0] != close
    ensures Follow("," + (before + more), close)
    ensures NextItem("," + (before + more), close) == Ok(More(more))
  {
    SkipBlank(before, more);
    assert ("," + (before + more))[1..] == before + more;
  }

  lemma ReadBack<I(!new), T(!new)>(i: I, t: T, close: char, render: (I, string) -> string, item: string -> Result<Parsed<T>>, tail: string)
    requires ReadsBack(i, t, close, render, item) && Follow(tail, close)
    ensures item(render(i, tail)) == Ok(Parsed(t, tail))
    ensures render(i, tail) != [] && !IsWhitespace(render(i, tail)[0]) && render(i, tail)[0] != close
  {}

  lemma PairsReadBack(p: PairText)
    requires ValidPair(p)
    ensures ReadsBack(p, PairMeaning(p), ']', RenderPair, ParsePair)
  {
    hide RenderPair;
    forall tail | Follow(tail, ']')
      ensures ParsePair(RenderPair(p, tail)) == Ok(Parsed(PairMeaning(p), tail))
      ensures RenderPair(p, tail) != [] && !IsWhitespace(RenderPair(p, tail)[0]) && RenderPair(p, tail)[0] != ']'
    {
      PairParses(p, tail);
    }
  }

  lemma DimensionsReadBack(d: DimensionText)
    requires ValidDimension(d)
    ensures ReadsBack(d, DimensionMeaning(d), ')', RenderDimension, ParseDimension)
  {
    hide RenderDimension;
    forall tail | Follow(tail, ')')
      ensures ParseDimension(RenderDimension(d, tail)) == Ok(Parsed(DimensionMeaning(d), tail))
      ensures RenderDimension(d, tail) != [] && !IsWhitespace(RenderDimension(d, tail)[0]) && RenderDimension(d, tail)[0] != ')'
    {
      DimensionParses(d, tail);
    }
  }

  /** Skipping the white space first makes no difference to these items. */
  lemma {:induction false} SkipTwice(w: string, s: string)
    requires Blank(w)
    ensures SkipWhitespaces(w + s) == SkipWhitespaces(s)
  {
    if w == [] {
      assert w + s == s;
    } else {
      assert (w + s)[1..] == w[1..] + s;
      SkipTwice(w[1..], s);
    }
  }

  lemma CompoundParses(pairs: seq<Spaced<PairText>>, trailing: Option<string>, rest: string)
    requires ValidValue(CompoundText(pairs, trailing))
    ensures ParseDataType(RenderValue(CompoundText(pairs, trailing), rest)) == Ok(Parsed(Compound(PairMeanings(pairs)), rest))
  {
    hide RenderPair, ReadsBack, RenderItems, ParseItems, ParsePair;
    forall i | 0 <= i < |pairs| ensures ReadsBack(pairs[i].item, PairMeanings(pairs)[i], ']', RenderPair, ParsePair) {
      PairsReadBack(pairs[i].item);
    }
    ItemsParse(pairs, trailing, ']', RenderPair, ParsePair, PairMeanings(pairs), rest);
    var inside := RenderItems(pairs, trailing, ']', RenderPair, rest);
    var text := RenderValue(CompoundText(pairs, trailing), rest);
    assert text[1..] == pairs[0].before + inside;
    PairsAfterBlank(pairs[0].before, inside);
  }

  lemma PairsAfterBlank(w: string, s: string)
    requires Blank(w)
    ensures ParseItems(w + s, ParsePair, ']') == ParseItems(s, ParsePair, ']')
  {
    SkipTwice(w, s);
    assert ParsePair(w + s) == ParsePair(s);
  }

  lemma ShapeParses(dimensions: seq<Spaced<DimensionText>>, trailing: Option<string>, rest: string)
    requires ValidValue(ShapeText(dimensions, trailing))
    ensures ParseShape(RenderValue(ShapeText(dimensions, trailing), rest)) == Ok(Parsed(DimensionMeanings(dimensions), rest))
  {
    hide RenderDimension, ReadsBack, RenderItems, ParseItems, ParseDimension;
    forall i | 0 <= i < |dimensions|
      ensures ReadsBack(dimensions[i].item, DimensionMeanings(dimensions)[i], ')', RenderDimension, ParseDimension)
    {
      DimensionsReadBack(dimensions[i].item);
    }
    ItemsParse(dimensions, trailing, ')', RenderDimension, ParseDimension, DimensionMeanings(dimensions), rest);
    var inside := RenderItems(dimensions, trailing, ')', RenderDimension, rest);
    var text := RenderValue(ShapeText(dimensions, trailing), rest);
    assert text[1..] == dimensions[0].before + inside;
    DimensionsAfterBlank(dimensions[0].before, inside);
  }

  lemma DimensionsAfterBlank(w: string, s: string)
    requires Blank(w)
    ensures ParseItems(w + s, ParseDimension, ')') == ParseItems(s, ParseDimension, ')')
  {
    SkipTwice(w, s);
    assert ParseDimension(w + s) == ParseDimension(s);
  }

  lemma {:induction false} WordIsRead(word: string, rest: string)
    ensures ExpectsAll(word + rest, word) == Ok(rest)
  {
    if word == [] {
      assert word + rest == rest;
    } else {
      assert (word + rest)[1..] == word[1..] + rest;
      WordIsRead(word[1..], rest);
    }
  }

  lemma BoolParses(order: bool, rest: string)
    ensures ParseBool(RenderValue(OrderText(order), rest)) == Ok(Parsed(order, rest))
  {
    var text := RenderValue(OrderText(order), rest);
    if order {
      assert text[1..] == "rue" + rest;
      WordIsRead("rue", rest);
    } else {
      assert text[1..] == "alse" + rest;
      WordIsRead("alse", rest);
    }
  }

  lemma ValueParses(e: EntryText, rest: string)
    requires ValidEntry(e)
    ensures ParseValue(KeyOf(e.value), RenderValue(e.value, rest)) == Ok(Parsed(EntryMeaning(e), rest))
    ensures RenderValue(e.value, rest) != [] && !IsWhitespace(RenderValue(e.value, rest)[0])
  {
    hide ParseItems, RenderItems, ParseBool;
    match e.value
    case ScalarText(q) =>
      QuotedParses(q, rest);
    case CompoundText(pairs, trailing) =>
      CompoundParses(pairs, trailing, rest);
    case OrderText(order) =>
      BoolParses(order, rest);
    case ShapeText(dimensions, trailing) =>
      ShapeParses(dimensions, trailing, rest);
  }

  lemma KeyIsQuotable(v: ValueText, quote: char)
    requires quote == '\'' || quote == '"'
    ensures ValidQuoted(Quoted(quote, KeyOf(v)))
  {}

  lemma EntryParses(e: EntryText, tail: string)
    requires ValidEntry(e) && Follow(tail, '}')
    ensures ParseEntry(RenderEntry(e, tail)) == Ok(Parsed(EntryMeaning(e), tail))
    ensures RenderEntry(e, tail) != [] && RenderEntry(e, tail)[0] == e.quote
  {
    hide ParseValue, RenderValue, KeyOf, RenderQuoted, ParseString;
    var t3 := e.after + tail;
    var t2 := RenderValue(e.value, t3);
    var t1 := e.w0 + (":" + (e.w1 + t2));
    KeyIsQuotable(e.value, e.quote);
    QuotedParses(Quoted(e.quote, KeyOf(e.value)), t1);
    OneAfterBlank(e.w0, ':', e.w1 + t2);
    ValueParses(e, t3);
    SkipBlank(e.w1, t2);
    SkipBlank(e.after, tail);
  }

  lemma EntriesReadBack(e: EntryText)
    requires ValidEntry(e)
    ensures ReadsBack(e, EntryMeaning(e), '}', RenderEntry, ParseEntry)
  {
    hide RenderEntry;
    forall tail | Follow(tail, '}')
      ensures ParseEntry(RenderEntry(e, tail)) == Ok(Parsed(EntryMeaning(e), tail))
      ensures RenderEntry(e, tail) != [] && !IsWhitespace(RenderEntry(e, tail)[0]) && RenderEntry(e, tail)[0] != '}'
    {
      EntryParses(e, tail);
    }
  }

  /** Every layout of a header is read as that header, without reading past the
      end, and what comes after it does not matter. */
  lemma LayoutDoesNotMatter(t: HeaderText, rest: string)
    requires ValidText(t)
    ensures ParseHeader(RenderHeader(t, rest)) == Ok(Parsed(Meaning(t), rest))
  {
    hide ParseEntry, RenderEntry, ParseItems, RenderItems, ReadsBack, Collect;
    var values := EntryMeanings(t.entries);
    forall i | 0 <= i < |t.entries| ensures ReadsBack(t.entries[i].item, values[i], '}', RenderEntry, ParseEntry) {
      EntriesReadBack(t.entries[i].item);
    }
    ItemsParse(t.entries, t.trailing, '}', RenderEntry, ParseEntry, values, rest);
    var inside := RenderItems(t.entries, t.trailing, '}', RenderEntry, rest);
    OneAfterBlank(t.before, '{', t.entries[0].before + inside);
    SkipBlank(t.entries[0].before, inside);
  }
}
