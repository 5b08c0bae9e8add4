/** The parser accepts no text but the layouts of a header. */
module NpyLayouts {
  import opened Wrappers
  import opened NpyParser
  import opened NpySyntax

  lemma {:induction false} BlankFound(s: string) returns (w: string)
    requires SkipWhitespaces(s).Ok?
    ensures Blank(w) && s == w + SkipWhitespaces(s).value
  {
    if IsWhitespace(s[0]) {
      var rest := BlankFound(s[1..]);
      w := [s[0]] + rest;
      assert s == [s[0]] + s[1..];
    } else {
      w := "";
    }
  }

  lemma ExpectedFound(s: string, c: char)
    requires NpyParser.Expects(s, c).Ok?
    ensures s == [c] + NpyParser.Expects(s, c).value
  {
    assert s == [s[0]] + s[1..];
  }

  lemma {:induction false} UntilFound(s: string, quote: char)
    requires Until(s, quote).Ok?
    ensures quote !in Until(s, quote).value.value
    ensures s == Until(s, quote).value.value + ([quote] + Until(s, quote).value.rest)
  {
    assert s == [s[0]] + s[1..];
    if s[0] != quote {
      UntilFound(s[1..], quote);
    }
  }

  lemma QuotedFound(s: string) returns (q: Quoted)
    requires ParseString(s).Ok?
    ensures ValidQuoted(q) && s == RenderQuoted(q, ParseString(s).value.rest) && q.text == ParseString(s).value.value
  {
    UntilFound(s[1..], s[0]);
    q := Quoted(s[0], ParseString(s).value.value);
    assert s == [s[0]] + s[1..];
  }

  lemma {:induction false} DigitsFound(s: string)
    requires TakeDigits(s).Ok?
    ensures AllDigits(TakeDigits(s).value.value)
    ensures s == TakeDigits(s).value.value + TakeDigits(s).value.rest
  {
    if IsDigit(s[0]) {
      DigitsFound(s[1..]);
      assert s == [s[0]] + s[1..];
    }
  }

  lemma PairFound(s: string) returns (before: string, p: PairText)
    requires ParsePair(s).Ok?
    ensures Blank(before) && ValidPair(p) && PairMeaning(p) == ParsePair(s).value.value
    ensures s == before + RenderPair(p, ParsePair(s).value.rest)
  {
    hide RenderQuoted, ParseString, SkipWhitespaces, NpyParser.Expects;
    before := BlankFound(s);
    var opening := SkipWhitespaces(s).value;
    ExpectedFound(opening, '(');
    var inside := NpyParser.Expects(opening, '(').value;
    var w0 := BlankFound(inside);
    var nameText := SkipWhitespaces(inside).value;
    var name := QuotedFound(nameText);
    var afterName := ParseString(nameText).value.rest;
    var w1 := BlankFound(afterName);
    var comma := SkipWhitespaces(afterName).value;
    ExpectedFound(comma, ',');
    var afterComma := NpyParser.Expects(comma, ',').value;
    var w2 := BlankFound(afterComma);
    var formatText := SkipWhitespaces(afterComma).value;
    var format := QuotedFound(formatText);
    var afterFormat := ParseString(formatText).value.rest;
    var w3 := BlankFound(afterFormat);
    var closing := SkipWhitespaces(afterFormat).value;
    ExpectedFound(closing, ')');
    var w4 := BlankFound(NpyParser.Expects(closing, ')').value);
    p := PairText(w0, name, w1, w2, format, w3, w4);
  }

  lemma DimensionFound(s: string) returns (before: string, d: DimensionText)
    requires ParseDimension(s).Ok?
    ensures Blank(before) && ValidDimension(d) && DimensionMeaning(d) == ParseDimension(s).value.value
    ensures s == before + RenderDimension(d, ParseDimension(s).value.rest)
  {
    before := BlankFound(s);
    var digits := SkipWhitespaces(s).value;
    DigitsFound(digits);
    var n := TakeDigits(digits).value;
    var after := BlankFound(n.rest);
    d := DimensionText(n.value, after);
  }

  lemma ClosingFound(s: string, close: char) returns (trailing: Option<string>)
    requires NextItem(s, close).Ok? && NextItem(s, close).value.Stop?
    ensures trailing.Some? ==> Blank(trailing.value)
    ensures s == ClosingTail(trailing, close, NextItem(s, close).value.rest)
  {
    assert s == [s[0]] + s[1..];
    if s[0] == ',' {
      var w := BlankFound(s[1..]);
      var more := SkipWhitespaces(s[1..]).value;
      assert more == [close] + more[1..];
      trailing := Some(w);
    } else {
      trailing := None;
    }
  }

  lemma MoreFound(s: string, close: char) returns (w: string)
    requires NextItem(s, close).Ok? && NextItem(s, close).value.More?
    ensures Blank(w) && s == "," + (w + NextItem(s, close).value.rest)
    ensures NextItem(s, close).value.rest != [] && !IsWhitespace(NextItem(s, close).value.rest[0])
  {
    assert s == [s[0]] + s[1..];
    w := BlankFound(s[1..]);
  }

  /** The white space before the first item is not part of the items. */
  lemma FirstBlankIsFree<I>(items: seq<Spaced<I>>, w: string, trailing: Option<string>, close: char, render: (I, string) -> string, rest: string)
    requires items != []
    ensures RenderItems(items[0 := Spaced(w, items[0].item)], trailing, close, render, rest) == RenderItems(items, trailing, close, render, rest)
  {
    var changed := items[0 := Spaced(w, items[0].item)];
    assert changed[1..] == items[1..];
  }

  lemma MoreItems<I>(before: string, item: I, w: string, others: seq<Spaced<I>>, trailing: Option<string>, close: char, render: (I, string) -> string, rest: string)
    requires others != []
    ensures var items := [Spaced(before, item)] + others[0 := Spaced(w, others[0].item)];
      RenderItems(items, trailing, close, render, rest)
      == render(item, "," + (w + RenderItems(others, trailing, close, render, rest)))
  {
    var changed := others[0 := Spaced(w, others[0].item)];
    var items := [Spaced(before, item)] + changed;
    FirstBlankIsFree(others, w, trailing, close, render, rest);
    assert items[1..] == changed;
  }

  lemma StartsBlank(w: string, t: string)
    requires Blank(w) && w != []
    ensures IsWhitespace((w + t)[0])
  {
    assert (w + t)[0] == w[0];
  }

  lemma NoBlank(w: string, s: string, t: string)
    requires Blank(w) && s == w + t && s != [] && !IsWhitespace(s[0])
    ensures s == t
  {
    if w != [] {
      StartsBlank(w, t);
    }
  }

  lemma {:induction false} PairsFound(s: string) returns (pairs: seq<Spaced<PairText>>, trailing: Option<string>)
    requires ParseItems(s, ParsePair, ']').Ok?
    ensures ValidValue(CompoundText(pairs, trailing)) && PairMeanings(pairs) == ParseItems(s, ParsePair, ']').value.value
    ensures s == pairs[0].before + RenderItems(pairs, trailing, ']', RenderPair, ParseItems(s, ParsePair, ']').value.rest)
    decreases |s|
  {
    hide ParsePair, RenderPair, NextItem;
    var all := ParseItems(s, ParsePair, ']').value;
    var before, p := PairFound(s);
    var tail := ParsePair(s).value.rest;
    var next := NextItem(tail, ']').value;
    match next
    case Stop(rest) =>
      trailing := ClosingFound(tail, ']');
      pairs := [Spaced(before, p)];
    case More(rest) =>
      var w := MoreFound(tail, ']');
      var others: seq<Spaced<PairText>>;
      others, trailing := PairsFound(rest);
      NoBlank(others[0].before, rest, RenderItems(others, trailing, ']', RenderPair, all.rest));
      MoreItems(before, p, w, others, trailing, ']', RenderPair, all.rest);
      pairs := [Spaced(before, p)] + others[0 := Spaced(w, others[0].item)];
  }

  lemma {:induction false} DimensionsFound(s: string) returns (dimensions: seq<Spaced<DimensionText>>, trailing: Option<string>)
    requires ParseItems(s, ParseDimension, ')').Ok?
    ensures ValidValue(ShapeText(dimensions, trailing)) && DimensionMeanings(dimensions) == ParseItems(s, ParseDimension, ')').value.value
    ensures s == dimensions[0].before + RenderItems(dimensions, trailing, ')', RenderDimension, ParseItems(s, ParseDimension, ')').value.rest)
    decreases |s|
  {
    hide ParseDimension, RenderDimension, NextItem;
    var all := ParseItems(s, ParseDimension, ')').value;
    var before, d := DimensionFound(s);
    var tail := ParseDimension(s).value.rest;
    var next := NextItem(tail, ')').value;
    match next
    case Stop(rest) =>
      trailing := ClosingFound(tail, ')');
      dimensions := [Spaced(before, d)];
    case More(rest) =>
      var w := MoreFound(tail, ')');
      var others: seq<Spaced<DimensionText>>;
      others, trailing := DimensionsFound(rest);
      NoBlank(others[0].before, rest, RenderItems(others, trailing, ')', RenderDimension, all.rest));
      MoreItems(before, d, w, others, trailing, ')', RenderDimension, all.rest);
      dimensions := [Spaced(before, d)] + others[0 := Spaced(w, others[0].item)];
  }

  lemma {:induction false} WordFound(s: string, word: string)
    requires ExpectsAll(s, word).Ok?
    ensures s == word + ExpectsAll(s, word).value
  {
    if word != [] {
      WordFound(s[1..], word[1..]);
      assert s == [s[0]] + s[1..] && word == [word[0]] + word[1..];
    }
  }

  lemma ValueFound(key: string, s: string) returns (v: ValueText)
    requires ParseValue(key, s).Ok?
    ensures ValidValue(v) && KeyOf(v) == key && s == RenderValue(v, ParseValue(key, s).value.rest)
    ensures EntryMeaning(EntryText('"', "", "", v, "")) == ParseValue(key, s).value.value
  {
    hide ParseItems, RenderItems, RenderQuoted, ParseString, ExpectsAll;
    assert s == [s[0]] + s[1..];
    if key == "descr" {
      if s[0] == '[' {
        var pairs, trailing := PairsFound(s[1..]);
        v := CompoundText(pairs, trailing);
      } else {
        var q := QuotedFound(s);
        v := ScalarText(q);
      }
    } else if key == "fortran_order" {
      if s[0] == 'T' {
        WordFound(s[1..], "rue");
        v := OrderText(true);
        assert s == "True" + ParseValue(key, s).value.rest;
      } else {
        WordFound(s[1..], "alse");
        v := OrderText(false);
        assert s == "False" + ParseValue(key, s).value.rest;
      }
    } else {
      var dimensions, trailing := DimensionsFound(s[1..]);
      v := ShapeText(dimensions, trailing);
    }
  }

  lemma EntryFound(s: string) returns (e: EntryText)
    requires ParseEntry(s).Ok?
    ensures ValidEntry(e) && EntryMeaning(e) == ParseEntry(s).value.value && s == RenderEntry(e, ParseEntry(s).value.rest)
  {
    hide ParseValue, RenderValue, RenderQuoted, ParseString, SkipWhitespaces, NpyParser.Expects, ValidValue, KeyOf;
    var key := QuotedFound(s);
    var afterKey := ParseString(s).value.rest;
    var w0 := BlankFound(afterKey);
    var colon := SkipWhitespaces(afterKey).value;
    ExpectedFound(colon, ':');
    var afterColon := NpyParser.Expects(colon, ':').value;
    var w1 := BlankFound(afterColon);
    var valueText := SkipWhitespaces(afterColon).value;
    var v := ValueFound(key.text, valueText);
    var after := BlankFound(ParseValue(key.text, valueText).value.rest);
    e := EntryText(key.quote, w0, w1, v, after);
  }

  ghost predicate ValidEntries(entries: seq<Spaced<EntryText>>, trailing: Option<string>) {
    && entries != [] && (forall i :: 0 <= i < |entries| ==> Blank(entries[i].before) && ValidEntry(entries[i].item))
    && (trailing.Some? ==> Blank(trailing.value))
  }

  lemma {:induction false} EntriesFound(s: string) returns (entries: seq<Spaced<EntryText>>, trailing: Option<string>)
    requires ParseItems(s, ParseEntry, '}').Ok?
    ensures ValidEntries(entries, trailing) && EntryMeanings(entries) == ParseItems(s, ParseEntry, '}').value.value
    ensures s == RenderItems(entries, trailing, '}', RenderEntry, ParseItems(s, ParseEntry, '}').value.rest)
    decreases |s|
  {
    hide ParseEntry, RenderEntry, NextItem, ValidEntry, EntryMeaning;
    var all := ParseItems(s, ParseEntry, '}').value;
    var e := EntryFound(s);
    var tail := ParseEntry(s).value.rest;
    var next := NextItem(tail, '}').value;
    match next
    case Stop(rest) =>
      trailing := ClosingFound(tail, '}');
      entries := [Spaced("", e)];
    case More(rest) =>
      var w := MoreFound(tail, '}');
      var others: seq<Spaced<EntryText>>;
      others, trailing := EntriesFound(rest);
      MoreItems("", e, w, others, trailing, '}', RenderEntry, all.rest);
      entries := [Spaced("", e)] + others[0 := Spaced(w, others[0].item)];
  }

  /** Every accepted text is a layout of the header it is read as. */
  lemma OnlyLayoutsAreRead(s: string) returns (t: HeaderText)
    requires ParseHeader(s).Ok?
    ensures ValidText(t) && Meaning(t) == ParseHeader(s).value.value
    ensures s == RenderHeader(t, ParseHeader(s).value.rest)
  {
    hide ParseItems, RenderItems, ParseEntry, RenderEntry, SkipWhitespaces, NpyParser.Expects, Collect, ValidEntry, EntryMeaning;
    var before := BlankFound(s);
    var opening := SkipWhitespaces(s).value;
    ExpectedFound(opening, '{');
    var inside := NpyParser.Expects(opening, '{').value;
    var w := BlankFound(inside);
    var first := SkipWhitespaces(inside).value;
    var rest := ParseHeader(s).value.rest;
    var entries, trailing := EntriesFound(first);
    FirstBlankIsFree(entries, w, trailing, '}', RenderEntry, rest);
    var all := entries[0 := Spaced(w, entries[0].item)];
    assert EntryMeanings(all) == EntryMeanings(entries);
    t := HeaderText(before, all, trailing);
  }

  /** A text is read as a header exactly if it is one of its layouts, with the
      rest behind it. */
  lemma ReadExactlyIfLayout(s: string, h: Header, rest: string)
    ensures ParseHeader(s) == Ok(Parsed(h, rest)) <==> exists t :: ValidText(t) && Meaning(t) == h && s == RenderHeader(t, rest)
  {
    hide ParseHeader, RenderHeader, ValidText;
    if ParseHeader(s) == Ok(Parsed(h, rest)) {
      var t := OnlyLayoutsAreRead(s);
    }
    forall t | ValidText(t) && Meaning(t) == h && s == RenderHeader(t, rest) ensures ParseHeader(s) == Ok(Parsed(h, rest)) {
      LayoutDoesNotMatter(t, rest);
    }
  }
}
