/** The parser of NPY headers as it runs: a position that moves over the
    characters, and buffers that grow. */
module HeaderParsers {
  import opened Wrappers
  import opened NpyParser

  /** A method returns the value that its specification finds, and stops at the
      text that the specification leaves. */
  ghost predicate Follows<T>(wanted: Result<Parsed<T>>, r: Result<T>, rest: string) {
    match wanted
    case Ok(parsed) => r == Ok(parsed.value) && rest == parsed.rest
    case Err(e) => r == Err(e)
  }

  ghost predicate Reaches(wanted: Result<string>, r: Result<()>, rest: string) {
    match wanted
    case Ok(text) => r == Ok(()) && rest == text
    case Err(e) => r == Err(e)
  }

  ghost predicate GoesOn(wanted: Result<Next>, r: Result<bool>, rest: string) {
    match wanted
    case Ok(next) => r == Ok(next.More?) && rest == next.rest
    case Err(e) => r == Err(e)
  }

  /** What is still found after `before` was read already. */
  ghost function After(before: string, found: Result<Parsed<string>>): Result<Parsed<string>> {
    match found
    case Ok(parsed) => Ok(Parsed(before + parsed.value, parsed.rest))
    case Err(e) => Err(e)
  }

  ghost function AfterItems<T>(before: seq<T>, found: Result<Parsed<seq<T>>>): Result<Parsed<seq<T>>> {
    match found
    case Ok(parsed) => Ok(Parsed(before + parsed.value, parsed.rest))
    case Err(e) => Err(e)
  }

  lemma AfterNothing(found: Result<Parsed<string>>)
    ensures After("", found) == found
  {
    if found.Ok? {
      assert "" + found.value.value == found.value.value;
    }
  }

  lemma AfterMore(before: string, c: char, found: Result<Parsed<string>>)
    ensures After(before, After([c], found)) == After(before + [c], found)
  {
    if found.Ok? {
      assert before + ([c] + found.value.value) == before + [c] + found.value.value;
    }
  }

  lemma AfterNoItems<T>(found: Result<Parsed<seq<T>>>)
    ensures AfterItems([], found) == found
  {
    if found.Ok? {
      assert [] + found.value.value == found.value.value;
    }
  }

  /** One round of the loop over the items of a list. */
  lemma OneMoreItem<T(!new)>(before: seq<T>, s: string, item: string -> Result<Parsed<T>>, close: char)
    requires Shrinks(item)
    ensures item(s).Err? ==> ParseItems(s, item, close) == Err(item(s).error)
    ensures item(s).Ok? ==>
      var first, next := item(s).value, NpyParser.NextItem(item(s).value.rest, close);
      var all := AfterItems(before, ParseItems(s, item, close));
      && (next.Err? ==> all == Err(next.error))
      && (next.Ok? && next.value.Stop? ==> all == Ok(Parsed(before + [first.value], next.value.rest)))
      && (next.Ok? && next.value.More? ==> all == AfterItems(before + [first.value], ParseItems(next.value.rest, item, close)))
  {
    if item(s).Ok? {
      var first := item(s).value;
      var next := NpyParser.NextItem(first.rest, close);
      if next.Ok? && next.value.More? && ParseItems(next.value.rest, item, close).Ok? {
        var others := ParseItems(next.value.rest, item, close).value.value;
        assert before + ([first.value] + others) == before + [first.value] + others;
      }
    }
  }

  ghost predicate FollowsFound(wanted: Result<Parsed<seq<Entry>>>, r: Result<Found>, rest: string) {
    match wanted
    case Ok(parsed) => r == Ok(Collect(parsed.value)) && rest == parsed.rest
    case Err(e) => r == Err(e)
  }

  lemma NothingCollected()
    ensures Collect([]) == NOTHING
  {}

  lemma CollectMore(entries: seq<Entry>, entry: Entry)
    ensures Collect(entries + [entry]) == Collect(entries).With(entry)
  {
    assert (entries + [entry])[..|entries|] == entries;
  }

  lemma ExpectsOneLetter(s: string, c: char)
    ensures ExpectsAll(s, [c]) == NpyParser.Expects(s, c)
  {
    assert [c][1..] == [];
  }

  /** A word is read letter by letter. */
  lemma ExpectsLetters(s: string, a: char, b: char, c: char)
    ensures ExpectsAll(s, [a, b, c]) ==
      var first := NpyParser.Expects(s, a);
      if first.Err? then first
      else
        var second := NpyParser.Expects(first.value, b);
        if second.Err? then second else NpyParser.Expects(second.value, c)
  {
    assert [a, b, c][1..] == [b, c] && [b, c][1..] == [c];
    var first := NpyParser.Expects(s, a);
    if first.Ok? {
      var second := NpyParser.Expects(first.value, b);
      if second.Ok? {
        assert ExpectsAll(first.value, [b, c]) == ExpectsAll(second.value, [c]);
        ExpectsOneLetter(second.value, c);
      }
    }
  }

  lemma ExpectsFourLetters(s: string, a: char, b: char, c: char, d: char)
    ensures ExpectsAll(s, [a, b, c, d]) ==
      var first := NpyParser.Expects(s, a);
      if first.Err? then first else ExpectsAll(first.value, [b, c, d])
  {
    assert [a, b, c, d][1..] == [b, c, d];
  }

  class HeaderParser {
    const data: string
    var position: nat

    ghost predicate Valid()
      reads this
    {
      position <= |data|
    }

    /** What is left to read. */
    ghost function Rest(): string
      requires Valid()
      reads this
    {
      data[position..]
    }

    constructor (value: string)
      ensures Valid() && Rest() == value
    {
      data, position := value, 0;
    }

    predicate Done()
      reads this
    {
      position >= |data|
    }

    function Current(): (r: Result<char>)
      requires Valid()
      reads this
      ensures r == if Rest() == [] then Err(OutOfBounds) else Ok(Rest()[0])
    {
      if position < |data| then Ok(data[position]) else Err(OutOfBounds)
    }

    /** Read one character; every caller has looked at it before. */
    method Advance() returns (value: char)
      requires Valid() && !Done()
      modifies this`position
      ensures Valid() && position == old(position) + 1
      ensures value == old(Rest())[0] && Rest() == old(Rest())[1..]
    {
      value := data[position];
      position := position + 1;
    }

    method Expects(c: char) returns (r: Result<()>)
      requires Valid()
      modifies this`position
      ensures Valid() && Reaches(NpyParser.Expects(old(Rest()), c), r, Rest())
    {
      var current :- Current();
      if current == c {
        var _ := Advance();
        return Ok(());
      } else {
        return Err(Serialization);
      }
    }

    method SkipWhitespaces() returns (r: Result<()>)
      requires Valid()
      modifies this`position
      ensures Valid() && Reaches(NpyParser.SkipWhitespaces(old(Rest())), r, Rest())
    {
      var c :- Current();
      while !Done() && IsWhitespace(c)
        invariant Valid() && Current() == Ok(c)
        invariant NpyParser.SkipWhitespaces(Rest()) == NpyParser.SkipWhitespaces(old(Rest()))
        decreases |data| - position
      {
        var _ := Advance();
        c :- Current();
      }
      return Ok(());
    }

    /** The characters up to the next `quote`, which is read as well. */
    method ReadUntil(quote: char) returns (r: Result<string>)
      requires Valid()
      modifies this`position
      ensures Valid() && Follows(Until(old(Rest()), quote), r, Rest())
    {
      var value := "";
      AfterNothing(Until(Rest(), quote));
      var current :- Current();
      while current != quote
        invariant Valid() && Current() == Ok(current)
        invariant Until(old(Rest()), quote) == After(value, Until(Rest(), quote))
        decreases |data| - position
      {
        AfterMore(value, current, Until(Rest()[1..], quote));
        var c := Advance();
        value := value + [c];
        current :- Current();
      }
      assert value + "" == value;
      var _ := Advance();
      return Ok(value);
    }

    method ParseString() returns (r: Result<string>)
      requires Valid()
      modifies this`position
      ensures Valid() && Follows(NpyParser.ParseString(old(Rest())), r, Rest())
    {
      var current :- Current();
      if current == '\'' {
        var _ := Advance();
        r := ReadUntil('\'');
      } else if current == '"' {
        var _ := Advance();
        r := ReadUntil('"');
      } else {
        return Err(Serialization);
      }
    }

    method ParseInteger() returns (r: Result<nat>)
      requires Valid()
      modifies this`position
      ensures Valid() && Follows(NpyParser.ParseInteger(old(Rest())), r, Rest())
    {
      var value := "";
      AfterNothing(TakeDigits(Rest()));
      var current :- Current();
      while IsDigit(current)
        invariant Valid() && Current() == Ok(current)
        invariant TakeDigits(old(Rest())) == After(value, TakeDigits(Rest()))
        decreases |data| - position
      {
        AfterMore(value, current, TakeDigits(Rest()[1..]));
        var c := Advance();
        value := value + [c];
        current :- Current();
      }
      assert TakeDigits(Rest()) == Ok(Parsed("", Rest()));
      assert value + "" == value;
      if value == "" {
        return Err(Serialization);
      }
      var n := DigitsValue(value);
      if n < 0 || n > USIZE_MAX {
        return Err(Serialization);
      }
      return Ok(n);
    }

    /** `(name, format)` with the white space around it. */
    method ParsePair() returns (r: Result<Field>)
      requires Valid()
      modifies this`position
      ensures Valid() && Follows(NpyParser.ParsePair(old(Rest())), r, Rest())
    {
      var _ :- SkipWhitespaces();
      var _ :- Expects('(');
      var _ :- SkipWhitespaces();
      var name :- ParseString();
      var _ :- SkipWhitespaces();
      var _ :- Expects(',');
      var _ :- SkipWhitespaces();
      var format :- ParseString();
      var _ :- SkipWhitespaces();
      var _ :- Expects(')');
      var _ :- SkipWhitespaces();
      return Ok(Field(name, format));
    }

    /** What comes after an item: whether the list goes on. */
    method NextItem(close: char) returns (r: Result<bool>)
      requires Valid() && !Done()
      modifies this`position
      ensures Valid() && GoesOn(NpyParser.NextItem(old(Rest()), close), r, Rest())
    {
      if data[position] == ',' {
        var _ := Advance();
        var _ :- SkipWhitespaces();
      } else {
        var _ :- Expects(close);
        return Ok(false);
      }
      if data[position] == close {
        var _ := Advance();
        return Ok(false);
      }
      return Ok(true);
    }

    /** The fields of a compound type, after the opening bracket. */
    method ParseFields() returns (r: Result<seq<Field>>)
      requires Valid()
      modifies this`position
      ensures Valid() && Follows(ParseItems(old(Rest()), NpyParser.ParsePair, ']'), r, Rest())
    {
      hide ParseItems;
      ghost var all := ParseItems(Rest(), NpyParser.ParsePair, ']');
      var fields: seq<Field> := [];
      var more := true;
      AfterNoItems(all);
      while more
        invariant Valid()
        invariant more ==> all == AfterItems(fields, ParseItems(Rest(), NpyParser.ParsePair, ']'))
        invariant !more ==> all == Ok(Parsed(fields, Rest()))
        decreases |data| - position, more
      {
        OneMoreItem(fields, Rest(), NpyParser.ParsePair, ']');
        var field :- ParsePair();
        fields := fields + [field];
        more :- NextItem(']');
      }
      return Ok(fields);
    }

    method ParseDataType() returns (r: Result<DataType>)
      requires Valid()
      modifies this`position
      ensures Valid() && Follows(NpyParser.ParseDataType(old(Rest())), r, Rest())
    {
      var current :- Current();
      if current == '\'' || current == '"' {
        var format :- ParseString();
        return Ok(Scalar(format));
      } else if current == '[' {
        var _ := Advance();
        var fields :- ParseFields();
        return Ok(Compound(fields));
      } else {
        return Err(Serialization);
      }
    }

    method ParseBool() returns (r: Result<bool>)
      requires Valid()
      modifies this`position
      ensures Valid() && Follows(NpyParser.ParseBool(old(Rest())), r, Rest())
    {
      var current :- Current();
      if current == 'T' {
        var _ := Advance();
        ExpectsLetters(Rest(), 'r', 'u', 'e');
        var _ :- Expects('r');
        var _ :- Expects('u');
        var _ :- Expects('e');
        return Ok(true);
      } else if current == 'F' {
        var _ := Advance();
        ExpectsFourLetters(Rest(), 'a', 'l', 's', 'e');
        ExpectsLetters(Rest()[if Rest() == [] then 0 else 1..], 'l', 's', 'e');
        var _ :- Expects('a');
        var _ :- Expects('l');
        var _ :- Expects('s');
        var _ :- Expects('e');
        return Ok(false);
      } else {
        return Err(Serialization);
      }
    }

    /** A number with the white space around it. */
    method ParseDimension() returns (r: Result<nat>)
      requires Valid()
      modifies this`position
      ensures Valid() && Follows(NpyParser.ParseDimension(old(Rest())), r, Rest())
    {
      var _ :- SkipWhitespaces();
      var n :- ParseInteger();
      var _ :- SkipWhitespaces();
      return Ok(n);
    }

    method ParseShape() returns (r: Result<seq<nat>>)
      requires Valid()
      modifies this`position
      ensures Valid() && Follows(NpyParser.ParseShape(old(Rest())), r, Rest())
    {
      hide ParseItems;
      var shape: seq<nat> := [];
      var _ :- Expects('(');
      ghost var all := ParseItems(Rest(), NpyParser.ParseDimension, ')');
      var more := true;
      AfterNoItems(all);
      while more
        invariant Valid()
        invariant more ==> all == AfterItems(shape, ParseItems(Rest(), NpyParser.ParseDimension, ')'))
        invariant !more ==> all == Ok(Parsed(shape, Rest()))
        decreases |data| - position, more
      {
        OneMoreItem(shape, Rest(), NpyParser.ParseDimension, ')');
        var n :- ParseDimension();
        shape := shape + [n];
        more :- NextItem(')');
      }
      return Ok(shape);
    }

    /** The value of a key. */
    method ParseValue(key: string) returns (r: Result<Entry>)
      requires Valid()
      modifies this`position
      ensures Valid() && Follows(NpyParser.ParseValue(key, old(Rest())), r, Rest())
    {
      if key == "descr" {
        var dataType :- ParseDataType();
        return Ok(Descr(dataType));
      } else if key == "fortran_order" {
        var order :- ParseBool();
        return Ok(FortranOrder(order));
      } else if key == "shape" {
        var shape :- ParseShape();
        return Ok(Shape(shape));
      } else {
        return Err(Serialization);
      }
    }

    /** One entry of the dictionary, with the white space after it. */
    method ParseEntry() returns (r: Result<Entry>)
      requires Valid()
      modifies this`position
      ensures Valid() && Follows(NpyParser.ParseEntry(old(Rest())), r, Rest())
    {
      var key :- ParseString();
      var _ :- SkipWhitespaces();
      var _ :- Expects(':');
      var _ :- SkipWhitespaces();
      var entry :- ParseValue(key);
      var _ :- SkipWhitespaces();
      return Ok(entry);
    }

    /** The entries of the dictionary, after the opening brace. */
    method ParseEntries() returns (r: Result<Found>)
      requires Valid()
      modifies this`position
      ensures Valid() && FollowsFound(ParseItems(old(Rest()), NpyParser.ParseEntry, '}'), r, Rest())
    {
      hide ParseItems, Collect, NpyParser.ParseEntry;
      NothingCollected();
      var typeDescriptor: Option<DataType>, fortranOrder: Option<bool>, shape: Option<seq<nat>> := None, None, None;
      ghost var all := ParseItems(Rest(), NpyParser.ParseEntry, '}');
      ghost var entries: seq<Entry> := [];
      var more := true;
      AfterNoItems(all);
      while more
        invariant Valid() && Found(typeDescriptor, fortranOrder, shape) == Collect(entries)
        invariant more ==> all == AfterItems(entries, ParseItems(Rest(), NpyParser.ParseEntry, '}'))
        invariant !more ==> all == Ok(Parsed(entries, Rest()))
        decreases |data| - position, more
      {
        OneMoreItem(entries, Rest(), NpyParser.ParseEntry, '}');
        var entry :- ParseEntry();
        match entry {
          case Descr(d) => typeDescriptor := Some(d);
          case FortranOrder(o) => fortranOrder := Some(o);
          case Shape(s) => shape := Some(s);
        }
        CollectMore(entries, entry);
        entries := entries + [entry];
        more :- NextItem('}');
      }
      return Ok(Found(typeDescriptor, fortranOrder, shape));
    }

    /** Read the whole literal; characters after it do not matter. */
    method Parse() returns (r: Result<Header>)
      requires Valid()
      modifies this`position
      ensures Valid() && Follows(ParseHeader(old(Rest())), r, Rest())
    {
      hide ParseItems;
      var _ :- SkipWhitespaces();
      var _ :- Expects('{');
      var _ :- SkipWhitespaces();
      var found :- ParseEntries();
      if found.descr.None? || found.order.None? || found.shape.None? {
        return Err(Serialization);
      }
      return Ok(Header(found.descr.value, found.order.value, found.shape.value));
    }
  }
}
