/** The dictionary literal in the header of a NPY file, and what its parser
    makes of a text: a value and the text that is left, or an error. */
module NpyParser {
  import opened Wrappers

  /** A field of a compound type. */
  datatype Field = Field(name: string, format: string)

  datatype DataType = Scalar(format: string) | Compound(fields: seq<Field>)

  datatype Header = Header(typeDescriptor: DataType, fortranOrder: bool, shape: seq<nat>)

  datatype Parsed<+T> = Parsed(value: T, rest: string)

  const USIZE_MAX := 0xffff_ffff_ffff_ffff

  predicate IsWhitespace(c: char) {
    c == ' ' || c == '\t' || c as int == 0x0C
  }

  predicate IsDigit(c: char) {
    '0' <= c <= '9'
  }

  /** Everything after the white space; there has to be something. */
  function SkipWhitespaces(s: string): (r: Result<string>)
    ensures r.Ok? ==> 0 < |r.value| <= |s| && !IsWhitespace(r.value[0])
    ensures r.Err? ==> r.error == OutOfBounds
  {
    if s == [] then Err(OutOfBounds)
    else if IsWhitespace(s[0]) then SkipWhitespaces(s[1..])
    else Ok(s)
  }

  function Expects(s: string, c: char): (r: Result<string>)
    ensures r.Ok? <==> s != [] && s[0] == c
    ensures r.Ok? ==> r.value == s[1..]
  {
    if s == [] then Err(OutOfBounds)
    else if s[0] == c then Ok(s[1..])
    else Err(Serialization)
  }

  /** The text up to the closing quote. */
  function Until(s: string, quote: char): (r: Result<Parsed<string>>)
    ensures r.Ok? ==> |r.value.rest| < |s|
  {
    if s == [] then Err(OutOfBounds)
    else if s[0] == quote then Ok(Parsed("", s[1..]))
    else
      var r :- Until(s[1..], quote);
      Ok(Parsed([s[0]] + r.value, r.rest))
  }

  function ParseString(s: string): (r: Result<Parsed<string>>)
    ensures r.Ok? ==> |r.value.rest| < |s|
  {
    if s == [] then Err(OutOfBounds)
    else if s[0] == '\'' || s[0] == '"' then Until(s[1..], s[0])
    else Err(Serialization)
  }

  function TakeDigits(s: string): (r: Result<Parsed<string>>)
    ensures r.Ok? ==> |r.value.rest| + |r.value.value| == |s| && r.value.rest != []
  {
    if s == [] then Err(OutOfBounds)
    else if IsDigit(s[0]) then
      var r :- TakeDigits(s[1..]);
      Ok(Parsed([s[0]] + r.value, r.rest))
    else Ok(Parsed("", s))
  }

  /** The number that decimal digits stand for. */
  function DigitsValue(digits: string): int {
    if digits == [] then 0
    else 10 * DigitsValue(digits[..|digits| - 1]) + (digits[|digits| - 1] as int - '0' as int)
  }

  /** A number that fits in 64 bits. */
  function ParseInteger(s: string): (r: Result<Parsed<nat>>)
    ensures r.Ok? ==> 0 < |r.value.rest| < |s|
  {
    var digits :- TakeDigits(s);
    if digits.value == [] || !(0 <= DigitsValue(digits.value) <= USIZE_MAX) then Err(Serialization)
    else Ok(Parsed(DigitsValue(digits.value), digits.rest))
  }

  ghost predicate Shrinks<T(!new)>(item: string -> Result<Parsed<T>>) {
    forall s :: item(s).Ok? ==> 0 < |item(s).value.rest| < |s|
  }

  /** Whether another item follows. */
  datatype Next = More(rest: string) | Stop(rest: string)

  /** A comma and another item, or the closing character, which may have a comma
      before it. */
  function NextItem(s: string, close: char): (r: Result<Next>)
    ensures r.Ok? ==> |r.value.rest| < |s|
  {
    if s == [] then Err(OutOfBounds)
    else if s[0] == ',' then
      var more :- SkipWhitespaces(s[1..]);
      if more[0] == close then Ok(Stop(more[1..])) else Ok(More(more))
    else
      var rest :- Expects(s, close);
      Ok(Stop(rest))
  }

  /** One or more items with commas between them, perhaps a comma after the last
      one, and the closing character. */
  function ParseItems<T(!new)>(s: string, item: string -> Result<Parsed<T>>, close: char): (r: Result<Parsed<seq<T>>>)
    requires Shrinks(item)
    ensures r.Ok? ==> |r.value.rest| < |s| && r.value.value != []
    decreases |s|
  {
    var first :- item(s);
    var next :- NextItem(first.rest, close);
    match next
    case Stop(rest) => Ok(Parsed([first.value], rest))
    case More(rest) =>
      var others :- ParseItems(rest, item, close);
      Ok(Parsed([first.value] + others.value, others.rest))
  }

  /** `(name, format)` with the white space around it. */
  function ParsePair(s: string): (r: Result<Parsed<Field>>)
    ensures r.Ok? ==> 0 < |r.value.rest| < |s|
  {
    var opening :- SkipWhitespaces(s);
    var inside :- Expects(opening, '(');
    var nameText :- SkipWhitespaces(inside);
    var name :- ParseString(nameText);
    var comma :- SkipWhitespaces(name.rest);
    var afterComma :- Expects(comma, ',');
    var formatText :- SkipWhitespaces(afterComma);
    var format :- ParseString(formatText);
    var closing :- SkipWhitespaces(format.rest);
    var after :- Expects(closing, ')');
    var rest :- SkipWhitespaces(after);
    Ok(Parsed(Field(name.value, format.value), rest))
  }

  function ParseDataType(s: string): (r: Result<Parsed<DataType>>)
    ensures r.Ok? ==> |r.value.rest| < |s|
  {
    if s == [] then Err(OutOfBounds)
    else if s[0] == '\'' || s[0] == '"' then
      var format :- ParseString(s);
      Ok(Parsed(Scalar(format.value), format.rest))
    else if s[0] == '[' then
      var fields :- ParseItems(s[1..], ParsePair, ']');
      Ok(Parsed(Compound(fields.value), fields.rest))
    else Err(Serialization)
  }

  /** All characters of `word`, one after the other. */
  function ExpectsAll(s: string, word: string): (r: Result<string>)
    ensures r.Ok? ==> |r.value| + |word| == |s|
  {
    if word == [] then Ok(s)
    else
      var rest :- Expects(s, word[0]);
      ExpectsAll(rest, word[1..])
  }

  function ParseBool(s: string): (r: Result<Parsed<bool>>)
    ensures r.Ok? ==> |r.value.rest| < |s|
  {
    if s == [] then Err(OutOfBounds)
    else if s[0] == 'T' then
      var rest :- ExpectsAll(s[1..], "rue");
      Ok(Parsed(true, rest))
    else if s[0] == 'F' then
      var rest :- ExpectsAll(s[1..], "alse");
      Ok(Parsed(false, rest))
    else Err(Serialization)
  }

  /** A number with the white space around it. */
  function ParseDimension(s: string): (r: Result<Parsed<nat>>)
    ensures r.Ok? ==> 0 < |r.value.rest| < |s|
  {
    var digits :- SkipWhitespaces(s);
    var n :- ParseInteger(digits);
    var rest :- SkipWhitespaces(n.rest);
    Ok(Parsed(n.value, rest))
  }

  function ParseShape(s: string): (r: Result<Parsed<seq<nat>>>)
    ensures r.Ok? ==> |r.value.rest| < |s|
  {
    var inside :- Expects(s, '(');
    ParseItems(inside, ParseDimension, ')')
  }

  /** One entry of the dictionary. */
  datatype Entry = Descr(dataType: DataType) | FortranOrder(order: bool) | Shape(shape: seq<nat>)

  function ParseValue(key: string, s: string): (r: Result<Parsed<Entry>>)
    ensures r.Ok? ==> |r.value.rest| < |s|
  {
    if key == "descr" then
      var dataType :- ParseDataType(s);
      Ok(Parsed(Descr(dataType.value), dataType.rest))
    else if key == "fortran_order" then
      var order :- ParseBool(s);
      Ok(Parsed(FortranOrder(order.value), order.rest))
    else if key == "shape" then
      var shape :- ParseShape(s);
      Ok(Parsed(Shape(shape.value), shape.rest))
    else Err(Serialization)
  }

  /** `key: value` with the white space after it. */
  function ParseEntry(s: string): (r: Result<Parsed<Entry>>)
    ensures r.Ok? ==> 0 < |r.value.rest| < |s|
  {
    var key :- ParseString(s);
    var colon :- SkipWhitespaces(key.rest);
    var afterColon :- Expects(colon, ':');
    var valueText :- SkipWhitespaces(afterColon);
    var value :- ParseValue(key.value, valueText);
    var rest :- SkipWhitespaces(value.rest);
    Ok(Parsed(value.value, rest))
  }

  /** What the entries say so far; a repeated key replaces the earlier value. */
  datatype Found = Found(descr: Option<DataType>, order: Option<bool>, shape: Option<seq<nat>>) {
    function With(e: Entry): Found {
      match e
      case Descr(d) => this.(descr := Some(d))
      case FortranOrder(o) => this.(order := Some(o))
      case Shape(s) => this.(shape := Some(s))
    }

    function Finish(): Result<Header> {
      if descr.Some? && order.Some? && shape.Some? then Ok(Header(descr.value, order.value, shape.value))
      else Err(Serialization)
    }
  }

  const NOTHING := Found(None, None, None)

  function Collect(entries: seq<Entry>): Found {
    if entries == [] then NOTHING else Collect(entries[..|entries| - 1]).With(entries[|entries| - 1])
  }

  /** The header that a text stands for, and what comes after it. */
  function ParseHeader(s: string): Result<Parsed<Header>> {
    var opening :- SkipWhitespaces(s);
    var inside :- Expects(opening, '{');
    var first :- SkipWhitespaces(inside);
    var entries :- ParseItems(first, ParseEntry, '}');
    var header :- Collect(entries.value).Finish();
    Ok(Parsed(header, entries.rest))
  }
}
