/**
 Decoding JSON text, by the grammar of RFC 8259, with the hooks of `loads_strict_json` in `strict_json.py`:
 integers through `_decimal_integer`, duplicate keys refused by `_unique_object`, non-finite numbers refused.
 */
module JsonDecoder {
  import opened CanonicalJson
  import opened PythonText
  import opened Wrappers

  /** A decoded part and the text after it. */
  datatype Parsed<+T> = Parsed(value: T, rest: string)

  // ---------------------------------------------------------------------------
  // Hooks
  // ---------------------------------------------------------------------------

  /** What `_decimal_integer` computes. */
  function IntegerValue(token: string): int {
    if token != "" && token[0] == '-' then -DigitsValue(token[1..]) else DigitsValue(token)
  }

  /** `_decimal_integer`. */
  method DecimalInteger(value: string) returns (result: int)
    ensures result == IntegerValue(value)
  {
    var negative := value != "" && value[0] == '-';
    var digits := if negative then value[1..] else value;
    result := 0;
    for i := 0 to |digits|
      invariant result == DigitsValue(digits[..i])
    {
      assert digits[..i + 1][..i] == digits[..i];
      result := result * 10 + (digits[i] as int - '0' as int);
    }
    assert digits[..|digits|] == digits;
    result := if negative then -result else result;
  }

  predicate HasKey(entries: seq<Entry>, key: Key) {
    exists i :: 0 <= i < |entries| && entries[i].key == key
  }

  predicate DistinctKeys(entries: seq<Entry>) {
    forall i, j :: 0 <= i < j < |entries| ==> entries[i].key != entries[j].key
  }

  /** `_unique_object`: the pairs in order, or a refusal. */
  method UniqueObject(pairs: seq<Entry>) returns (result: Option<seq<Entry>>)
    ensures result == if DistinctKeys(pairs) then Some(pairs) else None
  {
    var kept: seq<Entry> := [];
    for i := 0 to |pairs|
      invariant kept == pairs[..i] && DistinctKeys(kept)
    {
      if HasKey(kept, pairs[i].key) {
        ghost var j :| 0 <= j < i && kept[j].key == pairs[i].key;
        assert kept[j] == pairs[j];
        assert pairs[j].key == pairs[i].key;
        assert !DistinctKeys(pairs);
        return None;
      }
      kept := kept + [pairs[i]];
    }
    assert kept == pairs;
    return Some(kept);
  }

  // ---------------------------------------------------------------------------
  // Strings
  // ---------------------------------------------------------------------------

  /** The code unit that four hexadecimal digits at the start of t spell. */
  function Hex4(t: string): Option<int> {
    if |t| >= 4 && IsHex(t[0]) && IsHex(t[1]) && IsHex(t[2]) && IsHex(t[3]) then
      Some(HexValue(t[0]) * 4096 + HexValue(t[1]) * 256 + HexValue(t[2]) * 16 + HexValue(t[3]))
    else None
  }

  /** The code unit of the `\u` escape at the start of t. */
  function UnitAt(t: string): (u: Option<int>)
    ensures u.Some? ==> |t| >= 6 && 0 <= u.value < 0x10000
  {
    if |t| >= 6 && t[0] == '\\' && t[1] == 'u' then Hex4(t[2..]) else None
  }

  function ShortEscape(c: char): Option<Code> {
    if c == '"' then Some(0x22)
    else if c == '\\' then Some(0x5C)
    else if c == '/' then Some(0x2F)
    else if c == 'b' then Some(0x08)
    else if c == 'f' then Some(0x0C)
    else if c == 'n' then Some(0x0A)
    else if c == 'r' then Some(0x0D)
    else if c == 't' then Some(0x09)
    else None
  }

  function Prepend(c: Code, tail: Option<Parsed<Text>>): Option<Parsed<Text>> {
    match tail
    case None => None
    case Some(p) => Some(Parsed([c] + p.value, p.rest))
  }

  /** A string body up to its closing quote; an escaped surrogate pair is one code point. */
  function ParseText(t: string): (r: Option<Parsed<Text>>)
    ensures r.Some? ==> |r.value.rest| < |t|
    decreases |t|
  {
    if t == "" then None
    else if t[0] == '"' then Some(Parsed([], t[1..]))
    else if t[0] == '\\' then
      if UnitAt(t).Some? then
        var u := UnitAt(t).value;
        var rest := t[6..];
        if High(u) && UnitAt(rest).Some? && Low(UnitAt(rest).value) then
          Prepend(Combine(u, UnitAt(rest).value), ParseText(rest[6..]))
        else Prepend(u, ParseText(rest))
      else if |t| >= 2 && ShortEscape(t[1]).Some? then
        Prepend(ShortEscape(t[1]).value, ParseText(t[2..]))
      else None
    else if t[0] < ' ' then None
    else Prepend(CharCode(t[0]), ParseText(t[1..]))
  }

  // ---------------------------------------------------------------------------
  // Numbers
  // ---------------------------------------------------------------------------

  /** How many digits t starts with. */
  function DigitRun(t: string): (n: nat)
    ensures n <= |t|
  {
    if t != "" && IsDigit(t[0]) then 1 + DigitRun(t[1..]) else 0
  }

  /** The length of a fraction at the start of t, or zero. */
  function FractionRun(t: string): (n: nat)
    ensures n <= |t|
  {
    if t != "" && t[0] == '.' && DigitRun(t[1..]) > 0 then 1 + DigitRun(t[1..]) else 0
  }

  function SignRun(t: string, signs: string): (n: nat)
    ensures n <= 1 && n <= |t|
  {
    if t != "" && t[0] in signs then 1 else 0
  }

  /** The length of an exponent at the start of t, or zero. */
  function ExponentRun(t: string): (n: nat)
    ensures n <= |t|
  {
    if t == "" || (t[0] != 'e' && t[0] != 'E') then 0
    else
      var mark := 1 + SignRun(t[1..], "+-");
      var digits := DigitRun(t[mark..]);
      if digits > 0 then mark + digits else 0
  }

  /** The length of the integer at the start of t, or zero. */
  function IntegerRun(t: string): (n: nat)
    ensures n <= |t|
  {
    var sign := SignRun(t, "-");
    var digits := DigitRun(t[sign..]);
    if digits == 0 then 0
    else if t[sign] == '0' then sign + 1
    else sign + digits
  }

  /** A number token; a token with a fraction or an exponent goes to the float hook. */
  function ParseNumber(t: string, parseFloat: string -> Option<string>): (r: Option<Parsed<Value>>)
    ensures r.Some? ==> |r.value.rest| < |t|
  {
    var whole := IntegerRun(t);
    if whole == 0 then None
    else
      var fraction := FractionRun(t[whole..]);
      var exponent := ExponentRun(t[whole + fraction..]);
      var end := whole + fraction + exponent;
      if end == whole then Some(Parsed(Int(IntegerValue(t[..whole])), t[whole..]))
      else
        match parseFloat(t[..end])
        case None => None
        case Some(repr) => Some(Parsed(Float(repr), t[end..]))
  }

  // ---------------------------------------------------------------------------
  // Values
  // ---------------------------------------------------------------------------

  predicate IsBlank(c: char) {
    c == ' ' || c == '\t' || c == '\n' || c == '\r'
  }

  function SkipBlanks(t: string): (r: string)
    ensures |r| <= |t|
    ensures r != "" ==> !IsBlank(r[0])
  {
    if t != "" && IsBlank(t[0]) then SkipBlanks(t[1..]) else t
  }

  function ParseValue(t: string, parseFloat: string -> Option<string>): (r: Option<Parsed<Value>>)
    ensures r.Some? ==> |r.value.rest| < |t|
    decreases |t|, 2
  {
    if t == "" then None
    else if t[0] == '"' then
      match ParseText(t[1..])
      case None => None
      case Some(p) => Some(Parsed(Str(p.value), p.rest))
    else if t[0] == '[' then
      var inner := SkipBlanks(t[1..]);
      if inner != "" && inner[0] == ']' then Some(Parsed(List([]), inner[1..]))
      else
        match ParseItems(inner, parseFloat)
        case None => None
        case Some(p) => Some(Parsed(List(p.value), p.rest))
    else if t[0] == '{' then
      var inner := SkipBlanks(t[1..]);
      if inner != "" && inner[0] == '}' then Some(Parsed(Dict([]), inner[1..]))
      else
        match ParseEntries(inner, parseFloat)
        case None => None
        case Some(p) => if DistinctKeys(p.value) then Some(Parsed(Dict(p.value), p.rest)) else None
    else if "null" <= t then Some(Parsed(Null, t[4..]))
    else if "true" <= t then Some(Parsed(Bool(true), t[4..]))
    else if "false" <= t then Some(Parsed(Bool(false), t[5..]))
    else ParseNumber(t, parseFloat)
  }

  /** The items up to the closing bracket. */
  function ParseItems(t: string, parseFloat: string -> Option<string>): (r: Option<Parsed<seq<Value>>>)
    ensures r.Some? ==> |r.value.rest| < |t|
    decreases |t|, 3
  {
    match ParseValue(t, parseFloat)
    case None => None
    case Some(head) =>
      var after := SkipBlanks(head.rest);
      if after != "" && after[0] == ']' then Some(Parsed([head.value], after[1..]))
      else if after != "" && after[0] == ',' then
        match ParseItems(SkipBlanks(after[1..]), parseFloat)
        case None => None
        case Some(tail) => Some(Parsed([head.value] + tail.value, tail.rest))
      else None
  }

  function ParseEntry(t: string, parseFloat: string -> Option<string>): (r: Option<Parsed<Entry>>)
    ensures r.Some? ==> |r.value.rest| < |t|
    decreases |t|, 3
  {
    if t == "" || t[0] != '"' then None
    else
      match ParseText(t[1..])
      case None => None
      case Some(key) =>
        var colon := SkipBlanks(key.rest);
        if colon == "" || colon[0] != ':' then None
        else
          match ParseValue(SkipBlanks(colon[1..]), parseFloat)
          case None => None
          case Some(p) => Some(Parsed(Entry(StrKey(key.value), p.value), p.rest))
  }

  /** The entries up to the closing brace, before duplicates are refused. */
  function ParseEntries(t: string, parseFloat: string -> Option<string>): (r: Option<Parsed<seq<Entry>>>)
    ensures r.Some? ==> |r.value.rest| < |t|
    decreases |t|, 4
  {
    match ParseEntry(t, parseFloat)
    case None => None
    case Some(head) =>
      var after := SkipBlanks(head.rest);
      if after != "" && after[0] == '}' then Some(Parsed([head.value], after[1..]))
      else if after != "" && after[0] == ',' then
        match ParseEntries(SkipBlanks(after[1..]), parseFloat)
        case None => None
        case Some(tail) => Some(Parsed([head.value] + tail.value, tail.rest))
      else None
  }

  /** One document, with nothing but blanks around it. */
  function Decode(t: string, parseFloat: string -> Option<string>): Option<Value> {
    match ParseValue(SkipBlanks(t), parseFloat)
    case None => None
    case Some(p) => if SkipBlanks(p.rest) == "" then Some(p.value) else None
  }
}
