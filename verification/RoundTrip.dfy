/**
 Printing and decoding are inverse, in the hashed and in the stored form, exactly on the trees whose strings
 hold no split surrogate pair. Such trees therefore have equal texts only if they are equal.
 */
module RoundTrip {
  import opened CanonicalJson
  import opened JsonDecoder
  import opened PythonText
  import opened Wrappers

  // ---------------------------------------------------------------------------
  // Strings
  // ---------------------------------------------------------------------------

  /** What decoding makes of a string: a split surrogate pair comes back as one code point. */
  function Merge(s: Text): Text {
    if |s| < 2 then s
    else if High(s[0]) && Low(s[1]) then [Combine(s[0], s[1])] + Merge(s[2..])
    else [s[0]] + Merge(s[1..])
  }

  lemma {:induction false} MergeShrinks(s: Text)
    ensures |Merge(s)| <= |s|
    decreases |s|
  {
    if |s| >= 2 {
      MergeShrinks(s[1..]);
      MergeShrinks(s[2..]);
    }
  }

  lemma {:induction false} MergeFixed(s: Text)
    ensures Merge(s) == s <==> NoSplitPair(s)
    decreases |s|
  {
    if |s| >= 2 {
      if High(s[0]) && Low(s[1]) {
        MergeShrinks(s[2..]);
        assert |Merge(s)| < |s|;
      } else {
        MergeFixed(s[1..]);
        assert Merge(s)[1..] == Merge(s[1..]);
        if NoSplitPair(s[1..]) {
          forall i | 0 <= i < |s| - 1
            ensures !(High(s[i]) && Low(s[i + 1]))
          {
            assert i > 0 ==> s[i] == s[1..][i - 1] && s[i + 1] == s[1..][i];
          }
        }
        if NoSplitPair(s) {
          forall i | 0 <= i < |s[1..]| - 1
            ensures !(High(s[1..][i]) && Low(s[1..][i + 1]))
          {
            assert s[1..][i] == s[i + 1] && s[1..][i + 1] == s[i + 2];
          }
        }
      }
    }
  }

  lemma {:induction false} MergeStep(s: Text)
    requires s != [] && !(|s| >= 2 && High(s[0]) && Low(s[1]))
    ensures Merge(s) == [s[0]] + Merge(s[1..])
  {
  }

  lemma HexInverse(d: int)
    requires 0 <= d < 16
    ensures IsHex(HexChar(d)) && HexValue(HexChar(d)) == d
  {
  }

  lemma Hex4Spells(a: int, b: int, c: int, d: int, tail: string)
    requires 0 <= a < 16 && 0 <= b < 16 && 0 <= c < 16 && 0 <= d < 16
    ensures Hex4([HexChar(a), HexChar(b), HexChar(c), HexChar(d)] + tail) == Some(a * 4096 + b * 256 + c * 16 + d)
  {
    HexInverse(a);
    HexInverse(b);
    HexInverse(c);
    HexInverse(d);
  }

  lemma UnitOfEscape(u: int, tail: string)
    requires 0 <= u < 0x10000
    ensures UnitAt(UnicodeEscape(u) + tail) == Some(u)
    ensures (UnicodeEscape(u) + tail)[6..] == tail
  {
    var t := UnicodeEscape(u) + tail;
    var a, b, c, d := u / 16 / 16 / 16, u / 16 / 16 % 16, u / 16 % 16, u % 16;
    assert t[2..] == [HexChar(a), HexChar(b), HexChar(c), HexChar(d)] + tail;
    Hex4Spells(a, b, c, d, tail);
  }

  /** The text from inside a string on: its body, the closing quote and what follows. */
  function Body(s: Text, rest: string): string {
    EscapeText(s) + ("\"" + rest)
  }

  lemma BodyStep(s: Text, rest: string)
    ensures s == [] ==> Body(s, rest) != "" && Body(s, rest)[0] == '"' && Body(s, rest)[1..] == rest
    ensures s != [] ==> Body(s, rest) == Escape(s[0]) + Body(s[1..], rest)
  {
  }

  lemma EscapeForms(c: Code)
    ensures c > 0xFFFF ==>
      Escape(c) == UnicodeEscape(HighHalf(c)) + UnicodeEscape(LowHalf(c))
    ensures c <= 0xFFFF ==> Escape(c) == UnicodeEscape(c) || (|Escape(c)| <= 2 && !High(c) && !Low(c))
    ensures |Escape(c)| == 1 ==> Escape(c)[0] == c as char && c >= 0x20 && c != 0x22 && c != 0x5C
    ensures |Escape(c)| == 2 ==> Escape(c)[0] == '\\' && ShortEscape(Escape(c)[1]) == Some(c) && Escape(c)[1] != 'u'
    ensures |Escape(c)| in {1, 2, 6, 12}
  {
  }

  lemma PairText(c: Code, after: string)
    requires c > 0xFFFF
    ensures Escape(c) + after == UnicodeEscape(HighHalf(c)) + (UnicodeEscape(LowHalf(c)) + after)
  {
  }

  /** The code unit at the start of a string body: a low surrogate only if one was printed. */
  lemma FirstUnit(s: Text, rest: string)
    ensures var u := UnitAt(Body(s, rest));
            (u.Some? && Low(u.value)) ==> (s != [] && u.value == s[0])
  {
    BodyStep(s, rest);
    if s != [] {
      var c, after := s[0], Body(s[1..], rest);
      EscapeForms(c);
      if c > 0xFFFF {
        PairText(c, after);
        UnitOfEscape(HighHalf(c), UnicodeEscape(LowHalf(c)) + after);
      } else if Escape(c) == UnicodeEscape(c) {
        UnitOfEscape(c, after);
      } else {
        NoUnit(c, after);
      }
    }
  }

  lemma NoUnit(c: Code, after: string)
    requires |Escape(c)| <= 2
    ensures UnitAt(Escape(c) + after).None?
  {
  }

  lemma ParseUnit(u: Code, after: string)
    requires u < 0x10000
    requires !(High(u) && UnitAt(after).Some? && Low(UnitAt(after).value))
    ensures ParseText(UnicodeEscape(u) + after) == Prepend(u, ParseText(after))
  {
    UnitOfEscape(u, after);
    assert (UnicodeEscape(u) + after)[0] == '\\';
  }

  lemma ParseUnitPair(high: Code, low: Code, after: string)
    requires High(high) && Low(low)
    ensures ParseText(UnicodeEscape(high) + (UnicodeEscape(low) + after)) == Prepend(Combine(high, low), ParseText(after))
  {
    UnitOfEscape(low, after);
    UnitOfEscape(high, UnicodeEscape(low) + after);
    assert (UnicodeEscape(high) + (UnicodeEscape(low) + after))[0] == '\\';
  }

  lemma ParseShort(c: Code, after: string)
    requires |Escape(c)| <= 2
    ensures ParseText(Escape(c) + after) == Prepend(c, ParseText(after))
  {
    EscapeForms(c);
    NoUnit(c, after);
    var t := Escape(c) + after;
    assert t[0] == Escape(c)[0];
    if |Escape(c)| == 2 {
      assert t[1] == Escape(c)[1] && t[2..] == after;
    } else {
      assert t[1..] == after;
    }
  }

  /** A printed string is read back with its split surrogate pairs merged. */
  lemma {:induction false} ParseEscaped(s: Text, rest: string)
    ensures ParseText(Body(s, rest)) == Some(Parsed(Merge(s), rest))
    decreases |s|
  {
    BodyStep(s, rest);
    if s == [] {
    } else if |s| >= 2 && High(s[0]) && Low(s[1]) {
      ParseEscaped(s[2..], rest);
      SplitPair(s, rest);
    } else {
      ParseEscaped(s[1..], rest);
      ParseFirst(s, rest);
      MergeStep(s);
    }
  }

  lemma SplitPair(s: Text, rest: string)
    requires |s| >= 2 && High(s[0]) && Low(s[1])
    ensures ParseText(Body(s, rest)) == Prepend(Combine(s[0], s[1]), ParseText(Body(s[2..], rest)))
  {
    BodyStep(s, rest);
    BodyStep(s[1..], rest);
    assert s[1..][1..] == s[2..];
    EscapeForms(s[0]);
    EscapeForms(s[1]);
    ParseUnitPair(s[0], s[1], Body(s[2..], rest));
  }

  lemma ParseFirst(s: Text, rest: string)
    requires s != [] && !(|s| >= 2 && High(s[0]) && Low(s[1]))
    ensures ParseText(Body(s, rest)) == Prepend(s[0], ParseText(Body(s[1..], rest)))
  {
    var c, after := s[0], Body(s[1..], rest);
    BodyStep(s, rest);
    EscapeForms(c);
    if c > 0xFFFF {
      PairText(c, after);
      ParseUnitPair(HighHalf(c), LowHalf(c), after);
      HalvesCombine(c);
    } else if Escape(c) == UnicodeEscape(c) {
      FirstUnit(s[1..], rest);
      ParseUnit(c, after);
    } else {
      ParseShort(c, after);
    }
  }

  // ---------------------------------------------------------------------------
  // Numbers and blanks
  // ---------------------------------------------------------------------------

  /** No number goes on at the start of this text. */
  predicate Stops(rest: string) {
    rest == "" || !(IsDigit(rest[0]) || rest[0] in ".eE+-")
  }

  function NumberRun(t: string): nat {
    var whole := IntegerRun(t);
    var fraction := FractionRun(t[whole..]);
    whole + fraction + ExponentRun(t[whole + fraction..])
  }

  /** A float's `repr` is one number token with a fraction or an exponent. */
  predicate FloatToken(repr: string) {
    0 < IntegerRun(repr) < |repr| && NumberRun(repr) == |repr|
  }

  lemma {:induction false} DigitRunLocal(a: string, rest: string)
    requires Stops(rest)
    ensures DigitRun(a + rest) == DigitRun(a)
    decreases |a|
  {
    if a == "" {
      assert a + rest == rest;
    } else {
      assert (a + rest)[0] == a[0] && (a + rest)[1..] == a[1..] + rest;
      DigitRunLocal(a[1..], rest);
    }
  }

  lemma FractionRunLocal(a: string, rest: string)
    requires Stops(rest)
    ensures FractionRun(a + rest) == FractionRun(a)
  {
    if a == "" {
      assert a + rest == rest;
    } else {
      assert (a + rest)[0] == a[0] && (a + rest)[1..] == a[1..] + rest;
      DigitRunLocal(a[1..], rest);
    }
  }

  lemma ExponentRunLocal(a: string, rest: string)
    requires Stops(rest)
    ensures ExponentRun(a + rest) == ExponentRun(a)
  {
    if a == "" {
      assert a + rest == rest;
    } else {
      var t := a + rest;
      assert t[0] == a[0] && t[1..] == a[1..] + rest;
      DigitRunLocal(a[1..], rest);
      SignRunLocal(a[1..], rest);
      if |a| > 1 {
        assert t[2..] == a[2..] + rest;
        DigitRunLocal(a[2..], rest);
      }
    }
  }

  lemma SignRunLocal(a: string, rest: string)
    requires Stops(rest)
    ensures SignRun(a + rest, "+-") == SignRun(a, "+-")
  {
  }

  lemma IntegerRunLocal(a: string, rest: string)
    requires Stops(rest) && IntegerRun(a) > 0
    ensures IntegerRun(a + rest) == IntegerRun(a)
  {
    var t := a + rest;
    assert t[0] == a[0];
    DigitRunLocal(a, rest);
    assert a[0..] == a && t[0..] == t;
    assert t[1..] == a[1..] + rest;
    DigitRunLocal(a[1..], rest);
  }

  lemma {:induction false} DigitRunAll(s: string)
    requires AllDigits(s)
    ensures DigitRun(s) == |s|
    decreases |s|
  {
    if s != "" {
      assert IsDigit(s[0]);
      DigitRunAll(s[1..]);
    }
  }

  lemma IntTextToken(n: int)
    ensures IntegerRun(IntText(n)) == |IntText(n)| > 0 && IntegerValue(IntText(n)) == n
  {
    var t := IntText(n);
    var digits := NatText(if n < 0 then -n else n);
    NatTextSpells(if n < 0 then -n else n);
    DigitRunAll(digits);
    assert IsDigit(digits[0]);
    if n < 0 {
      assert t[1..] == digits;
    } else {
      assert t[0..] == digits;
      assert digits[0] == '0' ==> digits == "0";
    }
  }

  lemma ParseInt(n: int, rest: string, parseFloat: string -> Option<string>)
    requires Stops(rest)
    ensures ParseNumber(IntText(n) + rest, parseFloat) == Some(Parsed(Int(n), rest))
  {
    var token := IntText(n);
    IntTextToken(n);
    IntegerRunLocal(token, rest);
    assert (token + rest)[|token|..] == rest && (token + rest)[..|token|] == token;
  }

  /** The three parts of a number token do not depend on what follows the token. */
  lemma NumberLocal(token: string, rest: string)
    requires Stops(rest) && FloatToken(token)
    ensures var t, whole := token + rest, IntegerRun(token);
            var fraction := FractionRun(token[whole..]);
            && IntegerRun(t) == whole && FractionRun(t[whole..]) == fraction
            && ExponentRun(t[whole + fraction..]) == |token| - whole - fraction
  {
    hide IntegerRun, FractionRun, ExponentRun;
    var t, whole := token + rest, IntegerRun(token);
    IntegerRunLocal(token, rest);
    assert t[whole..] == token[whole..] + rest;
    FractionRunLocal(token[whole..], rest);
    var fraction := FractionRun(token[whole..]);
    assert t[whole + fraction..] == token[whole + fraction..] + rest;
    ExponentRunLocal(token[whole + fraction..], rest);
  }

  lemma Halves(a: string, b: string)
    ensures (a + b)[..|a|] == a && (a + b)[|a|..] == b
  {
  }

  lemma ParseFloatToken(token: string, rest: string, parseFloat: string -> Option<string>)
    requires Stops(rest) && FloatToken(token)
    ensures ParseNumber(token + rest, parseFloat) ==
            match parseFloat(token) case None => None case Some(repr) => Some(Parsed(Float(repr), rest))
  {
    hide IntegerRun, FractionRun, ExponentRun, Stops;
    NumberLocal(token, rest);
    Halves(token, rest);
  }

  predicate Blank(s: string) {
    forall i :: 0 <= i < |s| ==> s[i] == ' ' || s[i] == '\n'
  }

  lemma {:induction false} SkipBlank(blank: string, t: string)
    requires Blank(blank) && (t != "" ==> !IsBlank(t[0]))
    ensures SkipBlanks(blank + t) == t
    decreases |blank|
  {
    if blank == "" {
      assert blank + t == t;
    } else {
      assert (blank + t)[0] == blank[0] && (blank + t)[1..] == blank[1..] + t;
      SkipBlank(blank[1..], t);
    }
  }

  // ---------------------------------------------------------------------------
  // Trees
  // ---------------------------------------------------------------------------

  /** JSON trees as decoding builds them, with floats that the float hook reads back; keys are strings, once each. */
  ghost predicate Plain(v: Value, parseFloat: string -> Option<string>)
    decreases v
  {
    match v
    case Null => true
    case Bool(_) => true
    case Int(_) => true
    case Str(_) => true
    case Float(repr) => FloatToken(repr) && parseFloat(repr) == Some(repr)
    case List(items) => forall i :: 0 <= i < |items| ==> Plain(items[i], parseFloat)
    case Dict(entries) => DistinctKeys(entries) && forall i :: 0 <= i < |entries| ==> PlainEntry(entries[i], parseFloat)
    case _ => false
  }

  ghost predicate PlainEntry(e: Entry, parseFloat: string -> Option<string>)
    decreases e
  {
    e.key.StrKey? && Plain(e.value, parseFloat)
  }

  ghost predicate PlainItems(items: seq<Value>, parseFloat: string -> Option<string>) {
    forall i :: 0 <= i < |items| ==> Plain(items[i], parseFloat)
  }

  ghost predicate PlainEntries(entries: seq<Entry>, parseFloat: string -> Option<string>) {
    forall i :: 0 <= i < |entries| ==> PlainEntry(entries[i], parseFloat)
  }

  /** The tree with every string merged, or nothing where two keys of one object merge into one. */
  ghost function Merged(v: Value): Option<Value>
    decreases v
  {
    match v
    case Str(s) => Some(Str(Merge(s)))
    case List(items) =>
      (match MergedItems(items) case None => None case Some(m) => Some(List(m)))
    case Dict(entries) =>
      (match MergedEntries(entries)
       case None => None
       case Some(m) => if DistinctKeys(m) then Some(Dict(m)) else None)
    case _ => Some(v)
  }

  ghost function MergedItems(items: seq<Value>): Option<seq<Value>>
    decreases items
  {
    if items == [] then Some([])
    else
      match Merged(items[0])
      case None => None
      case Some(head) =>
        match MergedItems(items[1..]) case None => None case Some(tail) => Some([head] + tail)
  }

  ghost function MergedEntries(entries: seq<Entry>): Option<seq<Entry>>
    decreases entries
  {
    if entries == [] then Some([])
    else
      match MergedEntry(entries[0])
      case None => None
      case Some(head) =>
        match MergedEntries(entries[1..]) case None => None case Some(tail) => Some([head] + tail)
  }

  ghost function MergedEntry(e: Entry): Option<Entry>
    decreases e
  {
    match Merged(e.value)
    case None => None
    case Some(v) => Some(Entry(if e.key.StrKey? then StrKey(Merge(e.key.text)) else e.key, v))
  }

  ghost function After<T>(value: Option<T>, rest: string): Option<Parsed<T>> {
    match value case None => None case Some(v) => Some(Parsed(v, rest))
  }

  // ---------------------------------------------------------------------------
  // One decoding step
  // ---------------------------------------------------------------------------

  /** Text in which no literal name and no bracket starts. */
  predicate NumberStart(t: string) {
    t != "" && (IsDigit(t[0]) || t[0] == '-')
  }

  lemma ParseNumeric(t: string, parseFloat: string -> Option<string>)
    requires NumberStart(t)
    ensures ParseValue(t, parseFloat) == ParseNumber(t, parseFloat)
  {
    hide ParseNumber;
    assert "null"[0] == 'n' && "true"[0] == 't' && "false"[0] == 'f';
  }

  lemma ParseName(name: string, v: Value, rest: string, parseFloat: string -> Option<string>)
    requires (name == "null" && v == Null) || (name == "true" && v == Bool(true)) || (name == "false" && v == Bool(false))
    ensures ParseValue(name + rest, parseFloat) == Some(Parsed(v, rest))
  {
    var t := name + rest;
    assert t[0] == name[0] && t[1] == name[1];
    assert name <= t && t[|name|..] == rest;
    assert "null"[0] == 'n' && "true"[0] == 't' && "false"[0] == 'f';
  }

  lemma ParseString(s: Text, rest: string, parseFloat: string -> Option<string>)
    ensures ParseValue(Quote(s) + rest, parseFloat) == Some(Parsed(Str(Merge(s)), rest))
  {
    assert Quote(s) + rest == "\"" + Body(s, rest);
    assert ("\"" + Body(s, rest))[1..] == Body(s, rest);
    ParseEscaped(s, rest);
  }

  function Closed(rest: string, close: char): string {
    [close] + rest
  }

  lemma SkipToClose(gap: string, close: char, rest: string)
    requires Blank(gap) && close in "]},"
    ensures SkipBlanks(gap + Closed(rest, close)) == Closed(rest, close)
    ensures Closed(rest, close)[0] == close && Closed(rest, close)[1..] == rest
    ensures Stops(gap + Closed(rest, close))
  {
    SkipBlank(gap, Closed(rest, close));
    if gap != "" {
      assert (gap + Closed(rest, close))[0] == gap[0];
    } else {
      assert gap + Closed(rest, close) == Closed(rest, close);
    }
  }

  /** Whether t starts with a character. */
  predicate Opens(t: string, c: char) {
    t != "" && t[0] == c
  }

  function ListOf(items: Option<Parsed<seq<Value>>>): Option<Parsed<Value>> {
    match items case None => None case Some(p) => Some(Parsed(List(p.value), p.rest))
  }

  function DictOf(entries: Option<Parsed<seq<Entry>>>): Option<Parsed<Value>> {
    match entries
    case None => None
    case Some(p) => if DistinctKeys(p.value) then Some(Parsed(Dict(p.value), p.rest)) else None
  }

  lemma ParseOpenedList(inner: string, parseFloat: string -> Option<string>)
    ensures var next := SkipBlanks(inner);
            ParseValue("[" + inner, parseFloat) ==
            if Opens(next, ']') then Some(Parsed(List([]), next[1..])) else ListOf(ParseItems(next, parseFloat))
  {
  }

  lemma ParseOpenedDict(inner: string, parseFloat: string -> Option<string>)
    ensures var next := SkipBlanks(inner);
            ParseValue("{" + inner, parseFloat) ==
            if Opens(next, '}') then Some(Parsed(Dict([]), next[1..])) else DictOf(ParseEntries(next, parseFloat))
  {
    assert ("{" + inner)[1..] == inner;
  }

  function Cons<T>(head: Option<T>, tail: Option<seq<T>>): Option<seq<T>> {
    if head.Some? && tail.Some? then Some([head.value] + tail.value) else None
  }

  lemma ParseLastItem(t: string, gap: string, rest: string, head: Option<Value>, parseFloat: string -> Option<string>)
    requires Blank(gap) && ParseValue(t, parseFloat) == After(head, gap + Closed(rest, ']'))
    ensures ParseItems(t, parseFloat) == After(Cons(head, Some([])), rest)
  {
    SkipToClose(gap, ']', rest);
    if head.Some? {
      assert [head.value] + [] == [head.value];
    }
  }

  lemma ParseNextItem(t: string, more: string, rest: string, head: Option<Value>, tail: Option<seq<Value>>,
                      parseFloat: string -> Option<string>)
    requires ParseValue(t, parseFloat) == After(head, Closed(more, ','))
    requires ParseItems(SkipBlanks(more), parseFloat) == After(tail, rest)
    ensures ParseItems(t, parseFloat) == After(Cons(head, tail), rest)
  {
    SkipToClose("", ',', more);
    assert "" + Closed(more, ',') == Closed(more, ',');
  }

  lemma ParseLastEntry(t: string, gap: string, rest: string, head: Option<Entry>, parseFloat: string -> Option<string>)
    requires Blank(gap) && ParseEntry(t, parseFloat) == After(head, gap + Closed(rest, '}'))
    ensures ParseEntries(t, parseFloat) == After(Cons(head, Some([])), rest)
  {
    SkipToClose(gap, '}', rest);
    if head.Some? {
      assert [head.value] + [] == [head.value];
    }
  }

  lemma ParseNextEntry(t: string, more: string, rest: string, head: Option<Entry>, tail: Option<seq<Entry>>,
                       parseFloat: string -> Option<string>)
    requires ParseEntry(t, parseFloat) == After(head, Closed(more, ','))
    requires ParseEntries(SkipBlanks(more), parseFloat) == After(tail, rest)
    ensures ParseEntries(t, parseFloat) == After(Cons(head, tail), rest)
  {
    SkipToClose("", ',', more);
    assert "" + Closed(more, ',') == Closed(more, ',');
  }

  lemma ParseKeyed(s: Text, colon: string, rest: string, v: Option<Value>, parseFloat: string -> Option<string>)
    requires Opens(colon, ':') && ParseValue(SkipBlanks(colon[1..]), parseFloat) == After(v, rest)
    ensures ParseEntry(Quote(s) + colon, parseFloat) ==
            After(match v case None => None case Some(x) => Some(Entry(StrKey(Merge(s)), x)), rest)
  {
    assert Quote(s) + colon == "\"" + Body(s, colon);
    assert ("\"" + Body(s, colon))[1..] == Body(s, colon);
    ParseEscaped(s, colon);
    assert SkipBlanks(colon) == colon;
  }

  // ---------------------------------------------------------------------------
  // The shape of printed text
  // ---------------------------------------------------------------------------

  /** A printed tree starts with a character that opens a value. */
  lemma PrintStarts(style: Style, level: nat, v: Value, parseFloat: string -> Option<string>)
    requires Plain(v, parseFloat)
    ensures var t := Print(style, level, v);
            t != "" && !IsBlank(t[0]) && t[0] != ']'
  {
    hide NatText, PrintItems, PrintEntries, EscapeText, IntegerRun, Gap;
    if v.Int? {
      IntTextStarts(v.n);
    } else if v.Float? {
      FloatStarts(v.repr);
    }
  }

  lemma IntTextStarts(n: int)
    ensures NumberStart(IntText(n))
  {
    NatTextSpells(if n < 0 then -n else n);
    assert IsDigit(NatText(if n < 0 then -n else n)[0]);
  }

  lemma FloatStarts(repr: string)
    requires FloatToken(repr)
    ensures NumberStart(repr)
  {
  }

  /** The text of a container, around what stands between its brackets. */
  lemma BracketText(open: string, items: string, gap: string, close: char, rest: string)
    ensures (open + items + gap + [close]) + rest == open + (items + (gap + Closed(rest, close)))
  {
  }

  lemma EmptyText(open: string, close: char, rest: string)
    ensures (open + [close]) + rest == open + Closed(rest, close)
  {
  }

  lemma ListText(style: Style, level: nat, items: seq<Value>, rest: string)
    ensures Print(style, level, List(items)) + rest ==
            "[" + (if items == [] then Closed(rest, ']')
                   else PrintItems(style, level + 1, items) + (Gap(style, level) + Closed(rest, ']')))
  {
    EmptyText("[", ']', rest);
    BracketText("[", PrintItems(style, level + 1, items), Gap(style, level), ']', rest);
  }

  lemma DictText(style: Style, level: nat, entries: seq<Entry>, rest: string)
    ensures Print(style, level, Dict(entries)) + rest ==
            "{" + (if entries == [] then Closed(rest, '}')
                   else PrintEntries(style, level + 1, entries) + (Gap(style, level) + Closed(rest, '}')))
  {
    EmptyText("{", '}', rest);
    BracketText("{", PrintEntries(style, level + 1, entries), Gap(style, level), '}', rest);
  }

  /** One member, and what follows it: the closing gap, or a comma and the other members. */
  lemma MemberText(gap: string, head: string, others: string, tail: string)
    ensures (gap + head + "," + others) + tail == gap + (head + Closed(others + tail, ','))
    ensures (gap + head) + tail == gap + (head + tail)
  {
  }

  lemma SkipToMember(gap: string, head: string, tail: string)
    requires Blank(gap) && head != "" && !IsBlank(head[0])
    ensures SkipBlanks(gap + (head + tail)) == head + tail && (head + tail) != "" && (head + tail)[0] == head[0]
  {
    assert (head + tail)[0] == head[0];
    SkipBlank(gap, head + tail);
  }

  // ---------------------------------------------------------------------------
  // Decoding what was printed
  // ---------------------------------------------------------------------------

  /** Decoding a printed tree gives the merged tree and leaves what follows it. */
  lemma {:induction false} ParseTree(style: Style, level: nat, v: Value, rest: string, parseFloat: string -> Option<string>)
    requires Plain(v, parseFloat) && Stops(rest)
    ensures ParseValue(Print(style, level, v) + rest, parseFloat) == After(Merged(v), rest)
    decreases v, 1
  {
    if v.List? {
      ParseList(style, level, v, rest, parseFloat);
    } else if v.Dict? {
      ParseDict(style, level, v, rest, parseFloat);
    } else {
      ParseLeaf(style, level, v, rest, parseFloat);
    }
  }

  lemma ParseLeaf(style: Style, level: nat, v: Value, rest: string, parseFloat: string -> Option<string>)
    requires Plain(v, parseFloat) && Stops(rest) && !v.List? && !v.Dict?
    ensures ParseValue(Print(style, level, v) + rest, parseFloat) == After(Merged(v), rest)
  {
    match v
    case Null => ParseName("null", v, rest, parseFloat);
    case Bool(b) => ParseName(if b then "true" else "false", v, rest, parseFloat);
    case Int(n) =>
      IntTextStarts(n);
      assert (IntText(n) + rest)[0] == IntText(n)[0];
      ParseNumeric(IntText(n) + rest, parseFloat);
      ParseInt(n, rest, parseFloat);
    case Float(repr) =>
      FloatStarts(repr);
      assert (repr + rest)[0] == repr[0];
      ParseNumeric(repr + rest, parseFloat);
      ParseFloatToken(repr, rest, parseFloat);
    case Str(s) => ParseString(s, rest, parseFloat);
  }

  lemma {:induction false} ParseList(style: Style, level: nat, v: Value, rest: string, parseFloat: string -> Option<string>)
    requires v.List? && Plain(v, parseFloat) && Stops(rest)
    ensures ParseValue(Print(style, level, v) + rest, parseFloat) == After(Merged(v), rest)
    decreases v, 0
  {
    hide ParseValue, ParseItems, Print, PrintItems, SkipBlanks;
    var items := v.items;
    if items == [] {
      ListText(style, level, items, rest);
      SkipToClose("", ']', rest);
      assert "" + Closed(rest, ']') == Closed(rest, ']');
      ParseOpenedList(Closed(rest, ']'), parseFloat);
    } else {
      var gap := Gap(style, level);
      ParseItemsBack(style, level + 1, items, gap, rest, parseFloat);
      ParseListText(style, level, items, rest, MergedItems(items), parseFloat);
    }
  }

  lemma ParseListText(style: Style, level: nat, items: seq<Value>, rest: string, result: Option<seq<Value>>,
                      parseFloat: string -> Option<string>)
    requires PlainItems(items, parseFloat) && items != []
    requires ParseItems(SkipBlanks(PrintItems(style, level + 1, items) + (Gap(style, level) + Closed(rest, ']'))), parseFloat)
          == After(result, rest)
    ensures ParseValue(Print(style, level, List(items)) + rest, parseFloat) == ListOf(After(result, rest))
  {
    ListText(style, level, items, rest);
    ItemsStart(style, level + 1, items, Gap(style, level) + Closed(rest, ']'), parseFloat);
    ParseOpenedList(PrintItems(style, level + 1, items) + (Gap(style, level) + Closed(rest, ']')), parseFloat);
  }

  lemma ParseDictText(style: Style, level: nat, entries: seq<Entry>, rest: string, result: Option<seq<Entry>>,
                      parseFloat: string -> Option<string>)
    requires PlainEntries(entries, parseFloat) && entries != []
    requires ParseEntries(SkipBlanks(PrintEntries(style, level + 1, entries) + (Gap(style, level) + Closed(rest, '}'))), parseFloat)
          == After(result, rest)
    ensures ParseValue(Print(style, level, Dict(entries)) + rest, parseFloat) == DictOf(After(result, rest))
  {
    DictText(style, level, entries, rest);
    EntriesStart(style, level + 1, entries, Gap(style, level) + Closed(rest, '}'), parseFloat);
    ParseOpenedDict(PrintEntries(style, level + 1, entries) + (Gap(style, level) + Closed(rest, '}')), parseFloat);
  }

  /** After the blanks, printed items start with the first item, not with a bracket. */
  lemma ItemsStart(style: Style, level: nat, items: seq<Value>, tail: string, parseFloat: string -> Option<string>)
    requires PlainItems(items, parseFloat) && items != []
    ensures !Opens(SkipBlanks(PrintItems(style, level, items) + tail), ']')
  {
    var gap, head := Gap(style, level), Print(style, level, items[0]);
    var others := PrintItems(style, level, items[1..]);
    PrintStarts(style, level, items[0], parseFloat);
    MemberText(gap, head, others, tail);
    SkipToMember(gap, head, tail);
    SkipToMember(gap, head, Closed(others + tail, ','));
  }

  lemma {:induction false} ParseItemsBack(style: Style, level: nat, items: seq<Value>, gap: string, rest: string,
                                          parseFloat: string -> Option<string>)
    requires PlainItems(items, parseFloat) && items != [] && Blank(gap)
    ensures ParseItems(SkipBlanks(PrintItems(style, level, items) + (gap + Closed(rest, ']'))), parseFloat)
         == After(MergedItems(items), rest)
    decreases items
  {
    hide ParseValue, ParseItems, Print, SkipBlanks, Merged, MergedItems;
    var head, close := Print(style, level, items[0]), gap + Closed(rest, ']');
    var others := PrintItems(style, level, items[1..]);
    PrintStarts(style, level, items[0], parseFloat);
    MemberText(Gap(style, level), head, others, close);
    MergedStep(items);
    if |items| == 1 {
      SkipToClose(gap, ']', rest);
      SkipToMember(Gap(style, level), head, close);
      ParseTree(style, level, items[0], close, parseFloat);
      ParseLastItem(head + close, gap, rest, Merged(items[0]), parseFloat);
    } else {
      var tail := Closed(others + close, ',');
      SkipToMember(Gap(style, level), head, tail);
      ParseTree(style, level, items[0], tail, parseFloat);
      ParseItemsBack(style, level, items[1..], gap, rest, parseFloat);
      ParseNextItem(head + tail, others + close, rest, Merged(items[0]), MergedItems(items[1..]), parseFloat);
    }
  }

  lemma MergedStep(items: seq<Value>)
    requires items != []
    ensures MergedItems(items) == Cons(Merged(items[0]), MergedItems(items[1..]))
    ensures |items| == 1 ==> MergedItems(items[1..]) == Some([])
  {
  }

  lemma MergedEntriesStep(entries: seq<Entry>)
    requires entries != []
    ensures MergedEntries(entries) == Cons(MergedEntry(entries[0]), MergedEntries(entries[1..]))
    ensures |entries| == 1 ==> MergedEntries(entries[1..]) == Some([])
  {
  }

  lemma {:induction false} ParseDict(style: Style, level: nat, v: Value, rest: string, parseFloat: string -> Option<string>)
    requires v.Dict? && Plain(v, parseFloat) && Stops(rest)
    ensures ParseValue(Print(style, level, v) + rest, parseFloat) == After(Merged(v), rest)
    decreases v, 0
  {
    hide ParseValue, ParseEntries, Print, PrintEntries, SkipBlanks;
    var entries := v.entries;
    if entries == [] {
      DictText(style, level, entries, rest);
      SkipToClose("", '}', rest);
      assert "" + Closed(rest, '}') == Closed(rest, '}');
      ParseOpenedDict(Closed(rest, '}'), parseFloat);
    } else {
      var gap := Gap(style, level);
      ParseEntriesBack(style, level + 1, entries, gap, rest, parseFloat);
      ParseDictText(style, level, entries, rest, MergedEntries(entries), parseFloat);
    }
  }

  lemma EntryStarts(style: Style, level: nat, e: Entry, parseFloat: string -> Option<string>)
    requires PlainEntry(e, parseFloat)
    ensures PrintEntry(style, level, e) == Quote(e.key.text) + (Colon(style) + Print(style, level, e.value))
    ensures Opens(PrintEntry(style, level, e), '"')
  {
  }

  lemma EntriesStart(style: Style, level: nat, entries: seq<Entry>, tail: string, parseFloat: string -> Option<string>)
    requires PlainEntries(entries, parseFloat) && entries != []
    ensures !Opens(SkipBlanks(PrintEntries(style, level, entries) + tail), '}')
  {
    var gap, head := Gap(style, level), PrintEntry(style, level, entries[0]);
    var others := PrintEntries(style, level, entries[1..]);
    EntryStarts(style, level, entries[0], parseFloat);
    MemberText(gap, head, others, tail);
    SkipToMember(gap, head, tail);
    SkipToMember(gap, head, Closed(others + tail, ','));
  }

  lemma {:induction false} ParseEntriesBack(style: Style, level: nat, entries: seq<Entry>, gap: string, rest: string,
                                            parseFloat: string -> Option<string>)
    requires PlainEntries(entries, parseFloat) && entries != [] && Blank(gap)
    ensures ParseEntries(SkipBlanks(PrintEntries(style, level, entries) + (gap + Closed(rest, '}'))), parseFloat)
         == After(MergedEntries(entries), rest)
    decreases entries
  {
    hide ParseEntry, ParseEntries, PrintEntry, SkipBlanks, MergedEntry, MergedEntries;
    var head, close := PrintEntry(style, level, entries[0]), gap + Closed(rest, '}');
    var others := PrintEntries(style, level, entries[1..]);
    EntryStarts(style, level, entries[0], parseFloat);
    MemberText(Gap(style, level), head, others, close);
    MergedEntriesStep(entries);
    if |entries| == 1 {
      SkipToClose(gap, '}', rest);
      SkipToMember(Gap(style, level), head, close);
      ParseEntryBack(style, level, entries[0], close, parseFloat);
      ParseLastEntry(head + close, gap, rest, MergedEntry(entries[0]), parseFloat);
    } else {
      var tail := Closed(others + close, ',');
      SkipToMember(Gap(style, level), head, tail);
      ParseEntryBack(style, level, entries[0], tail, parseFloat);
      ParseEntriesBack(style, level, entries[1..], gap, rest, parseFloat);
      ParseNextEntry(head + tail, others + close, rest, MergedEntry(entries[0]), MergedEntries(entries[1..]), parseFloat);
    }
  }

  lemma ColonText(style: Style, value: string)
    requires value != "" && !IsBlank(value[0])
    ensures Opens(Colon(style) + value, ':') && SkipBlanks((Colon(style) + value)[1..]) == value
  {
  }

  lemma {:induction false} ParseEntryBack(style: Style, level: nat, e: Entry, rest: string, parseFloat: string -> Option<string>)
    requires PlainEntry(e, parseFloat) && Stops(rest)
    ensures ParseEntry(PrintEntry(style, level, e) + rest, parseFloat) == After(MergedEntry(e), rest)
    decreases e
  {
    hide ParseValue, ParseEntry, Print, SkipBlanks, Merged, Colon, Stops, EscapeText;
    var text := Print(style, level, e.value);
    var value := text + rest;
    EntryStarts(style, level, e, parseFloat);
    assert PrintEntry(style, level, e) + rest == Quote(e.key.text) + (Colon(style) + value);
    PrintStarts(style, level, e.value, parseFloat);
    assert value[0] == text[0];
    ColonText(style, value);
    ParseTree(style, level, e.value, rest, parseFloat);
    ParseKeyed(e.key.text, Colon(style) + value, rest, Merged(e.value), parseFloat);
  }

  // ---------------------------------------------------------------------------
  // The round trip
  // ---------------------------------------------------------------------------

  /** No string or key of the tree holds a split surrogate pair: in particular every tree over Unicode scalar values. */
  ghost predicate Whole(v: Value)
    decreases v
  {
    match v
    case Str(s) => NoSplitPair(s)
    case List(items) => forall i :: 0 <= i < |items| ==> Whole(items[i])
    case Dict(entries) => forall i :: 0 <= i < |entries| ==> WholeEntry(entries[i])
    case _ => true
  }

  ghost predicate WholeEntry(e: Entry)
    decreases e
  {
    (e.key.StrKey? ==> NoSplitPair(e.key.text)) && Whole(e.value)
  }

  lemma {:induction false} MergedFixed(v: Value, parseFloat: string -> Option<string>)
    requires Plain(v, parseFloat)
    ensures Merged(v) == Some(v) <==> Whole(v)
    decreases v, 0
  {
    match v
    case Str(s) => MergeFixed(s);
    case List(items) => MergedItemsFixed(items, parseFloat);
    case Dict(entries) => MergedEntriesFixed(entries, parseFloat);
    case _ =>
  }

  lemma {:induction false} MergedItemsFixed(items: seq<Value>, parseFloat: string -> Option<string>)
    requires PlainItems(items, parseFloat)
    ensures MergedItems(items) == Some(items) <==> forall i :: 0 <= i < |items| ==> Whole(items[i])
    decreases items, 1
  {
    if items != [] {
      MergedFixed(items[0], parseFloat);
      MergedItemsFixed(items[1..], parseFloat);
      MergedStep(items);
      assert items == [items[0]] + items[1..];
      if Cons(Merged(items[0]), MergedItems(items[1..])) == Some(items) {
        assert Merged(items[0]).value == items[0] && MergedItems(items[1..]).value == items[1..] by {
          ConsEqual(Merged(items[0]).value, MergedItems(items[1..]).value, items);
        }
        assert forall i :: 0 < i < |items| ==> items[i] == items[1..][i - 1];
      }
    }
  }

  lemma ConsEqual<T>(head: T, tail: seq<T>, whole: seq<T>)
    requires whole == [head] + tail
    ensures head == whole[0] && tail == whole[1..]
  {
  }

  lemma {:induction false} MergedEntriesFixed(entries: seq<Entry>, parseFloat: string -> Option<string>)
    requires PlainEntries(entries, parseFloat)
    ensures MergedEntries(entries) == Some(entries) <==> forall i :: 0 <= i < |entries| ==> WholeEntry(entries[i])
    decreases entries, 1
  {
    if entries != [] {
      MergedEntryFixed(entries[0], parseFloat);
      MergedEntriesFixed(entries[1..], parseFloat);
      MergedEntriesStep(entries);
      assert entries == [entries[0]] + entries[1..];
      if Cons(MergedEntry(entries[0]), MergedEntries(entries[1..])) == Some(entries) {
        ConsEqual(MergedEntry(entries[0]).value, MergedEntries(entries[1..]).value, entries);
        assert forall i :: 0 < i < |entries| ==> entries[i] == entries[1..][i - 1];
      }
    }
  }

  lemma {:induction false} MergedEntryFixed(e: Entry, parseFloat: string -> Option<string>)
    requires PlainEntry(e, parseFloat)
    ensures MergedEntry(e) == Some(e) <==> WholeEntry(e)
    decreases e, 0
  {
    MergedFixed(e.value, parseFloat);
    MergeFixed(e.key.text);
  }

  lemma DecodePrinted(style: Style, v: Value, parseFloat: string -> Option<string>)
    requires Plain(v, parseFloat)
    ensures Decode(Print(style, 0, v), parseFloat) == Merged(v)
  {
    var t := Print(style, 0, v);
    PrintStarts(style, 0, v, parseFloat);
    assert SkipBlanks(t) == t && t + "" == t;
    ParseTree(style, 0, v, "", parseFloat);
  }

  /** Decoding is the inverse of printing on exactly the trees without a split surrogate pair. */
  lemma RoundTripExact(style: Style, v: Value, parseFloat: string -> Option<string>)
    requires Plain(v, parseFloat)
    ensures Decode(Print(style, 0, v), parseFloat) == Some(v) <==> Whole(v)
  {
    DecodePrinted(style, v, parseFloat);
    MergedFixed(v, parseFloat);
  }

  /** Without split surrogate pairs, equal texts mean equal trees. */
  lemma PrintInjective(style: Style, v: Value, w: Value, parseFloat: string -> Option<string>)
    requires Plain(v, parseFloat) && Plain(w, parseFloat) && Whole(v) && Whole(w)
    requires Print(style, 0, v) == Print(style, 0, w)
    ensures v == w
  {
    RoundTripExact(style, v, parseFloat);
    RoundTripExact(style, w, parseFloat);
  }

  /** A split pair: the two surrogates of U+1F600 print as that one character does, so two trees share a text. */
  lemma SplitPairCollides()
    ensures var split, whole := Str([0xD83D, 0xDE00]), Str([0x1F600]);
            split != whole && !Whole(split) && Whole(whole) && CanonicalText(split) == CanonicalText(whole)
  {
    var split: Text, whole: Text := [0xD83D, 0xDE00], [0x1F600];
    assert High(split[0]) && Low(split[1]);
    assert split[1..] == [0xDE00] && split[1..][1..] == [] && whole[1..] == [];
    assert HighHalf(0x1F600) == 0xD83D && LowHalf(0x1F600) == 0xDE00;
    assert EscapeText(split) == Escape(0xD83D) + (Escape(0xDE00) + "") by {
      assert EscapeText(split[1..]) == Escape(0xDE00) + EscapeText(split[1..][1..]);
    }
    assert EscapeText(whole) == Escape(0x1F600) + "";
    assert EscapeText(split) == EscapeText(whole);
  }
}
