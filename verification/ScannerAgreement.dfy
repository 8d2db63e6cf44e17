/**
 The scanner sees the tree: on the text of any printable tree its four maxima are the tree's own measures, in
 the hashed and in the stored form alike. Punctuation inside strings never counts as structure.
 */
module ScannerAgreement {
  import opened CanonicalJson
  import opened PythonText
  import opened StrictJson

  /** A float's `repr`: it starts like a number and holds no character that ends a scalar. */
  predicate NumberLike(repr: string) {
    && repr != "" && StartsNumber(repr[0])
    && forall i :: 0 <= i < |repr| ==> !EndsScalar(repr[i]) && repr[i] != '\\'
  }

  predicate PrintableKey(k: Key) {
    match k
    case StrKey(_) => true
    case IntKey(_) => true
    case BoolKey(_) => true
    case NullKey => true
    case FloatKey(repr, _) => NumberLike(repr)
    case _ => false
  }

  /** The trees the encoder accepts. */
  predicate Printable(v: Value)
    decreases v
  {
    match v
    case Float(repr) => NumberLike(repr)
    case List(items) => forall i :: 0 <= i < |items| ==> Printable(items[i])
    case Tuple(items) => forall i :: 0 <= i < |items| ==> Printable(items[i])
    case Dict(entries) => forall i :: 0 <= i < |entries| ==> PrintableEntry(entries[i])
    case NonFiniteFloat => false
    case Dec(_) => false
    case EnumMember(_) => false
    case Other => false
    case _ => true
  }

  predicate PrintableEntry(e: Entry)
    decreases e
  {
    PrintableKey(e.key) && Printable(e.value)
  }

  // ---------------------------------------------------------------------------
  // Measures of a tree
  // ---------------------------------------------------------------------------

  /** Tokens, container nesting, longest string token and longest number token. */
  datatype Measure = Measure(tokens: nat, height: nat, stringChars: nat, numberChars: nat)

  function Both(a: Measure, b: Measure): Measure {
    Measure(a.tokens + b.tokens, Max(a.height, b.height), Max(a.stringChars, b.stringChars), Max(a.numberChars, b.numberChars))
  }

  const NOTHING := Measure(0, 0, 0, 0)

  function Container(inner: Measure): Measure {
    inner.(tokens := inner.tokens + 1, height := inner.height + 1)
  }

  function KeyMeasure(k: Key): Measure
    requires PrintableKey(k)
  {
    Measure(1, 0, |KeyText(k)| - 2, 0)
  }

  function Measured(v: Value): Measure
    requires Printable(v)
    decreases v
  {
    match v
    case Str(s) => Measure(1, 0, |EscapeText(s)|, 0)
    case Int(n) => Measure(1, 0, 0, |IntText(n)|)
    case Float(repr) => Measure(1, 0, 0, |repr|)
    case List(items) => Container(MeasuredItems(items))
    case Tuple(items) => Container(MeasuredItems(items))
    case Dict(entries) => Container(MeasuredEntries(entries))
    case _ => Measure(1, 0, 0, 0)
  }

  function MeasuredItems(items: seq<Value>): Measure
    requires forall i :: 0 <= i < |items| ==> Printable(items[i])
    decreases items
  {
    if items == [] then NOTHING else Both(Measured(items[0]), MeasuredItems(items[1..]))
  }

  function MeasuredEntries(entries: seq<Entry>): Measure
    requires forall i :: 0 <= i < |entries| ==> PrintableEntry(entries[i])
    decreases entries
  {
    if entries == [] then NOTHING else Both(MeasuredEntry(entries[0]), MeasuredEntries(entries[1..]))
  }

  function MeasuredEntry(e: Entry): Measure
    requires PrintableEntry(e)
    decreases e
  {
    Both(KeyMeasure(e.key), Measured(e.value))
  }

  // ---------------------------------------------------------------------------
  // Runs over pieces of text
  // ---------------------------------------------------------------------------

  /** Between tokens. */
  predicate Rested(m: Meter) {
    !m.st.inString && !m.st.escaped && m.st.stringChars == 0 && m.st == Settle(m.st) && m.st.depth <= m.depth
  }

  /** After a token: at most a scalar is still open, and the next delimiter closes it. */
  ghost predicate Ended(m: Meter, rested: Meter) {
    Rested(rested) && m.(st := Settle(m.st)) == rested
  }

  function Grown(m: Meter, x: Measure): Meter {
    Meter(m.st.(tokens := m.st.tokens + x.tokens),
          Max(m.depth, m.st.depth + x.height),
          Max(m.stringChars, x.stringChars),
          Max(m.numberChars, x.numberChars))
  }

  lemma {:induction false} RunAppend(m: Meter, a: string, b: string)
    ensures Run(m, a + b) == Run(Run(m, a), b)
    decreases |a|
  {
    if a == "" {
      assert a + b == b;
    } else {
      assert (a + b)[0] == a[0] && (a + b)[1..] == a[1..] + b;
      RunAppend(Move(m, a[0]), a[1..], b);
    }
  }

  lemma RunNothing(m: Meter)
    ensures Run(m, "") == m
  {
  }

  lemma RunOne(m: Meter, c: char)
    ensures Run(m, [c]) == Move(m, c)
  {
  }

  /** A delimiter closes an open scalar before it acts. */
  lemma RunDelimited(m: Meter, rested: Meter, text: string)
    requires Ended(m, rested) && text != "" && EndsScalar(text[0])
    ensures Run(m, text) == Run(rested, text)
  {
    assert Move(m, text[0]) == Move(rested, text[0]);
  }

  lemma {:induction false} RunSpaces(m: Meter, text: string)
    requires Rested(m) && forall i :: 0 <= i < |text| ==> text[i] == ' ' || text[i] == '\n'
    ensures Run(m, text) == m
    decreases |text|
  {
    if text != "" {
      assert Move(m, text[0]) == m;
      RunSpaces(m, text[1..]);
    }
  }

  /** Characters of a string body other than the quote and the backslash. */
  lemma {:induction false} RunPlain(m: Meter, text: string)
    requires m.st.inString && !m.st.escaped && m.st.stringChars <= m.stringChars && m.st.depth <= m.depth && !m.st.inScalar
    requires forall i :: 0 <= i < |text| ==> text[i] != '"' && text[i] != '\\'
    ensures Run(m, text) ==
            m.(st := m.st.(stringChars := m.st.stringChars + |text|),
               stringChars := Max(m.stringChars, m.st.stringChars + |text|))
    decreases |text|
  {
    if text != "" {
      RunPlain(Move(m, text[0]), text[1..]);
    }
  }

  function InBody(m: Meter, n: nat): Meter {
    m.(st := m.st.(stringChars := m.st.stringChars + n),
       stringChars := Max(m.stringChars, m.st.stringChars + n))
  }

  predicate InString(m: Meter) {
    m.st.inString && !m.st.escaped && m.st.stringChars <= m.stringChars && m.st.depth <= m.depth && !m.st.inScalar
  }

  /** A backslash escapes exactly the character after it. */
  lemma RunEscaped(m: Meter, c: char, plain: string)
    requires InString(m)
    requires forall i :: 0 <= i < |plain| ==> plain[i] != '"' && plain[i] != '\\'
    ensures Run(m, ['\\', c] + plain) == InBody(m, 2 + |plain|)
  {
    RunAppend(m, ['\\', c], plain);
    assert ['\\', c] == ['\\'] + [c];
    RunAppend(m, ['\\'], [c]);
    RunOne(m, '\\');
    RunOne(Move(m, '\\'), c);
    RunPlain(Move(Move(m, '\\'), c), plain);
  }

  lemma HexIsPlain(d: int)
    requires 0 <= d < 16
    ensures HexChar(d) != '"' && HexChar(d) != '\\'
  {
  }

  lemma RunUnicodeEscape(m: Meter, u: int)
    requires InString(m) && 0 <= u < 0x10000
    ensures Run(m, UnicodeEscape(u)) == InBody(m, 6)
  {
    var hex := UnicodeEscape(u)[2..];
    assert UnicodeEscape(u) == ['\\', 'u'] + hex;
    HexIsPlain(u / 4096);
    HexIsPlain(u / 256 % 16);
    HexIsPlain(u / 16 % 16);
    HexIsPlain(u % 16);
    RunEscaped(m, 'u', hex);
  }

  lemma RunEscape(m: Meter, c: Code)
    requires InString(m)
    ensures Run(m, Escape(c)) == InBody(m, |Escape(c)|)
  {
    if 0x20 <= c <= 0x7E && c != 0x22 && c != 0x5C {
      RunPlain(m, Escape(c));
    } else if c <= 0xFFFF {
      RunBasicEscape(m, c);
    } else {
      RunAppend(m, UnicodeEscape(HighHalf(c)), UnicodeEscape(LowHalf(c)));
      RunUnicodeEscape(m, HighHalf(c));
      RunUnicodeEscape(InBody(m, 6), LowHalf(c));
    }
  }

  lemma RunBasicEscape(m: Meter, c: Code)
    requires InString(m) && c <= 0xFFFF && (c < 0x20 || c == 0x22 || c == 0x5C || c > 0x7E)
    ensures Run(m, Escape(c)) == InBody(m, |Escape(c)|)
  {
    if |Escape(c)| == 2 {
      assert Escape(c) == ['\\', Escape(c)[1]] + [];
      RunEscaped(m, Escape(c)[1], []);
    } else {
      RunUnicodeEscape(m, c);
    }
  }

  lemma {:induction false} RunEscapeText(m: Meter, s: Text)
    requires InString(m)
    ensures Run(m, EscapeText(s)) == InBody(m, |EscapeText(s)|)
    decreases |s|
  {
    if s != [] {
      RunAppend(m, Escape(s[0]), EscapeText(s[1..]));
      RunEscape(m, s[0]);
      RunEscapeText(InBody(m, |Escape(s[0])|), s[1..]);
    }
  }

  /** A quoted token counts once, whatever its body holds. */
  lemma RunQuoted(m: Meter, body: string)
    requires Rested(m)
    requires var open := Move(m, '"'); InString(open) ==> Run(open, body) == InBody(open, |body|)
    ensures Run(m, "\"" + body + "\"") == Grown(m, Measure(1, 0, |body|, 0))
    ensures Rested(Run(m, "\"" + body + "\""))
  {
    RunAppend(m, "\"" + body, "\"");
    RunAppend(m, "\"", body);
    RunOne(m, '"');
    RunOne(Run(m, "\"" + body), '"');
  }

  lemma {:induction false} RunScalarTail(m: Meter, text: string)
    requires !m.st.inString && m.st.inScalar && m.st.stringChars == 0 && m.st.depth <= m.depth
    requires m.st.scalarIsNumber ==> m.st.scalarChars <= m.numberChars
    requires forall i :: 0 <= i < |text| ==> !EndsScalar(text[i])
    ensures Run(m, text) ==
            m.(st := m.st.(scalarChars := m.st.scalarChars + |text|),
               numberChars := if m.st.scalarIsNumber then Max(m.numberChars, m.st.scalarChars + |text|) else m.numberChars)
    decreases |text|
  {
    if text != "" {
      assert !EndsScalar(text[0]);
      RunScalarTail(Move(m, text[0]), text[1..]);
    }
  }

  lemma RunScalar(m: Meter, text: string)
    requires Rested(m) && text != "" && forall i :: 0 <= i < |text| ==> !EndsScalar(text[i])
    ensures Ended(Run(m, text), Grown(m, Measure(1, 0, 0, if StartsNumber(text[0]) then |text| else 0)))
  {
    assert !EndsScalar(text[0]);
    RunScalarTail(Move(m, text[0]), text[1..]);
  }

  lemma {:induction false} NatTextIsScalar(n: nat)
    ensures forall i :: 0 <= i < |NatText(n)| ==> IsDigit(NatText(n)[i])
    ensures NatText(n) != ""
  {
    if n >= 10 {
      NatTextIsScalar(n / 10);
    }
  }

  lemma IntTextIsNumber(n: int)
    ensures IntText(n) != "" && StartsNumber(IntText(n)[0])
    ensures forall i :: 0 <= i < |IntText(n)| ==> !EndsScalar(IntText(n)[i]) && IntText(n)[i] != '\\'
  {
    NatTextIsScalar(if n < 0 then -n else n);
    var t := IntText(n);
    forall i | 0 <= i < |t|
      ensures !EndsScalar(t[i]) && t[i] != '\\'
    {
      assert IsDigit(t[i]) || t[i] == '-';
    }
    assert IsDigit(t[0]) || t[0] == '-';
  }

  lemma MoveQuote(m: Meter)
    requires Rested(m)
    ensures InString(Move(m, '"'))
  {
  }

  lemma RunPlainQuoted(m: Meter, body: string)
    requires Rested(m) && forall i :: 0 <= i < |body| ==> body[i] != '"' && body[i] != '\\'
    ensures Run(m, "\"" + body + "\"") == Grown(m, Measure(1, 0, |body|, 0))
    ensures Rested(Run(m, "\"" + body + "\""))
  {
    MoveQuote(m);
    RunPlain(Move(m, '"'), body);
    RunQuoted(m, body);
  }

  lemma RunQuote(m: Meter, s: Text)
    requires Rested(m)
    ensures Run(m, Quote(s)) == Grown(m, Measure(1, 0, |EscapeText(s)|, 0)) && Rested(Run(m, Quote(s)))
  {
    MoveQuote(m);
    RunEscapeText(Move(m, '"'), s);
    RunQuoted(m, EscapeText(s));
  }

  /** The text between a non-string key's quotes. */
  function PlainKeyBody(k: Key): string
    requires PrintableKey(k) && !k.StrKey?
  {
    match k
    case IntKey(n) => IntText(n)
    case BoolKey(b) => if b then "true" else "false"
    case NullKey => "null"
    case FloatKey(repr, _) => repr
  }

  lemma PlainKey(k: Key)
    requires PrintableKey(k) && !k.StrKey?
    ensures KeyText(k) == "\"" + PlainKeyBody(k) + "\""
    ensures forall i :: 0 <= i < |PlainKeyBody(k)| ==> PlainKeyBody(k)[i] != '"' && PlainKeyBody(k)[i] != '\\'
  {
    if k.IntKey? {
      IntTextIsNumber(k.n);
    }
  }

  lemma RunKey(m: Meter, k: Key)
    requires Rested(m) && PrintableKey(k)
    ensures Run(m, KeyText(k)) == Grown(m, KeyMeasure(k)) && Rested(Run(m, KeyText(k)))
  {
    if k.StrKey? {
      RunQuote(m, k.text);
    } else {
      PlainKey(k);
      RunPlainQuoted(m, PlainKeyBody(k));
    }
  }

  // ---------------------------------------------------------------------------
  // Runs over trees
  // ---------------------------------------------------------------------------

  lemma RunGap(m: Meter, style: Style, level: nat)
    requires Rested(m)
    ensures Run(m, Gap(style, level)) == m
  {
    RunSpaces(m, Gap(style, level));
  }

  /** Just inside a container. */
  function Entered(m: Meter): Meter {
    Meter(m.st.(depth := m.st.depth + 1, tokens := m.st.tokens + 1), Max(m.depth, m.st.depth + 1), m.stringChars, m.numberChars)
  }

  lemma MoveOpen(m: Meter, c: char)
    requires Rested(m) && c in "[{"
    ensures Run(m, [c]) == Entered(m) && Rested(Entered(m))
  {
  }

  lemma MoveClose(m: Meter, inside: Meter, x: Measure, c: char)
    requires Rested(m) && inside == Grown(Entered(m), x) && c in "]}"
    ensures Rested(inside)
    ensures Run(inside, [c]) == Grown(m, Container(x)) && Rested(Run(inside, [c]))
  {
  }

  lemma Regroup(a: string, b: string, c: string, d: string)
    ensures a + b + c + d == a + (b + (c + d))
  {
  }

  lemma RunClosing(m: Meter, open: Meter, inside: Meter, x: Measure, gap: string, close: char)
    requires Rested(m) && close in "]}" && inside == Grown(Entered(m), x) && Ended(open, inside)
    requires forall i :: 0 <= i < |gap| ==> gap[i] == ' ' || gap[i] == '\n'
    ensures Run(open, gap + [close]) == Grown(m, Container(x))
    ensures Rested(Run(open, gap + [close]))
  {
    RunDelimited(open, inside, gap + [close]);
    RunAppend(inside, gap, [close]);
    RunSpaces(inside, gap);
    MoveClose(m, inside, x, close);
  }

  lemma RunBracketed(m: Meter, open: char, inner: string, gap: string, close: char, x: Measure)
    requires Rested(m) && open in "[{" && close in "]}"
    requires forall i :: 0 <= i < |gap| ==> gap[i] == ' ' || gap[i] == '\n'
    requires Ended(Run(Entered(m), inner), Grown(Entered(m), x))
    ensures Run(m, [open] + inner + gap + [close]) == Grown(m, Container(x))
    ensures Rested(Run(m, [open] + inner + gap + [close]))
  {
    var tail := gap + [close];
    Regroup([open], inner, gap, [close]);
    RunAppend(m, [open], inner + tail);
    MoveOpen(m, open);
    RunAppend(Entered(m), inner, tail);
    RunClosing(m, Run(Entered(m), inner), Grown(Entered(m), x), x, gap, close);
  }

  /** The scanner's account of a printed tree is the tree's measure. */
  lemma {:induction false} RunTree(m: Meter, style: Style, level: nat, v: Value)
    requires Rested(m) && Printable(v)
    ensures Ended(Run(m, Print(style, level, v)), Grown(m, Measured(v)))
    decreases v
  {
    hide Run, Move;
    match v
    case Str(s) => RunQuote(m, s);
    case List(items) => RunList(m, style, level, items);
    case Tuple(items) => RunList(m, style, level, items);
    case Dict(entries) => RunDict(m, style, level, entries);
    case _ => RunLiteral(m, style, level, v, Print(style, level, v));
  }

  lemma RunLiteral(m: Meter, style: Style, level: nat, v: Value, text: string)
    requires Rested(m) && Printable(v) && (v.Null? || v.Bool? || v.Int? || v.Float?) && text == Print(style, level, v)
    ensures Ended(Run(m, text), Grown(m, Measured(v)))
  {
    hide Run, Move, NatText;
    if v.Int? {
      IntTextIsNumber(v.n);
    }
    RunScalar(m, text);
  }

  lemma {:induction false} RunDict(m: Meter, style: Style, level: nat, entries: seq<Entry>)
    requires Rested(m) && forall i :: 0 <= i < |entries| ==> PrintableEntry(entries[i])
    ensures Ended(Run(m, Print(style, level, Dict(entries))), Grown(m, Container(MeasuredEntries(entries))))
    decreases entries, 1
  {
    hide Run, Move;
    RunEntries(Entered(m), style, level + 1, entries);
    RunBraces(m, PrintEntries(style, level + 1, entries), style, level, MeasuredEntries(entries), entries == []);
    assert Print(style, level, Dict(entries)) ==
      if entries == [] then "{}" else "{" + PrintEntries(style, level + 1, entries) + Gap(style, level) + "}";
  }

  lemma RunBraces(m: Meter, inner: string, style: Style, level: nat, x: Measure, empty: bool)
    requires Ended(Run(Entered(m), inner), Grown(Entered(m), x))
    requires Rested(m) && (empty ==> inner == "")
    ensures var text := if empty then "{}" else "{" + inner + Gap(style, level) + "}";
            Run(m, text) == Grown(m, Container(x)) && Rested(Run(m, text))
  {
    MoveOpen(m, '{');
    if empty {
      RunBracketed(m, '{', inner, "", '}', x);
      assert ['{'] + inner + "" + ['}'] == "{}";
    } else {
      RunBracketed(m, '{', inner, Gap(style, level), '}', x);
    }
  }

  lemma {:induction false} RunList(m: Meter, style: Style, level: nat, items: seq<Value>)
    requires Rested(m) && forall i :: 0 <= i < |items| ==> Printable(items[i])
    ensures Ended(Run(m, Print(style, level, List(items))), Grown(m, Container(MeasuredItems(items))))
    decreases items, 1
  {
    hide Run, Move;
    var inner, x := PrintItems(style, level + 1, items), MeasuredItems(items);
    MoveOpen(m, '[');
    RunItems(Entered(m), style, level + 1, items);
    RunBracketed(m, '[', inner, if items == [] then "" else Gap(style, level), ']', x);
    assert items == [] ==> ['['] + inner + "" + [']'] == "[]";
  }

  lemma {:induction false} RunItems(m: Meter, style: Style, level: nat, items: seq<Value>)
    requires Rested(m) && forall i :: 0 <= i < |items| ==> Printable(items[i])
    ensures Ended(Run(m, PrintItems(style, level, items)), Grown(m, MeasuredItems(items)))
    decreases items, 0
  {
    hide Run, Print, Gap;
    RunNothing(m);
    if items != [] {
      var gap, head := Gap(style, level), Print(style, level, items[0]);
      RunAppend(m, gap, head);
      RunGap(m, style, level);
      RunTree(m, style, level, items[0]);
      var after := Grown(m, Measured(items[0]));
      if |items| > 1 {
        RunComma(m, gap + head, after, PrintItems(style, level, items[1..]));
        RunItems(after, style, level, items[1..]);
      } else {
        assert MeasuredItems(items[1..]) == NOTHING;
      }
    }
  }

  lemma {:induction false} RunEntries(m: Meter, style: Style, level: nat, entries: seq<Entry>)
    requires Rested(m) && forall i :: 0 <= i < |entries| ==> PrintableEntry(entries[i])
    ensures Ended(Run(m, PrintEntries(style, level, entries)), Grown(m, MeasuredEntries(entries)))
    decreases entries, 0
  {
    hide Run, PrintEntry, Gap;
    RunNothing(m);
    if entries != [] {
      var gap, head := Gap(style, level), PrintEntry(style, level, entries[0]);
      RunAppend(m, gap, head);
      RunGap(m, style, level);
      RunEntry(m, style, level, entries[0]);
      var after := Grown(m, MeasuredEntry(entries[0]));
      if |entries| > 1 {
        RunComma(m, gap + head, after, PrintEntries(style, level, entries[1..]));
        RunEntries(after, style, level, entries[1..]);
      } else {
        assert MeasuredEntries(entries[1..]) == NOTHING;
      }
    }
  }

  lemma RunComma(m: Meter, head: string, after: Meter, tail: string)
    requires Ended(Run(m, head), after)
    ensures Run(m, head + "," + tail) == Run(after, tail)
  {
    hide Run;
    assert head + "," + tail == head + ("," + tail);
    RunAppend(m, head, "," + tail);
    RunDelimited(Run(m, head), after, "," + tail);
    RunAppend(after, ",", tail);
    RunOne(after, ',');
  }

  lemma {:induction false} RunEntry(m: Meter, style: Style, level: nat, e: Entry)
    requires Rested(m) && PrintableEntry(e)
    ensures Ended(Run(m, PrintEntry(style, level, e)), Grown(m, MeasuredEntry(e)))
    decreases e, 0
  {
    hide Run, Move, Print;
    var key := Run(m, KeyText(e.key));
    RunAppend(m, KeyText(e.key) + Colon(style), Print(style, level, e.value));
    RunAppend(m, KeyText(e.key), Colon(style));
    RunKey(m, e.key);
    RunColon(key, style);
    RunTree(key, style, level, e.value);
  }

  lemma RunColon(m: Meter, style: Style)
    requires Rested(m)
    ensures Run(m, Colon(style)) == m
  {
    if style.Compact? {
      RunOne(m, ':');
    } else {
      assert ": " == ":" + " ";
      RunAppend(m, ":", " ");
      RunOne(m, ':');
      RunOne(m, ' ');
    }
  }

  /**
   The preflight accepts a printed tree exactly when the tree's own measures are within the ceilings, and then
   ends at depth zero outside any string, having counted one token for each key, scalar and container.
   */
  lemma ScannerAgrees(limits: Limits, style: Style, v: Value)
    requires Printable(v)
    ensures var x, r := Measured(v), Scan(limits, START, Print(style, 0, v));
            && (r.Ok? <==> x.height <= limits.depth && x.tokens <= limits.tokens
                           && x.stringChars <= limits.stringChars && x.numberChars <= limits.numberChars)
            && (r.Ok? ==> r.value.depth == 0 && !r.value.inString && r.value.tokens == x.tokens)
  {
    RunTree(START_METER, style, 0, v);
    ScanIsMeasured(limits, START_METER, Print(style, 0, v));
  }
}
