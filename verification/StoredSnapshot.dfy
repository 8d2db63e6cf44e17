/**
 When a stored tree is accepted by a snapshot: local ceilings from its measures, running totals from the length of its
 text. What was accepted at one depth is accepted at any other that leaves it room.
 */
module StoredSnapshot {
  import opened ActionSnapshot
  import opened CanonicalJson
  import opened CanonicalTrees
  import opened JournalPayload
  import opened JsonDecoder
  import opened PythonText
  import opened RoundTrip
  import opened ScannerAgreement
  import opened SnapshotExactness
  import opened StoredMeasures
  import opened StrictJson
  import opened Wrappers

  // ---------------------------------------------------------------------------
  // Plain trees can be printed
  // ---------------------------------------------------------------------------

  predicate NumberChar(c: char) {
    IsDigit(c) || c in ".eE+-"
  }

  ghost predicate NumberChars(t: string, n: nat) {
    n <= |t| && forall i :: 0 <= i < n ==> NumberChar(t[i])
  }

  lemma {:induction false} DigitRunChars(t: string)
    ensures NumberChars(t, DigitRun(t)) && (DigitRun(t) > 0 ==> IsDigit(t[0]))
  {
    if t != "" && IsDigit(t[0]) {
      DigitRunChars(t[1..]);
      assert forall i :: 1 <= i < |t| ==> t[i] == t[1..][i - 1];
    }
  }

  lemma After(t: string, a: nat, b: nat)
    requires NumberChars(t, a) && NumberChars(t[a..], b)
    ensures NumberChars(t, a + b)
  {
    assert forall i :: a <= i < a + b ==> t[i] == t[a..][i - a];
  }

  lemma IntegerRunChars(t: string)
    ensures NumberChars(t, IntegerRun(t)) && (IntegerRun(t) > 0 ==> StartsNumber(t[0]))
  {
    var sign := SignRun(t, "-");
    DigitRunChars(t[sign..]);
    After(t, sign, DigitRun(t[sign..]));
  }

  lemma FractionRunChars(t: string)
    ensures NumberChars(t, FractionRun(t))
  {
    if t != "" && t[0] == '.' {
      DigitRunChars(t[1..]);
      After(t, 1, DigitRun(t[1..]));
    }
  }

  lemma ExponentRunChars(t: string)
    ensures NumberChars(t, ExponentRun(t))
  {
    if t != "" && (t[0] == 'e' || t[0] == 'E') {
      var sign := SignRun(t[1..], "+-");
      After(t, 1, sign);
      DigitRunChars(t[1 + sign..]);
      After(t, 1 + sign, DigitRun(t[1 + sign..]));
    }
  }

  lemma FloatTokenLike(repr: string)
    requires FloatToken(repr)
    ensures NumberLike(repr)
  {
    hide IntegerRun, FractionRun, ExponentRun;
    var whole := IntegerRun(repr);
    IntegerRunChars(repr);
    FractionRunChars(repr[whole..]);
    var fraction := FractionRun(repr[whole..]);
    After(repr, whole, fraction);
    ExponentRunChars(repr[whole + fraction..]);
    After(repr, whole + fraction, ExponentRun(repr[whole + fraction..]));
    assert NumberChars(repr, |repr|);
  }

  lemma {:induction false} PlainPrintable(v: Value, parseFloat: string -> Option<string>)
    requires Plain(v, parseFloat)
    ensures Printable(v)
    decreases v
  {
    match v
    case Float(repr) => FloatTokenLike(repr);
    case List(items) =>
      forall i | 0 <= i < |items|
        ensures Printable(items[i])
      {
        PlainPrintable(items[i], parseFloat);
      }
    case Dict(entries) =>
      forall i | 0 <= i < |entries|
        ensures PrintableEntry(entries[i])
      {
        PlainPrintable(entries[i].value, parseFloat);
      }
    case _ =>
  }

  // ---------------------------------------------------------------------------
  // Local ceilings
  // ---------------------------------------------------------------------------

  /** A mapping of strings breaks no ceiling if its keys and values break none. */
  lemma DictFaultless(c: Ceilings, entries: seq<Entry>, depth: nat)
    requires StringKeys(entries) && DistinctKeys(entries) && |entries| <= c.entries
    requires depth <= c.depth && (entries != [] ==> depth + 1 <= c.depth)
    requires forall i :: 0 <= i < |entries| ==> MemberFaultless(c, entries[i], depth + 1)
    ensures Faults(c, Dict(entries), depth) == {}
  {
    StringMapping(c, entries);
    hide OneFamily, DistinctNormal;
    MembersFaultless(c, entries, depth + 1);
  }

  predicate MemberFaultless(c: Ceilings, e: Entry, depth: nat) {
    e.key.StrKey? && TextFaults(c, e.key.text) == {} && Faults(c, e.value, depth) == {}
  }

  lemma {:induction false} MembersFaultless(c: Ceilings, entries: seq<Entry>, depth: nat)
    requires entries != [] ==> depth <= c.depth
    requires forall i :: 0 <= i < |entries| ==> MemberFaultless(c, entries[i], depth)
    ensures KeysFaults(c, entries, depth) == {} && ValuesFaults(c, entries, depth) == {}
  {
    hide Faults, TextFaults;
    if entries != [] {
      MembersFaultless(c, entries[1..], depth);
      assert MemberFaultless(c, entries[0], depth);
    }
  }

  lemma {:induction false} ItemsFaultless(c: Ceilings, items: seq<Value>, depth: nat)
    requires forall i :: 0 <= i < |items| ==> Faults(c, items[i], depth) == {}
    ensures ItemsFaults(c, items, depth) == {}
  {
    hide Faults;
    if items != [] {
      ItemsFaultless(c, items[1..], depth);
    }
  }

  /** A text whose escaped form fits both ceilings breaks neither. */
  lemma TextFaultless(c: Ceilings, s: Text)
    requires |EscapeText(s)| <= c.scalarChars && |EscapeText(s)| + 2 <= c.tokenBytes
    ensures TextFaults(c, s) == {}
  {
    TextIsShorter(s);
  }

  lemma {:induction false} TextIsShorter(s: Text)
    ensures |s| <= |EscapeText(s)|
  {
    if s != [] {
      TextIsShorter(s[1..]);
    }
  }

  /** The measures of the parts are within those of the whole. */
  lemma {:induction false} ItemMeasure(items: seq<Value>, i: nat)
    requires PrintableItems(items) && i < |items|
    ensures Inside(Measured(items[i]), MeasuredItems(items))
  {
    hide Printable, Measured;
    if i > 0 {
      ItemMeasure(items[1..], i - 1);
    }
  }

  lemma {:induction false} EntryMeasure(entries: seq<Entry>, i: nat)
    requires PrintableEntries(entries) && i < |entries|
    ensures Inside(MeasuredEntry(entries[i]), MeasuredEntries(entries))
  {
    hide PrintableEntry, MeasuredEntry;
    if i > 0 {
      EntryMeasure(entries[1..], i - 1);
    }
  }

  predicate Inside(x: Measure, y: Measure) {
    x.tokens <= y.tokens && x.height <= y.height && x.stringChars <= y.stringChars && x.numberChars <= y.numberChars
  }

  lemma {:induction false} EntriesAreTokens(entries: seq<Entry>)
    requires PrintableEntries(entries)
    ensures |entries| <= MeasuredEntries(entries).tokens
  {
    hide PrintableEntry;
    if entries != [] {
      EntriesAreTokens(entries[1..]);
    }
  }

  /** The measures fit the local ceilings with room for them at a depth. */
  predicate Small(c: Ceilings, x: Measure, depth: nat) {
    && x.stringChars <= c.scalarChars && x.stringChars + 2 <= c.tokenBytes && x.numberChars <= c.numberChars
    && x.tokens <= c.entries && depth + x.height <= c.depth
  }

  /** A small tree breaks no local ceiling. */
  lemma {:induction false} SmallIsFaultless(c: Ceilings, v: Value, depth: nat, parseFloat: string -> Option<string>)
    requires Plain(v, parseFloat) && Printable(v) && Small(c, Measured(v), depth)
    ensures Faults(c, v, depth) == {}
    decreases v
  {
    hide ItemsFaults, ValuesFaults, KeysFaults, MappingFaults, MeasuredItems, MeasuredEntries, TextFaults;
    match v
    case Str(s) => TextFaultless(c, s);
    case List(items) =>
      assert PrintableItems(items);
      forall i | 0 <= i < |items|
        ensures Faults(c, items[i], depth + 1) == {}
      {
        ItemMeasure(items, i);
        SmallIsFaultless(c, items[i], depth + 1, parseFloat);
      }
      ItemsFaultless(c, items, depth + 1);
    case Dict(entries) =>
      assert PrintableEntries(entries);
      EntriesAreTokens(entries);
      forall i | 0 <= i < |entries|
        ensures MemberFaultless(c, entries[i], depth + 1)
      {
        EntryMeasure(entries, i);
        SmallEntry(c, entries[i], depth + 1, MeasuredEntries(entries), parseFloat);
        SmallIsFaultless(c, entries[i].value, depth + 1, parseFloat);
      }
      DictFaultless(c, entries, depth);
    case _ =>
  }

  lemma SmallEntry(c: Ceilings, e: Entry, depth: nat, around: Measure, parseFloat: string -> Option<string>)
    requires PlainEntry(e, parseFloat) && PrintableEntry(e) && Inside(MeasuredEntry(e), around) && Small(c, around, depth)
    ensures Small(c, Measured(e.value), depth) && TextFaults(c, e.key.text) == {}
  {
    hide Measured, Plain, TextFaults;
    TextFaultless(c, e.key.text);
  }

  /** What breaks no ceiling at one depth breaks none at another that leaves its nesting room. */
  lemma {:induction false} ShallowFaults(c: Ceilings, v: Value, depth: nat, other: nat)
    requires Printable(v) && Faults(c, v, depth) == {} && other + Measured(v).height <= c.depth
    ensures Faults(c, v, other) == {}
    decreases v, 1
  {
    hide ItemsFaults, ValuesFaults, KeysFaults, MappingFaults, MeasuredItems, MeasuredEntries;
    match v
    case List(items) => ShallowItems(c, items, depth + 1, other + 1);
    case Tuple(items) => ShallowItems(c, items, depth + 1, other + 1);
    case Dict(entries) => ShallowEntries(c, entries, depth + 1, other + 1);
    case _ =>
  }

  lemma {:induction false} ShallowItems(c: Ceilings, items: seq<Value>, depth: nat, other: nat)
    requires PrintableItems(items) && ItemsFaults(c, items, depth) == {}
    requires other + MeasuredItems(items).height <= c.depth
    ensures ItemsFaults(c, items, other) == {}
    decreases items, 0
  {
    hide Printable, Measured, Faults;
    if items != [] {
      ShallowFaults(c, items[0], depth, other);
      ShallowItems(c, items[1..], depth, other);
    }
  }

  lemma {:induction false} ShallowEntries(c: Ceilings, entries: seq<Entry>, depth: nat, other: nat)
    requires PrintableEntries(entries) && KeysFaults(c, entries, depth) == {} && ValuesFaults(c, entries, depth) == {}
    requires other + MeasuredEntries(entries).height <= c.depth
    ensures KeysFaults(c, entries, other) == {} && ValuesFaults(c, entries, other) == {}
    decreases entries, 0
  {
    hide PrintableEntry, MeasuredEntry, KeyFaults, ValueFaults;
    if entries != [] {
      ShallowEntry(c, entries[0], depth, other);
      ShallowEntries(c, entries[1..], depth, other);
    }
  }

  lemma {:induction false} ShallowEntry(c: Ceilings, e: Entry, depth: nat, other: nat)
    requires PrintableEntry(e) && ValueFaults(c, e, depth) == {} && other + MeasuredEntry(e).height <= c.depth
    ensures ValueFaults(c, e, other) == {}
    decreases e, 0
  {
    ShallowFaults(c, e.value, depth, other);
  }

  // ---------------------------------------------------------------------------
  // Running totals
  // ---------------------------------------------------------------------------

  /** A node is counted for each token of the stored text. */
  lemma {:induction false} NodesAreTokens(c: Ceilings, v: Value)
    requires Printable(v)
    ensures TreeCost(c, v).nodes == Measured(v).tokens
    decreases v, 1
  {
    hide ItemsCost, KeysCost, ValuesCost, MeasuredItems, MeasuredEntries, BitLength;
    match v
    case List(items) => ItemNodes(c, items, true);
    case Tuple(items) => ItemNodes(c, items, true);
    case Dict(entries) => EntryNodes(c, entries, true, SortRounds(entries));
    case _ =>
  }

  lemma {:induction false} ItemNodes(c: Ceilings, items: seq<Value>, first: bool)
    requires PrintableItems(items)
    ensures ItemsCost(c, items, first).nodes == MeasuredItems(items).tokens
    decreases items, 0
  {
    hide Printable, Measured, TreeCost;
    if items != [] {
      NodesAreTokens(c, items[0]);
      ItemNodes(c, items[1..], false);
    }
  }

  lemma {:induction false} EntryNodes(c: Ceilings, entries: seq<Entry>, first: bool, rounds: nat)
    requires PrintableEntries(entries)
    ensures KeysCost(c, entries, rounds).nodes + ValuesCost(c, entries, first).nodes == MeasuredEntries(entries).tokens
    decreases entries, 0
  {
    hide PrintableEntry, MeasuredEntry, ValueCost, KeyCost;
    if entries != [] {
      EntryNode(c, entries[0], rounds);
      EntryNodes(c, entries[1..], false, rounds);
    }
  }

  lemma {:induction false} EntryNode(c: Ceilings, e: Entry, rounds: nat)
    requires PrintableEntry(e)
    ensures KeyCost(c, e.key, rounds).nodes + ValueCost(c, e).nodes == MeasuredEntry(e).tokens
    decreases e, 0
  {
    NodesAreTokens(c, e.value);
  }

  lemma {:induction false} Bits(n: nat, k: nat, top: nat)
    requires n < top && top == Shift2(k)
    ensures BitLength(n) <= k
    decreases k
  {
    if n > 0 {
      Bits(n / 2, k - 1, Shift2(k - 1));
    }
  }

  function Shift2(k: nat): (n: nat)
    ensures n >= 1
  {
    if k == 0 then 1 else 2 * Shift2(k - 1)
  }

  lemma SixteenBits()
    ensures Shift2(16) == 65_536
  {
    assert Shift2(4) == 16;
    assert Shift2(8) == 256;
    assert Shift2(12) == 4_096;
  }

  lemma RoundsAreFew(entries: seq<Entry>)
    requires |entries| <= 65_536
    ensures SortRounds(entries) <= 16
  {
    SixteenBits();
    if entries != [] {
      Bits(|entries| - 1, 16, 65_536);
    } else {
      assert BitLength(-1) == BitLength(1) == 1 + BitLength(0);
    }
  }

  lemma {:induction false} KeysWork(c: Ceilings, entries: seq<Entry>, rounds: nat)
    requires rounds <= 16
    ensures KeysCost(c, entries, rounds).sortWork <= 16 * KeysCost(c, entries, rounds).bytes
  {
    if entries != [] {
      KeysWork(c, entries[1..], rounds);
      WorkAtMost(KeyWidth(c, entries[0].key), rounds);
    }
  }

  lemma WorkAtMost(width: nat, rounds: nat)
    requires rounds <= 16
    ensures Work(width, rounds) <= 16 * width
  {
  }

  /** Sorting costs at most sixteen times the bytes. */
  lemma {:induction false} WorkBounded(c: Ceilings, v: Value, depth: nat)
    requires Faults(c, v, depth) == {} && c.entries <= 65_536
    ensures TreeCost(c, v).sortWork <= 16 * TreeCost(c, v).bytes
    decreases v, 1
  {
    hide ItemsCost, KeysCost, ValuesCost, ItemsFaults, KeysFaults, ValuesFaults, BitLength, OneFamily, DistinctNormal;
    match v
    case EnumMember(member) => WorkBounded(c, member, depth);
    case List(items) => ItemsWork(c, items, true, depth + 1);
    case Tuple(items) => ItemsWork(c, items, true, depth + 1);
    case Dict(entries) =>
      RoundsAreFew(entries);
      KeysWork(c, entries, SortRounds(entries));
      ValuesWork(c, entries, true, depth + 1);
    case _ =>
  }

  lemma {:induction false} ItemsWork(c: Ceilings, items: seq<Value>, first: bool, depth: nat)
    requires ItemsFaults(c, items, depth) == {} && c.entries <= 65_536
    ensures ItemsCost(c, items, first).sortWork <= 16 * ItemsCost(c, items, first).bytes
    decreases items, 0
  {
    hide TreeCost, Faults;
    if items != [] {
      WorkBounded(c, items[0], depth);
      ItemsWork(c, items[1..], false, depth);
    }
  }

  lemma {:induction false} ValuesWork(c: Ceilings, entries: seq<Entry>, first: bool, depth: nat)
    requires ValuesFaults(c, entries, depth) == {} && c.entries <= 65_536
    ensures ValuesCost(c, entries, first).sortWork <= 16 * ValuesCost(c, entries, first).bytes
    decreases entries, 0
  {
    hide TreeCost, Faults;
    if entries != [] {
      ValueWork(c, entries[0], depth);
      ValuesWork(c, entries[1..], false, depth);
    }
  }

  lemma {:induction false} ValueWork(c: Ceilings, e: Entry, depth: nat)
    requires ValueFaults(c, e, depth) == {} && c.entries <= 65_536
    ensures ValueCost(c, e).sortWork <= 16 * ValueCost(c, e).bytes
    decreases e, 0
  {
    WorkBounded(c, e.value, depth);
  }

  /** The compact text is no longer than the indented one. */
  lemma {:induction false} CompactShorter(level: nat, other: nat, v: Value)
    ensures |Print(Compact, level, v)| <= |Print(Indented, other, v)|
    decreases v, 1
  {
    hide PrintItems, PrintEntries;
    match v
    case List(items) => CompactItems(level + 1, other + 1, items);
    case Tuple(items) => CompactItems(level + 1, other + 1, items);
    case Dict(entries) => CompactEntries(level + 1, other + 1, entries);
    case _ =>
  }

  lemma {:induction false} CompactItems(level: nat, other: nat, items: seq<Value>)
    ensures |PrintItems(Compact, level, items)| <= |PrintItems(Indented, other, items)|
    decreases items, 0
  {
    hide Print;
    if items != [] {
      CompactShorter(level, other, items[0]);
      CompactItems(level, other, items[1..]);
    }
  }

  lemma {:induction false} CompactEntries(level: nat, other: nat, entries: seq<Entry>)
    ensures |PrintEntries(Compact, level, entries)| <= |PrintEntries(Indented, other, entries)|
    decreases entries, 0
  {
    hide PrintEntry;
    if entries != [] {
      CompactEntry(level, other, entries[0]);
      CompactEntries(level, other, entries[1..]);
    }
  }

  lemma {:induction false} CompactEntry(level: nat, other: nat, e: Entry)
    ensures |PrintEntry(Compact, level, e)| <= |PrintEntry(Indented, other, e)|
    decreases e, 0
  {
    hide Print, KeyText;
    CompactShorter(level, other, e.value);
  }

  /** A tree that breaks no local ceiling, and whose stored text is small, is within the running totals too. */
  lemma WithinBySize(c: Ceilings, v: Value, level: nat, parseFloat: string -> Option<string>)
    requires Plain(v, parseFloat) && Printable(v) && Faults(c, v, 0) == {} && c.entries <= 65_536
    requires Measured(v).tokens <= c.nodes && |Print(Indented, level, SortTree(v))| <= c.bytes && 16 * c.bytes <= c.sortWork
    ensures Within(c, TreeCost(c, v))
  {
    hide Faults, TreeCost, Measured, Print, SortTree, Plain, Printable;
    NodesAreTokens(c, v);
    BytesExact(c, v, 0, 0);
    PlainNormal(c, v, parseFloat);
    SortedLength(0, v);
    CompactShorter(0, level, SortTree(v));
    WorkBounded(c, v, 0);
  }
}
