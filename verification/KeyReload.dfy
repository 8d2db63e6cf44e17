/**
 What becomes of keys that are not strings: they are printed as strings, and read back as strings. The canonical text,
 and with it the hash, survives a reload exactly when sorting the keys and sorting their names is the same.
 */
module KeyReload {
  import opened ActionSnapshot
  import opened CanonicalJson
  import opened CanonicalTrees
  import opened JournalPayload
  import opened JsonDecoder
  import opened PythonText
  import opened RoundTrip
  import opened ScannerAgreement
  import opened Wrappers

  /** A key the encoder prints; the `repr` of a float is plain text. */
  predicate KeyOk(k: Key) {
    PrintableKey(k) && (k.FloatKey? ==> AllPlain(Codes(k.repr)))
  }

  /** Trees as `_enum_safe` leaves them, with keys the encoder prints and can sort: all of a mapping's of one family. */
  ghost predicate Keyed(v: Value)
    decreases v
  {
    match v
    case Null => true
    case Bool(_) => true
    case Int(_) => true
    case Str(_) => true
    case Float(_) => true
    case List(items) => forall i :: 0 <= i < |items| ==> Keyed(items[i])
    case Dict(entries) => OneFamily(entries) && forall i :: 0 <= i < |entries| ==> KeyedEntry(entries[i])
    case _ => false
  }

  ghost predicate KeyedEntry(e: Entry)
    decreases e
  {
    KeyOk(e.key) && Keyed(e.value)
  }

  ghost predicate KeyedEntries(es: seq<Entry>) {
    forall i :: 0 <= i < |es| ==> KeyedEntry(es[i])
  }

  /** The string key that a key is after a reload. */
  function Named(k: Key): Key
    requires KeyOk(k)
  {
    if k.StrKey? then k else StrKey(Codes(PlainKeyBody(k)))
  }

  /** The tree with every key named, in the order it has. */
  ghost function NamedTree(v: Value): Value
    requires Keyed(v)
    decreases v
  {
    match v
    case List(items) => List(seq(|items|, i requires 0 <= i < |items| => NamedTree(items[i])))
    case Dict(entries) => Dict(seq(|entries|, i requires 0 <= i < |entries| => NamedEntry(entries[i])))
    case _ => v
  }

  ghost function NamedEntry(e: Entry): Entry
    requires KeyedEntry(e)
    decreases e
  {
    Entry(Named(e.key), NamedTree(e.value))
  }

  // ---------------------------------------------------------------------------
  // Names print alike
  // ---------------------------------------------------------------------------

  lemma {:induction false} EscapePlain(t: string)
    requires AllPlain(Codes(t))
    ensures EscapeText(Codes(t)) == t
  {
    if t != "" {
      var s := Codes(t);
      assert s[1..] == Codes(t[1..]);
      assert PlainAscii(s[0]);
      forall i | 0 <= i < |Codes(t[1..])|
        ensures PlainAscii(Codes(t[1..])[i])
      {
        assert s[i + 1] == Codes(t[1..])[i];
      }
      EscapePlain(t[1..]);
      assert Escape(s[0]) == [t[0]];
      assert t == [t[0]] + t[1..];
    }
  }

  lemma DigitsArePlain(t: string)
    requires forall i :: 0 <= i < |t| ==> IsDigit(t[i]) || t[i] == '-'
    ensures AllPlain(Codes(t))
  {
  }

  lemma NameIsPlain(k: Key)
    requires KeyOk(k) && !k.StrKey?
    ensures AllPlain(Codes(PlainKeyBody(k)))
  {
    if k.IntKey? {
      NatTextSpells(if k.n < 0 then -k.n else k.n);
      DigitsArePlain(IntText(k.n));
    }
  }

  lemma NamedText(k: Key)
    requires KeyOk(k)
    ensures KeyText(Named(k)) == KeyText(k)
  {
    hide EscapeText, Codes, AllPlain, IntText, NumberLike;
    if !k.StrKey? {
      NameIsPlain(k);
      EscapePlain(PlainKeyBody(k));
    }
  }

  lemma {:induction false} NamedPrint(style: Style, level: nat, v: Value)
    requires Keyed(v)
    ensures Print(style, level, NamedTree(v)) == Print(style, level, v)
    decreases v, 1
  {
    hide PrintItems, PrintEntries;
    match v
    case List(items) =>
      forall i | 0 <= i < |items|
        ensures Print(style, level + 1, NamedTree(v).items[i]) == Print(style, level + 1, items[i])
      {
        NamedPrint(style, level + 1, items[i]);
      }
      SameItemsPrint(style, level + 1, NamedTree(v).items, items);
    case Dict(entries) =>
      forall i | 0 <= i < |entries|
        ensures PrintEntry(style, level + 1, NamedTree(v).entries[i]) == PrintEntry(style, level + 1, entries[i])
      {
        NamedText(entries[i].key);
        NamedPrint(style, level + 1, entries[i].value);
      }
      SameEntriesPrint(style, level + 1, NamedTree(v).entries, entries);
    case _ =>
  }

  lemma {:induction false} SameItemsPrint(style: Style, level: nat, a: seq<Value>, b: seq<Value>)
    requires |a| == |b| && forall i :: 0 <= i < |a| ==> Print(style, level, a[i]) == Print(style, level, b[i])
    ensures PrintItems(style, level, a) == PrintItems(style, level, b)
  {
    hide Print;
    if |a| > 1 {
      SameItemsPrint(style, level, a[1..], b[1..]);
    }
  }

  lemma {:induction false} SameEntriesPrint(style: Style, level: nat, a: seq<Entry>, b: seq<Entry>)
    requires |a| == |b| && forall i :: 0 <= i < |a| ==> PrintEntry(style, level, a[i]) == PrintEntry(style, level, b[i])
    ensures PrintEntries(style, level, a) == PrintEntries(style, level, b)
  {
    hide PrintEntry;
    if |a| > 1 {
      SameEntriesPrint(style, level, a[1..], b[1..]);
    }
  }

  // ---------------------------------------------------------------------------
  // Sorting
  // ---------------------------------------------------------------------------

  lemma {:induction false} InsertKeyed(e: Entry, es: seq<Entry>)
    requires KeyedEntry(e) && KeyedEntries(es)
    ensures KeyedEntries(Insert(e, es))
  {
    hide EntryLess, KeyedEntry;
    if es != [] && !EntryLess(e, es[0]) {
      InsertKeyed(e, es[1..]);
    }
  }

  lemma {:induction false} SortKeepsKeyed(es: seq<Entry>)
    requires KeyedEntries(es)
    ensures KeyedEntries(Sort(es))
  {
    hide KeyedEntry, Insert;
    if es != [] {
      SortKeepsKeyed(es[1..]);
      InsertKeyed(es[0], Sort(es[1..]));
    }
  }

  ghost predicate OfFamily(es: seq<Entry>, family: Family) {
    forall i :: 0 <= i < |es| ==> FamilyOf(es[i].key) == family
  }

  lemma {:induction false} InsertOfFamily(e: Entry, es: seq<Entry>, family: Family)
    requires FamilyOf(e.key) == family && OfFamily(es, family)
    ensures OfFamily(Insert(e, es), family)
  {
    hide EntryLess, FamilyOf;
    if es != [] && !EntryLess(e, es[0]) {
      InsertOfFamily(e, es[1..], family);
    }
  }

  lemma {:induction false} SortOfFamily(es: seq<Entry>, family: Family)
    requires OfFamily(es, family)
    ensures OfFamily(Sort(es), family)
  {
    hide FamilyOf, Insert;
    if es != [] {
      SortOfFamily(es[1..], family);
      InsertOfFamily(es[0], Sort(es[1..]), family);
    }
  }

  lemma SortKeepsFamily(entries: seq<Entry>)
    requires OneFamily(entries)
    ensures OneFamily(Sort(SortEntries(entries)))
  {
    hide FamilyOf, Sort, SortEntries;
    if entries != [] {
      SortEntriesLength(entries);
      forall i | 0 <= i < |entries|
        ensures SortEntries(entries)[i].key == entries[i].key
      {
        SortEntriesAt(entries, i);
      }
      SortOfFamily(SortEntries(entries), FamilyOf(entries[0].key));
    } else {
      assert Sort(SortEntries(entries)) == [] by {
        NothingSorted();
      }
    }
  }

  lemma NothingSorted()
    ensures Sort(SortEntries([])) == []
  {
  }

  lemma {:induction false} SortedKeyed(v: Value)
    requires Keyed(v)
    ensures Keyed(SortTree(v))
    decreases v
  {
    match v
    case List(items) =>
      SortItemsLength(items);
      forall i | 0 <= i < |items|
        ensures Keyed(SortItems(items)[i])
      {
        SortItemsAt(items, i);
        SortedKeyed(items[i]);
      }
    case Dict(entries) =>
      SortEntriesLength(entries);
      forall i | 0 <= i < |entries|
        ensures KeyedEntry(SortEntries(entries)[i])
      {
        SortEntriesAt(entries, i);
        SortedKeyed(entries[i].value);
      }
      SortKeepsKeyed(SortEntries(entries));
      SortKeepsFamily(entries);
    case _ =>
  }

  lemma {:induction false} KeyedIsSafe(v: Value)
    requires Keyed(v)
    ensures EnumSafe(v) == v
    decreases v, 1
  {
    match v
    case List(items) => KeyedItemsSafe(items);
    case Dict(entries) => KeyedEntriesSafe(entries);
    case _ =>
  }

  lemma {:induction false} KeyedItemsSafe(items: seq<Value>)
    requires forall i :: 0 <= i < |items| ==> Keyed(items[i])
    ensures EnumSafeItems(items) == items
    decreases items, 0
  {
    hide EnumSafe, Keyed;
    if items != [] {
      KeyedIsSafe(items[0]);
      KeyedItemsSafe(items[1..]);
    }
  }

  lemma {:induction false} KeyedEntriesSafe(entries: seq<Entry>)
    requires KeyedEntries(entries)
    ensures EnumSafeEntries(entries) == entries
    decreases entries, 0
  {
    hide EnumSafe, Keyed;
    if entries != [] {
      KeyedEntrySafe(entries[0]);
      KeyedEntriesSafe(entries[1..]);
    }
  }

  lemma {:induction false} KeyedEntrySafe(e: Entry)
    requires KeyedEntry(e)
    ensures EnumSafeEntry(e) == e
    decreases e, 0
  {
    KeyedIsSafe(e.value);
  }

  /** In every mapping of the tree the keys stand in order. */
  ghost predicate InOrder(v: Value)
    decreases v
  {
    match v
    case List(items) => forall i :: 0 <= i < |items| ==> InOrder(items[i])
    case Dict(entries) => Ordered(entries) && forall i :: 0 <= i < |entries| ==> EntryInOrder(entries[i])
    case _ => true
  }

  ghost predicate EntryInOrder(e: Entry)
    decreases e
  {
    InOrder(e.value)
  }

  /** Sorting leaves alone exactly the trees that are in order. */
  lemma {:induction false} SortedIffInOrder(v: Value, parseFloat: string -> Option<string>)
    requires Plain(v, parseFloat)
    ensures SortTree(v) == v <==> InOrder(v)
    decreases v, 1
  {
    match v
    case List(items) =>
      SortItemsLength(items);
      forall i | 0 <= i < |items|
        ensures SortItems(items)[i] == items[i] <==> InOrder(items[i])
      {
        SortItemsAt(items, i);
        SortedIffInOrder(items[i], parseFloat);
      }
    case Dict(entries) => SortedDictIffInOrder(entries, parseFloat);
    case _ =>
  }

  lemma {:induction false} SortedDictIffInOrder(entries: seq<Entry>, parseFloat: string -> Option<string>)
    requires Plain(Dict(entries), parseFloat)
    ensures Sort(SortEntries(entries)) == entries <==> Ordered(entries) && forall i :: 0 <= i < |entries| ==> EntryInOrder(entries[i])
    decreases entries, 0
  {
    hide Sort, Ordered, SortEntries, SortTree, InOrder, Plain;
    assert StringKeys(entries) && DistinctKeys(entries) && PlainEntries(entries, parseFloat) by {
      PlainDict(entries, parseFloat);
    }
    SortedDict(entries);
    SortEntriesLength(entries);
    forall i | 0 <= i < |entries|
      ensures SortEntries(entries)[i].key == entries[i].key
      ensures SortEntries(entries)[i] == entries[i] <==> EntryInOrder(entries[i])
    {
      SortEntriesAt(entries, i);
      SortedIffInOrder(entries[i].value, parseFloat);
    }
    if Ordered(entries) {
      SameKeysOrdered(entries, SortEntries(entries));
      SortOrdered(SortEntries(entries));
    }
  }

  lemma PlainDict(entries: seq<Entry>, parseFloat: string -> Option<string>)
    requires Plain(Dict(entries), parseFloat)
    ensures StringKeys(entries) && DistinctKeys(entries) && PlainEntries(entries, parseFloat)
  {
  }

  lemma SameKeysOrdered(a: seq<Entry>, b: seq<Entry>)
    requires Ordered(a) && |a| == |b| && forall i :: 0 <= i < |a| ==> b[i].key == a[i].key
    ensures Ordered(b)
  {
    forall i, j | 0 <= i < j < |b|
      ensures EntryLess(b[i], b[j])
    {
      assert EntryLess(a[i], a[j]);
    }
  }

  /** What a tree with keys of any kind is read back as: its keys named, in the order they were sorted in. */
  ghost function Reloaded(v: Value): Value
    requires Keyed(v)
  {
    SortedKeyed(v);
    NamedTree(SortTree(v))
  }

  /**
   A tree with keys of any kind is read back with its keys named, in the order they were sorted in. The canonical text of
   what is read back is the text it was read from exactly when that order is the order of the names too.
   */
  lemma ReloadKeepsText(v: Value, parseFloat: string -> Option<string>)
    requires Keyed(v) && Plain(Reloaded(v), parseFloat) && Whole(Reloaded(v))
    ensures Decode(CanonicalText(v), parseFloat) == Some(Reloaded(v))
    ensures CanonicalText(Reloaded(v)) == CanonicalText(v) <==> InOrder(Reloaded(v))
  {
    hide Keyed, Plain, Whole, InOrder, NamedTree, SortTree, EnumSafe, Print, Decode;
    var reloaded := Reloaded(v);
    SortedKeyed(v);
    KeyedIsSafe(v);
    EnumSafePlain(reloaded, parseFloat);
    NamedPrint(Compact, 0, SortTree(v));
    RoundTripExact(Compact, reloaded, parseFloat);
    SortKeepsPlain(reloaded, parseFloat);
    SortedIffInOrder(reloaded, parseFloat);
    if CanonicalText(reloaded) == CanonicalText(v) {
      PrintInjective(Compact, SortTree(reloaded), reloaded, parseFloat);
    }
  }
}
