/**
 Enum keys. The walk replaces a key by the enum's value; the plain canonical form leaves it to the encoder, which sorts and
 prints a key of a string, integer or float enum as that string or number. Both give the same text.
 */
module EnumKeys {
  import opened ActionSnapshot
  import opened CanonicalJson
  import opened SnapshotExactness

  /** The tree with every enum key replaced by its value. */
  function Bare(v: Value): Value
    decreases v
  {
    match v
    case List(items) => List(BareItems(items))
    case Tuple(items) => Tuple(BareItems(items))
    case Dict(entries) => Dict(BareEntries(entries))
    case _ => v
  }

  function BareItems(items: seq<Value>): (r: seq<Value>)
    ensures |r| == |items|
    decreases items
  {
    if items == [] then [] else [Bare(items[0])] + BareItems(items[1..])
  }

  function BareEntries(entries: seq<Entry>): (r: seq<Entry>)
    ensures |r| == |entries|
    decreases entries
  {
    if entries == [] then [] else [BareEntry(entries[0])] + BareEntries(entries[1..])
  }

  function BareEntry(e: Entry): Entry
    decreases e
  {
    Entry(BareKey(e.key), Bare(e.value))
  }

  // ---------------------------------------------------------------------------
  // The encoder does not see the difference
  // ---------------------------------------------------------------------------

  lemma {:induction false} BarePrint(style: Style, level: nat, v: Value)
    ensures Print(style, level, Bare(v)) == Print(style, level, v)
    decreases v, 1
  {
    hide PrintItems, PrintEntries, BareItems, BareEntries;
    match v
    case List(items) => BarePrintItems(style, level + 1, items);
    case Tuple(items) => BarePrintItems(style, level + 1, items);
    case Dict(entries) => BarePrintEntries(style, level + 1, entries);
    case _ =>
  }

  lemma {:induction false} BarePrintItems(style: Style, level: nat, items: seq<Value>)
    ensures PrintItems(style, level, BareItems(items)) == PrintItems(style, level, items)
    decreases items, 0
  {
    hide Print, Bare;
    if items != [] {
      BarePrint(style, level, items[0]);
      BarePrintItems(style, level, items[1..]);
      assert BareItems(items)[1..] == BareItems(items[1..]);
    }
  }

  lemma {:induction false} BarePrintEntries(style: Style, level: nat, entries: seq<Entry>)
    ensures PrintEntries(style, level, BareEntries(entries)) == PrintEntries(style, level, entries)
    decreases entries, 0
  {
    hide PrintEntry, BareEntry;
    if entries != [] {
      BarePrintEntry(style, level, entries[0]);
      BarePrintEntries(style, level, entries[1..]);
      assert BareEntries(entries)[1..] == BareEntries(entries[1..]);
    }
  }

  lemma {:induction false} BarePrintEntry(style: Style, level: nat, e: Entry)
    ensures PrintEntry(style, level, BareEntry(e)) == PrintEntry(style, level, e)
    decreases e, 0
  {
    BarePrint(style, level, e.value);
  }

  lemma {:induction false} BareInsert(e: Entry, es: seq<Entry>)
    ensures BareEntries(Insert(e, es)) == Insert(BareEntry(e), BareEntries(es))
  {
    hide Bare;
    if es != [] && !EntryLess(e, es[0]) {
      BareInsert(e, es[1..]);
      assert Insert(e, es)[1..] == Insert(e, es[1..]) && BareEntries(es)[1..] == BareEntries(es[1..]);
    } else {
      assert ([e] + es)[1..] == es;
    }
  }

  /** Sorting by the keys or by their values is the same. */
  lemma {:induction false} BareSort(v: Value)
    ensures Bare(SortTree(v)) == SortTree(Bare(v))
    decreases v, 1
  {
    hide BareItems, BareEntries, SortItems, SortEntries, Sort;
    match v
    case List(items) => BareSortItems(items);
    case Tuple(items) => BareSortItems(items);
    case Dict(entries) => BareSortEntries(entries);
    case _ =>
  }

  lemma {:induction false} BareSortItems(items: seq<Value>)
    ensures BareItems(SortItems(items)) == SortItems(BareItems(items))
    decreases items, 0
  {
    hide Bare, SortTree;
    if items != [] {
      BareSort(items[0]);
      BareSortItems(items[1..]);
      assert SortItems(items)[1..] == SortItems(items[1..]) && BareItems(items)[1..] == BareItems(items[1..]);
    }
  }

  lemma {:induction false} BareSortEntries(entries: seq<Entry>)
    ensures BareEntries(Sort(SortEntries(entries))) == Sort(SortEntries(BareEntries(entries)))
    decreases entries, 0
  {
    hide BareEntry, SortEntry, Insert;
    if entries != [] {
      BareSortEntry(entries[0]);
      BareSortEntries(entries[1..]);
      assert SortEntries(entries)[1..] == SortEntries(entries[1..]) && BareEntries(entries)[1..] == BareEntries(entries[1..]);
      assert SortEntries(BareEntries(entries))[1..] == SortEntries(BareEntries(entries[1..]));
      BareInsert(SortEntry(entries[0]), Sort(SortEntries(entries[1..])));
    }
  }

  lemma {:induction false} BareSortEntry(e: Entry)
    ensures BareEntry(SortEntry(e)) == SortEntry(BareEntry(e))
    decreases e, 0
  {
    BareSort(e.value);
  }

  lemma {:induction false} BareSafe(v: Value)
    ensures EnumSafe(Bare(v)) == Bare(EnumSafe(v)) || !Flat(v)
    decreases v, 1
  {
    hide BareItems, BareEntries, EnumSafeItems, EnumSafeEntries, FlatItems, FlatEntries;
    match v
    case List(items) => BareSafeItems(items);
    case Tuple(items) => BareSafeItems(items);
    case Dict(entries) => BareSafeEntries(entries);
    case _ =>
  }

  /** Enum members hold no dictionaries. */
  ghost predicate Flat(v: Value)
    decreases v
  {
    match v
    case EnumMember(m) => !m.List? && !m.Tuple? && !m.Dict?
    case List(items) => FlatItems(items)
    case Tuple(items) => FlatItems(items)
    case Dict(entries) => FlatEntries(entries)
    case _ => true
  }

  ghost predicate FlatItems(items: seq<Value>)
    decreases items
  {
    items == [] || (Flat(items[0]) && FlatItems(items[1..]))
  }

  ghost predicate FlatEntries(entries: seq<Entry>)
    decreases entries
  {
    entries == [] || (FlatEntry(entries[0]) && FlatEntries(entries[1..]))
  }

  ghost predicate FlatEntry(e: Entry)
    decreases e
  {
    Flat(e.value)
  }

  lemma {:induction false} BareSafeItems(items: seq<Value>)
    ensures EnumSafeItems(BareItems(items)) == BareItems(EnumSafeItems(items)) || !FlatItems(items)
    decreases items, 0
  {
    hide Bare, EnumSafe, Flat;
    if items != [] {
      BareSafe(items[0]);
      BareSafeItems(items[1..]);
      assert EnumSafeItems(items)[1..] == EnumSafeItems(items[1..]) && BareItems(items)[1..] == BareItems(items[1..]);
    }
  }

  lemma {:induction false} BareSafeEntries(entries: seq<Entry>)
    ensures EnumSafeEntries(BareEntries(entries)) == BareEntries(EnumSafeEntries(entries)) || !FlatEntries(entries)
    decreases entries, 0
  {
    hide BareEntry, EnumSafeEntry, FlatEntry;
    if entries != [] {
      BareSafeEntry(entries[0]);
      BareSafeEntries(entries[1..]);
      assert EnumSafeEntries(entries)[1..] == EnumSafeEntries(entries[1..]) && BareEntries(entries)[1..] == BareEntries(entries[1..]);
    }
  }

  lemma {:induction false} BareSafeEntry(e: Entry)
    ensures EnumSafeEntry(BareEntry(e)) == BareEntry(EnumSafeEntry(e)) || !FlatEntry(e)
    decreases e, 0
  {
    BareSafe(e.value);
  }

  /** The canonical text is that of the tree without enum keys. */
  lemma BareText(v: Value)
    requires Flat(v)
    ensures CanonicalText(Bare(v)) == CanonicalText(v)
  {
    hide Bare, EnumSafe, SortTree, Print, Flat;
    BareSafe(v);
    BareSort(EnumSafe(v));
    BarePrint(Compact, 0, SortTree(EnumSafe(v)));
  }

  // ---------------------------------------------------------------------------
  // Nor does the walk, but for the nodes it counts
  // ---------------------------------------------------------------------------

  /** The walk makes the same of both trees. */
  lemma {:induction false} BareNormal(c: Ceilings, v: Value, depth: nat)
    ensures Normal(c, Bare(v)) == Normal(c, v)
    ensures Faults(c, Bare(v), depth) == Faults(c, v, depth)
    decreases v, 1
  {
    hide BareItems, BareEntries, NormalItems, NormalEntries, ItemsFaults, ValuesFaults, KeysFaults, NormalKeys;
    match v
    case List(items) => BareNormalItems(c, items, depth + 1);
    case Tuple(items) => BareNormalItems(c, items, depth + 1);
    case Dict(entries) =>
      BareNormalEntries(c, entries, depth + 1);
      BareFamilies(entries);
    case _ =>
  }

  lemma {:induction false} BareNormalItems(c: Ceilings, items: seq<Value>, depth: nat)
    ensures NormalItems(c, BareItems(items)) == NormalItems(c, items)
    ensures ItemsFaults(c, BareItems(items), depth) == ItemsFaults(c, items, depth)
    decreases items, 0
  {
    hide Bare, Normal, Faults;
    if items != [] {
      BareNormal(c, items[0], depth);
      BareNormalItems(c, items[1..], depth);
      assert BareItems(items)[1..] == BareItems(items[1..]);
    }
  }

  lemma {:induction false} BareNormalEntries(c: Ceilings, entries: seq<Entry>, depth: nat)
    ensures NormalEntries(c, BareEntries(entries)) == NormalEntries(c, entries)
    ensures NormalKeys(c, BareEntries(entries)) == NormalKeys(c, entries)
    ensures KeysFaults(c, BareEntries(entries), depth) == KeysFaults(c, entries, depth)
    ensures ValuesFaults(c, BareEntries(entries), depth) == ValuesFaults(c, entries, depth)
    decreases entries, 0
  {
    hide Bare, Normal, Faults;
    if entries != [] {
      BareNormalEntry(c, entries[0], depth);
      BareNormalEntries(c, entries[1..], depth);
      assert BareEntries(entries)[1..] == BareEntries(entries[1..]);
    }
  }

  lemma {:induction false} BareNormalEntry(c: Ceilings, e: Entry, depth: nat)
    ensures NormalEntry(c, BareEntry(e)) == NormalEntry(c, e)
    ensures NormalKey(c, BareKey(e.key)) == NormalKey(c, e.key) && KeyFaults(c, BareKey(e.key)) == KeyFaults(c, e.key)
    ensures ValueFaults(c, BareEntry(e), depth) == ValueFaults(c, e, depth)
    decreases e, 0
  {
    BareNormal(c, e.value, depth);
  }

  /** The value of an enum key is of the enum's family. */
  lemma BareFamilies(entries: seq<Entry>)
    ensures OneFamily(BareEntries(entries)) == OneFamily(entries)
  {
    hide BareEntries;
    forall i | 0 <= i < |entries|
      ensures FamilyOf(BareEntries(entries)[i].key) == FamilyOf(entries[i].key)
    {
      BareEntriesAt(entries, i);
    }
  }

  lemma {:induction false} BareEntriesAt(entries: seq<Entry>, i: nat)
    requires i < |entries|
    ensures BareEntries(entries)[i] == BareEntry(entries[i])
  {
    hide BareEntry;
    if i > 0 {
      BareEntriesAt(entries[1..], i - 1);
    }
  }

  lemma {:induction false} BareZeros(v: Value)
    ensures NegativeZeros(Bare(v)) == NegativeZeros(v) && (Simple(Bare(v)) ==> Flat(v))
    decreases v, 1
  {
    hide BareItems, BareEntries, NegativeZerosInItems, NegativeZerosInEntries, SimpleItems, SimpleEntries, FlatItems, FlatEntries;
    match v
    case List(items) => BareItemsZeros(items);
    case Tuple(items) => BareItemsZeros(items);
    case Dict(entries) => BareEntriesZeros(entries);
    case _ =>
  }

  lemma {:induction false} BareItemsZeros(items: seq<Value>)
    ensures NegativeZerosInItems(BareItems(items)) == NegativeZerosInItems(items)
    ensures SimpleItems(BareItems(items)) ==> FlatItems(items)
    decreases items, 0
  {
    hide Bare, NegativeZeros, Simple, Flat;
    if items != [] {
      BareZeros(items[0]);
      BareItemsZeros(items[1..]);
      assert BareItems(items)[1..] == BareItems(items[1..]);
    }
  }

  lemma {:induction false} BareEntriesZeros(entries: seq<Entry>)
    ensures NegativeZerosInEntries(BareEntries(entries)) == NegativeZerosInEntries(entries)
    ensures SimpleEntries(BareEntries(entries)) ==> FlatEntries(entries)
    decreases entries, 0
  {
    hide Bare, NegativeZeros, Simple, Flat;
    if entries != [] {
      BareEntryZeros(entries[0]);
      BareEntriesZeros(entries[1..]);
      assert BareEntries(entries)[1..] == BareEntries(entries[1..]);
    }
  }

  lemma {:induction false} BareEntryZeros(e: Entry)
    ensures NegativeZerosInEntry(BareEntry(e)) == NegativeZerosInEntry(e) && (SimpleEntry(BareEntry(e)) ==> FlatEntry(e))
    decreases e, 0
  {
    BareZeros(e.value);
  }

  /**
   The bounded hash and the plain hash read the same text exactly when no decimal is a negative zero, also where keys are
   members of string, integer or float enums.
   */
  lemma SnapshotTextIsCanonical(c: Ceilings, v: Value)
    requires Simple(Bare(v)) && Faults(c, v, 0) == {}
    ensures Print(Compact, 0, SortTree(Normal(c, v))) == CanonicalText(v) <==> NegativeZeros(v) == 0
  {
    hide Bare, Simple, Faults, Normal, NegativeZeros, SortTree, Print, CanonicalText, Flat;
    BareNormal(c, v, 0);
    BareZeros(v);
    BareText(v);
    SnapshotExactness.SnapshotTextIsCanonical(c, Bare(v));
  }
}
