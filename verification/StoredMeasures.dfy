/**
 Measures of stored trees: they do not depend on the order of entries, and the number of tokens and the length of the
 numbers are bounded by what the snapshot allows and by the length of the indented text.
 */
module StoredMeasures {
  import opened ActionSnapshot
  import opened CanonicalJson
  import opened CanonicalTrees
  import opened JsonDecoder
  import opened ScannerAgreement
  import opened StrictJson

  ghost predicate PrintableItems(items: seq<Value>) {
    forall i :: 0 <= i < |items| ==> Printable(items[i])
  }

  ghost predicate PrintableEntries(entries: seq<Entry>) {
    forall i :: 0 <= i < |entries| ==> PrintableEntry(entries[i])
  }

  // ---------------------------------------------------------------------------
  // Measures do not depend on the order of entries
  // ---------------------------------------------------------------------------

  lemma {:induction false} MeasuredInsert(e: Entry, es: seq<Entry>)
    requires PrintableEntry(e) && PrintableEntries(es)
    ensures PrintableEntries(Insert(e, es)) && MeasuredEntries(Insert(e, es)) == Both(MeasuredEntry(e), MeasuredEntries(es))
  {
    hide PrintableEntry, MeasuredEntry, EntryLess;
    if es != [] && !EntryLess(e, es[0]) {
      MeasuredInsert(e, es[1..]);
      assert Insert(e, es)[1..] == Insert(e, es[1..]);
    } else {
      assert Insert(e, es)[1..] == es;
    }
  }

  lemma {:induction false} MeasuredSort(v: Value)
    requires Printable(v)
    ensures Printable(SortTree(v)) && Measured(SortTree(v)) == Measured(v)
    decreases v, 1
  {
    hide MeasuredItems, MeasuredEntries, SortItems, SortEntries, Sort;
    match v
    case List(items) => MeasuredSortItems(items);
    case Tuple(items) => MeasuredSortItems(items);
    case Dict(entries) => MeasuredSortEntries(entries);
    case _ =>
  }

  lemma {:induction false} MeasuredSortItems(items: seq<Value>)
    requires PrintableItems(items)
    ensures PrintableItems(SortItems(items)) && MeasuredItems(SortItems(items)) == MeasuredItems(items)
    decreases items, 0
  {
    hide Printable, Measured, SortTree;
    if items != [] {
      MeasuredSort(items[0]);
      MeasuredSortItems(items[1..]);
      assert SortItems(items)[1..] == SortItems(items[1..]);
    }
  }

  lemma {:induction false} MeasuredSortEntries(entries: seq<Entry>)
    requires PrintableEntries(entries)
    ensures PrintableEntries(Sort(SortEntries(entries))) && MeasuredEntries(Sort(SortEntries(entries))) == MeasuredEntries(entries)
    decreases entries, 0
  {
    hide PrintableEntry, MeasuredEntry, SortEntry, Insert;
    if entries != [] {
      MeasuredSortEntry(entries[0]);
      MeasuredSortEntries(entries[1..]);
      assert SortEntries(entries)[1..] == SortEntries(entries[1..]);
      MeasuredInsert(SortEntry(entries[0]), Sort(SortEntries(entries[1..])));
    }
  }

  lemma {:induction false} MeasuredSortEntry(e: Entry)
    requires PrintableEntry(e)
    ensures PrintableEntry(SortEntry(e)) && MeasuredEntry(SortEntry(e)) == MeasuredEntry(e)
    decreases e, 0
  {
    MeasuredSort(e.value);
  }

  // ---------------------------------------------------------------------------
  // Bounds that the snapshot and the file size already give
  // ---------------------------------------------------------------------------

  /** A payload that was accepted has no number token beyond the snapshot's ceiling. */
  lemma {:induction false} NumbersBounded(c: Ceilings, v: Value, depth: nat)
    requires Printable(v) && Faults(c, v, depth) == {}
    ensures Measured(v).numberChars <= c.numberChars
    decreases v, 1
  {
    hide MeasuredItems, MeasuredEntries, ItemsFaults, ValuesFaults, KeysFaults, MappingFaults;
    match v
    case List(items) => ItemNumbersBounded(c, items, depth + 1);
    case Tuple(items) => ItemNumbersBounded(c, items, depth + 1);
    case Dict(entries) => EntryNumbersBounded(c, entries, depth + 1);
    case _ =>
  }

  lemma {:induction false} ItemNumbersBounded(c: Ceilings, items: seq<Value>, depth: nat)
    requires PrintableItems(items) && ItemsFaults(c, items, depth) == {}
    ensures MeasuredItems(items).numberChars <= c.numberChars
    decreases items, 0
  {
    hide Printable, Measured, Faults;
    if items != [] {
      NumbersBounded(c, items[0], depth);
      ItemNumbersBounded(c, items[1..], depth);
    }
  }

  lemma {:induction false} EntryNumbersBounded(c: Ceilings, entries: seq<Entry>, depth: nat)
    requires PrintableEntries(entries) && ValuesFaults(c, entries, depth) == {}
    ensures MeasuredEntries(entries).numberChars <= c.numberChars
    decreases entries, 0
  {
    hide Printable, Measured, Faults;
    if entries != [] {
      ValueNumbersBounded(c, entries[0], depth);
      EntryNumbersBounded(c, entries[1..], depth);
    }
  }

  lemma {:induction false} ValueNumbersBounded(c: Ceilings, e: Entry, depth: nat)
    requires PrintableEntry(e) && ValueFaults(c, e, depth) == {}
    ensures MeasuredEntry(e).numberChars <= c.numberChars
    decreases e, 0
  {
    NumbersBounded(c, e.value, depth);
  }

  lemma IndentedContainer(level: nat, v: Value)
    requires v.List? || v.Tuple? || v.Dict?
    ensures var n := if v.Dict? then |v.entries| else |v.items|;
            |Print(Indented, level, v)| ==
            if n == 0 then 2
            else 3 + 2 * level + (if v.Dict? then |PrintEntries(Indented, level + 1, v.entries)|
                                  else |PrintItems(Indented, level + 1, v.items)|)
  {
  }

  lemma IndentedItems(level: nat, items: seq<Value>)
    requires items != []
    ensures |PrintItems(Indented, level, items)| == 1 + 2 * level + |Print(Indented, level, items[0])|
              + (if |items| == 1 then 0 else 1 + |PrintItems(Indented, level, items[1..])|)
  {
  }

  lemma IndentedEntries(level: nat, entries: seq<Entry>)
    requires entries != []
    ensures |PrintEntries(Indented, level, entries)| == 1 + 2 * level + |PrintEntry(Indented, level, entries[0])|
              + (if |entries| == 1 then 0 else 1 + |PrintEntries(Indented, level, entries[1..])|)
  {
  }

  lemma IndentedEntry(level: nat, e: Entry)
    requires PrintableEntry(e)
    ensures |PrintEntry(Indented, level, e)| == |KeyText(e.key)| + 2 + |Print(Indented, level, e.value)|
    ensures MeasuredEntry(e) == Both(Measure(1, 0, |KeyText(e.key)| - 2, 0), Measured(e.value)) && |KeyText(e.key)| >= 2
  {
  }

  /**
   A stored tree takes at least four characters a token, and six once it is nested two deep, because of the
   indentation; and it is longer than each of its strings.
   */
  lemma {:induction false} IndentedAtLeast(level: nat, weight: nat, v: Value)
    requires Printable(v) && weight <= level + 4
    ensures weight * Measured(v).tokens <= |Print(Indented, level, v)| + weight - 1
    ensures Measured(v).stringChars <= |Print(Indented, level, v)|
    decreases v, 1
  {
    hide MeasuredItems, MeasuredEntries, PrintItems, PrintEntries;
    NoMembers(level + 1);
    match v
    case List(items) =>
      IndentedItemsAtLeast(level + 1, weight, items);
      IndentedContainer(level, v);
      Distribute(weight, 1, MeasuredItems(items).tokens);
    case Tuple(items) =>
      IndentedItemsAtLeast(level + 1, weight, items);
      IndentedContainer(level, v);
      Distribute(weight, 1, MeasuredItems(items).tokens);
    case Dict(entries) =>
      IndentedEntriesAtLeast(level + 1, weight, entries);
      IndentedContainer(level, v);
      Distribute(weight, 1, MeasuredEntries(entries).tokens);
    case _ => LeafLength(level, v);
  }

  lemma NoMembers(level: nat)
    ensures PrintItems(Indented, level, []) == PrintEntries(Indented, level, []) == ""
    ensures MeasuredItems([]) == MeasuredEntries([]) == NOTHING
  {
  }

  lemma LeafLength(level: nat, v: Value)
    requires Printable(v) && !v.List? && !v.Tuple? && !v.Dict?
    ensures 1 <= |Print(Indented, level, v)| <= Max(Measured(v).stringChars + 2, Max(Measured(v).numberChars, 5))
    ensures Measured(v).tokens == 1 && Measured(v).height == 0 && Measured(v).stringChars <= |Print(Indented, level, v)|
  {
  }

  lemma {:induction false} IndentedItemsAtLeast(level: nat, weight: nat, items: seq<Value>)
    requires PrintableItems(items) && weight <= level + 3 && level >= 1
    ensures weight * MeasuredItems(items).tokens <= |PrintItems(Indented, level, items)|
    ensures MeasuredItems(items).stringChars <= |PrintItems(Indented, level, items)|
    decreases items, 0
  {
    hide Printable, Measured, Print, PrintItems;
    if items != [] {
      IndentedAtLeast(level, weight, items[0]);
      IndentedItemsAtLeast(level, weight, items[1..]);
      IndentedItems(level, items);
      Distribute(weight, Measured(items[0]).tokens, MeasuredItems(items[1..]).tokens);
    }
  }

  lemma Distribute(w: nat, a: nat, b: nat)
    ensures w * (a + b) == w * a + w * b
  {
  }

  lemma {:induction false} IndentedEntriesAtLeast(level: nat, weight: nat, entries: seq<Entry>)
    requires PrintableEntries(entries) && weight <= level + 3 && level >= 1
    ensures weight * MeasuredEntries(entries).tokens <= |PrintEntries(Indented, level, entries)|
    ensures MeasuredEntries(entries).stringChars <= |PrintEntries(Indented, level, entries)|
    decreases entries, 0
  {
    hide PrintableEntry, MeasuredEntry, PrintEntry, PrintEntries;
    if entries != [] {
      IndentedEntryAtLeast(level, weight, entries[0]);
      IndentedEntriesAtLeast(level, weight, entries[1..]);
      IndentedEntries(level, entries);
      Distribute(weight, MeasuredEntry(entries[0]).tokens, MeasuredEntries(entries[1..]).tokens);
    }
  }

  lemma {:induction false} IndentedEntryAtLeast(level: nat, weight: nat, e: Entry)
    requires PrintableEntry(e) && weight <= level + 3 && level >= 1
    ensures weight * MeasuredEntry(e).tokens <= |PrintEntry(Indented, level, e)| + 1 + 2 * level
    ensures MeasuredEntry(e).stringChars <= |PrintEntry(Indented, level, e)|
    decreases e, 0
  {
    hide Print;
    IndentedAtLeast(level, weight, e.value);
    IndentedEntry(level, e);
    Distribute(weight, 1, Measured(e.value).tokens);
  }

  /** A member's text is part of its container's. */
  lemma {:induction false} MemberWithin(level: nat, entries: seq<Entry>, i: nat)
    requires i < |entries|
    ensures |Print(Indented, level, entries[i].value)| <= |PrintEntries(Indented, level, entries)|
  {
    hide Print, PrintEntries, KeyText;
    IndentedEntries(level, entries);
    if i > 0 {
      MemberWithin(level, entries[1..], i - 1);
    }
  }

  lemma SortedMemberWithin(level: nat, entries: seq<Entry>, i: nat)
    requires StringKeys(entries) && DistinctKeys(entries) && i < |entries|
    ensures |Print(Indented, level + 1, SortTree(entries[i].value))| <= |Print(Indented, level, SortTree(Dict(entries)))|
  {
    hide Print, SortEntries, Sort;
    SortedDict(entries);
    var s := Sort(SortEntries(entries));
    assert SortEntry(entries[i]) in s;
    var j :| 0 <= j < |s| && s[j] == SortEntry(entries[i]);
    MemberWithin(level + 1, s, j);
    IndentedContainer(level, Dict(s));
  }
}
