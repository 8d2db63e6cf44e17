/**
 What the canonical text identifies: sorting keys at every level picks one representative of each tree up to
 the order of dictionary entries, so texts are equal exactly when the trees are equal but for that order.
 */
module CanonicalTrees {
  import opened CanonicalJson
  import opened JsonDecoder
  import opened PythonText
  import opened RoundTrip
  import opened Wrappers

  // ---------------------------------------------------------------------------
  // The order of keys
  // ---------------------------------------------------------------------------

  lemma {:induction false} TextLessTotal(a: Text, b: Text)
    ensures TextLess(a, b) || a == b || TextLess(b, a)
    ensures !(TextLess(a, b) && TextLess(b, a)) && !TextLess(a, a)
    decreases |a|
  {
    if a != [] && b != [] {
      TextLessTotal(a[1..], b[1..]);
      assert a == [a[0]] + a[1..] && b == [b[0]] + b[1..];
    }
    if a != [] {
      TextLessTotal(a[1..], a[1..]);
    }
  }

  lemma {:induction false} TextLessTransitive(a: Text, b: Text, c: Text)
    requires TextLess(a, b) && TextLess(b, c)
    ensures TextLess(a, c)
    decreases |a|
  {
    if a != [] && a[0] == b[0] && b[0] == c[0] {
      TextLessTransitive(a[1..], b[1..], c[1..]);
    }
  }

  ghost predicate StringKeys(es: seq<Entry>) {
    forall i :: 0 <= i < |es| ==> es[i].key.StrKey?
  }

  /** In strictly increasing key order. */
  ghost predicate Ordered(es: seq<Entry>) {
    forall i, j :: 0 <= i < j < |es| ==> EntryLess(es[i], es[j])
  }

  ghost predicate SameMembers(a: seq<Entry>, b: seq<Entry>) {
    forall e :: e in a <==> e in b
  }

  lemma {:induction false} InsertMembers(e: Entry, es: seq<Entry>)
    ensures forall x :: x in Insert(e, es) <==> x == e || x in es
  {
    if es != [] && !EntryLess(e, es[0]) {
      InsertMembers(e, es[1..]);
      assert es == [es[0]] + es[1..];
    }
  }

  lemma {:induction false} InsertOrdered(e: Entry, es: seq<Entry>)
    requires Ordered(es) && StringKeys(es) && e.key.StrKey? && !HasKey(es, e.key)
    ensures Ordered(Insert(e, es)) && StringKeys(Insert(e, es))
  {
    if es != [] {
      if EntryLess(e, es[0]) {
        forall j | 0 < j < |es|
          ensures EntryLess(e, es[j])
        {
          TextLessTransitive(e.key.text, es[0].key.text, es[j].key.text);
        }
      } else {
        TextLessTotal(e.key.text, es[0].key.text);
        assert es[0].key != e.key;
        forall i | 0 <= i < |es[1..]|
          ensures es[1..][i].key != e.key
        {
          assert es[1..][i] == es[i + 1];
        }
        InsertOrdered(e, es[1..]);
        var rest := Insert(e, es[1..]);
        forall j | 0 <= j < |rest|
          ensures EntryLess(es[0], rest[j])
        {
          InsertMembers(e, es[1..]);
          assert rest[j] in rest;
        }
      }
    }
  }

  lemma {:induction false} SortOrders(es: seq<Entry>)
    requires StringKeys(es) && DistinctKeys(es)
    ensures Ordered(Sort(es)) && StringKeys(Sort(es)) && SameMembers(Sort(es), es)
  {
    if es != [] {
      SortOrders(es[1..]);
      var sorted := Sort(es[1..]);
      forall i | 0 <= i < |sorted|
        ensures sorted[i].key != es[0].key
      {
        assert sorted[i] in es[1..];
      }
      InsertOrdered(es[0], sorted);
      InsertMembers(es[0], sorted);
      assert es == [es[0]] + es[1..];
    }
  }

  /** Only one ordering of a set of entries is in key order. */
  lemma {:induction false} OrderedUnique(a: seq<Entry>, b: seq<Entry>)
    requires Ordered(a) && Ordered(b) && StringKeys(a) && StringKeys(b) && SameMembers(a, b)
    ensures a == b
  {
    if a != [] {
      assert a[0] in b;
      assert b[0] in a;
      FirstLeast(a, b[0]);
      FirstLeast(b, a[0]);
      if a[0] != b[0] {
        TextLessTotal(a[0].key.text, b[0].key.text);
        assert false;
      }
      forall e
        ensures e in a[1..] <==> e in b[1..]
      {
        TailMembers(a, e);
        TailMembers(b, e);
      }
      OrderedUnique(a[1..], b[1..]);
      assert a == [a[0]] + a[1..] && b == [b[0]] + b[1..];
    } else {
      SomeMember(b);
    }
  }

  lemma SomeMember(es: seq<Entry>)
    ensures es == [] || exists e :: e in es
  {
    if es != [] {
      assert es[0] in es;
    }
  }

  lemma FirstLeast(a: seq<Entry>, e: Entry)
    requires Ordered(a) && e in a
    ensures e == a[0] || EntryLess(a[0], e)
  {
  }

  lemma TailMembers(a: seq<Entry>, e: Entry)
    requires Ordered(a) && StringKeys(a) && a != []
    ensures e in a[1..] <==> e in a && e != a[0]
  {
    if e in a[1..] {
      var j :| 0 <= j < |a[1..]| && a[1..][j] == e;
      assert EntryLess(a[0], a[j + 1]);
      TextLessTotal(a[0].key.text, e.key.text);
    }
    assert a == [a[0]] + a[1..];
  }

  // ---------------------------------------------------------------------------
  // Sorting a tree
  // ---------------------------------------------------------------------------

  lemma {:induction false} SortItemsAt(items: seq<Value>, i: nat)
    requires i < |items|
    ensures |SortItems(items)| == |items| && SortItems(items)[i] == SortTree(items[i])
  {
    if |items| > 1 {
      SortItemsAt(items[1..], if i == 0 then 0 else i - 1);
    } else {
      assert SortItems(items[1..]) == [];
    }
  }

  lemma {:induction false} SortEntriesAt(entries: seq<Entry>, i: nat)
    requires i < |entries|
    ensures |SortEntries(entries)| == |entries| && SortEntries(entries)[i] == SortEntry(entries[i])
  {
    if |entries| > 1 {
      SortEntriesAt(entries[1..], if i == 0 then 0 else i - 1);
    } else {
      assert SortEntries(entries[1..]) == [];
    }
  }

  lemma SortEntriesLength(entries: seq<Entry>)
    ensures |SortEntries(entries)| == |entries|
  {
  }

  lemma SortItemsLength(items: seq<Value>)
    ensures |SortItems(items)| == |items|
  {
  }

  /** s holds the sorted entries of es and nothing else. */
  ghost predicate Images(es: seq<Entry>, s: seq<Entry>) {
    && (forall i :: 0 <= i < |es| ==> SortEntry(es[i]) in s)
    && (forall e :: e in s ==> exists i :: 0 <= i < |es| && e == SortEntry(es[i]))
  }

  /** A sorted dictionary has the sorted entries of the original, in key order. */
  lemma SortedDict(entries: seq<Entry>)
    requires StringKeys(entries) && DistinctKeys(entries)
    ensures var s := Sort(SortEntries(entries));
            && Ordered(s) && StringKeys(s) && DistinctKeys(s)
            && Images(entries, s)
  {
    var t := SortEntries(entries);
    SortEntriesLength(entries);
    forall i | 0 <= i < |entries|
      ensures t[i] == SortEntry(entries[i])
    {
      SortEntriesAt(entries, i);
    }
    SortOrders(t);
    var s := Sort(t);
    forall i | 0 <= i < |entries|
      ensures SortEntry(entries[i]) in s
    {
      assert t[i] in t;
    }
    forall e | e in s
      ensures exists i :: 0 <= i < |entries| && e == SortEntry(entries[i])
    {
      assert e in t;
    }
    forall i, j | 0 <= i < j < |s|
      ensures s[i].key != s[j].key
    {
      TextLessTotal(s[i].key.text, s[j].key.text);
    }
  }

  /** Equality of JSON values: dictionaries without regard to the order of their entries. Unlike `==`, 1 is not true. */
  ghost predicate Same(v: Value, w: Value)
    decreases v
  {
    match v
    case List(items) =>
      && w.List? && |items| == |w.items|
      && forall i :: 0 <= i < |items| ==> Same(items[i], w.items[i])
    case Dict(entries) =>
      && w.Dict? && SameKeys(entries, w.entries)
      && forall i, j :: 0 <= i < |entries| && 0 <= j < |w.entries| && entries[i].key == w.entries[j].key ==>
           SameValue(entries[i], w.entries[j])
    case _ => v == w
  }

  ghost predicate SameValue(e: Entry, f: Entry)
    decreases e
  {
    Same(e.value, f.value)
  }

  ghost predicate SameKeys(a: seq<Entry>, b: seq<Entry>) {
    && (forall i :: 0 <= i < |a| ==> HasKey(b, a[i].key))
    && (forall j :: 0 <= j < |b| ==> HasKey(a, b[j].key))
  }

  lemma PlainStringKeys(entries: seq<Entry>, parseFloat: string -> Option<string>)
    requires PlainEntries(entries, parseFloat)
    ensures StringKeys(entries)
  {
  }

  /** Sorting identifies exactly the trees that are the same JSON value. */
  lemma {:induction false} SortIdentifies(v: Value, w: Value, parseFloat: string -> Option<string>)
    requires Plain(v, parseFloat) && Plain(w, parseFloat)
    ensures SortTree(v) == SortTree(w) <==> Same(v, w)
    decreases v, 1
  {
    if v.List? && w.List? {
      SortIdentifiesItems(v.items, w.items, parseFloat);
    } else if v.Dict? && w.Dict? {
      SortIdentifiesEntries(v.entries, w.entries, parseFloat);
    }
  }

  lemma {:induction false} SortIdentifiesItems(a: seq<Value>, b: seq<Value>, parseFloat: string -> Option<string>)
    requires PlainItems(a, parseFloat) && PlainItems(b, parseFloat)
    ensures SortItems(a) == SortItems(b) <==> |a| == |b| && forall i :: 0 <= i < |a| ==> Same(a[i], b[i])
    decreases a, 0
  {
    SortItemsLength(a);
    SortItemsLength(b);
    if |a| == |b| {
      forall i | 0 <= i < |a|
        ensures SortItems(a)[i] == SortItems(b)[i] <==> Same(a[i], b[i])
      {
        SortItemsAt(a, i);
        SortItemsAt(b, i);
        SortIdentifies(a[i], b[i], parseFloat);
      }
    }
  }

  lemma {:induction false} SortIdentifiesEntries(a: seq<Entry>, b: seq<Entry>, parseFloat: string -> Option<string>)
    requires PlainEntries(a, parseFloat) && PlainEntries(b, parseFloat) && DistinctKeys(a) && DistinctKeys(b)
    ensures Sort(SortEntries(a)) == Sort(SortEntries(b)) <==> Same(Dict(a), Dict(b))
    decreases a, 0
  {
    forall i, j | 0 <= i < |a| && 0 <= j < |b| && a[i].key == b[j].key
      ensures SortEntry(a[i]) == SortEntry(b[j]) <==> SameValue(a[i], b[j])
    {
      assert PlainEntry(a[i], parseFloat) && PlainEntry(b[j], parseFloat);
      SortIdentifies(a[i].value, b[j].value, parseFloat);
    }
    PlainStringKeys(a, parseFloat);
    PlainStringKeys(b, parseFloat);
    SortedAgree(a, b);
  }

  /** Entries with the same key are the same once sorted. */
  ghost predicate Agree(a: seq<Entry>, b: seq<Entry>) {
    forall i, j :: 0 <= i < |a| && 0 <= j < |b| && a[i].key == b[j].key ==> SortEntry(a[i]) == SortEntry(b[j])
  }

  lemma SortedAgree(a: seq<Entry>, b: seq<Entry>)
    requires StringKeys(a) && StringKeys(b) && DistinctKeys(a) && DistinctKeys(b)
    ensures Sort(SortEntries(a)) == Sort(SortEntries(b)) <==> SameKeys(a, b) && Agree(a, b)
  {
    var s, t := Sort(SortEntries(a)), Sort(SortEntries(b));
    SortedDict(a);
    SortedDict(b);
    if s == t {
      ImagesAgree(a, b, s);
    }
    if SameKeys(a, b) && Agree(a, b) {
      AgreeingImages(a, b, s, t);
      AgreeingImages(b, a, t, s);
      OrderedUnique(s, t);
    }
  }

  lemma ImagesAgree(a: seq<Entry>, b: seq<Entry>, s: seq<Entry>)
    requires Images(a, s) && Images(b, s) && DistinctKeys(b)
    ensures SameKeys(a, b) && Agree(a, b)
  {
    forall i | 0 <= i < |a|
      ensures HasKey(b, a[i].key)
    {
      assert SortEntry(a[i]) in s;
      var j :| 0 <= j < |b| && SortEntry(a[i]) == SortEntry(b[j]);
      assert b[j].key == a[i].key;
    }
    forall j | 0 <= j < |b|
      ensures HasKey(a, b[j].key)
    {
      assert SortEntry(b[j]) in s;
      var i :| 0 <= i < |a| && SortEntry(b[j]) == SortEntry(a[i]);
      assert a[i].key == b[j].key;
    }
    forall i, j | 0 <= i < |a| && 0 <= j < |b| && a[i].key == b[j].key
      ensures SortEntry(a[i]) == SortEntry(b[j])
    {
      assert SortEntry(a[i]) in s;
      var k :| 0 <= k < |b| && SortEntry(a[i]) == SortEntry(b[k]);
      assert b[k].key == b[j].key;
    }
  }

  lemma AgreeingImages(a: seq<Entry>, b: seq<Entry>, s: seq<Entry>, t: seq<Entry>)
    requires Images(a, s) && Images(b, t) && SameKeys(a, b) && Agree(a, b)
    ensures forall e :: e in s ==> e in t
  {
  }

  // ---------------------------------------------------------------------------
  // The canonical text
  // ---------------------------------------------------------------------------

  lemma {:induction false} SortKeepsPlain(v: Value, parseFloat: string -> Option<string>)
    requires Plain(v, parseFloat)
    ensures Plain(SortTree(v), parseFloat) && (Whole(v) ==> Whole(SortTree(v)))
    decreases v, 1
  {
    match v
    case List(items) =>
      SortItemsLength(items);
      forall i | 0 <= i < |items|
        ensures Plain(SortItems(items)[i], parseFloat) && (Whole(v) ==> Whole(SortItems(items)[i]))
      {
        SortItemsAt(items, i);
        SortKeepsPlain(items[i], parseFloat);
      }
    case Dict(entries) =>
      PlainStringKeys(entries, parseFloat);
      SortedDict(entries);
      var s := Sort(SortEntries(entries));
      forall j | 0 <= j < |s|
        ensures PlainEntry(s[j], parseFloat) && (Whole(v) ==> WholeEntry(s[j]))
      {
        assert s[j] in s;
        var i :| 0 <= i < |entries| && s[j] == SortEntry(entries[i]);
        SortKeepsPlainEntry(entries[i], parseFloat);
      }
    case _ =>
  }

  lemma {:induction false} SortKeepsPlainEntry(e: Entry, parseFloat: string -> Option<string>)
    requires PlainEntry(e, parseFloat)
    ensures PlainEntry(SortEntry(e), parseFloat) && (WholeEntry(e) ==> WholeEntry(SortEntry(e)))
    decreases e, 0
  {
    SortKeepsPlain(e.value, parseFloat);
  }

  lemma {:induction false} EnumSafePlain(v: Value, parseFloat: string -> Option<string>)
    requires Plain(v, parseFloat)
    ensures EnumSafe(v) == v
    decreases v, 1
  {
    match v
    case List(items) => EnumSafePlainItems(items, parseFloat);
    case Dict(entries) => EnumSafePlainEntries(entries, parseFloat);
    case _ =>
  }

  lemma {:induction false} EnumSafePlainItems(items: seq<Value>, parseFloat: string -> Option<string>)
    requires PlainItems(items, parseFloat)
    ensures EnumSafeItems(items) == items
    decreases items, 0
  {
    if items != [] {
      EnumSafePlain(items[0], parseFloat);
      EnumSafePlainItems(items[1..], parseFloat);
    }
  }

  lemma {:induction false} EnumSafePlainEntries(entries: seq<Entry>, parseFloat: string -> Option<string>)
    requires PlainEntries(entries, parseFloat)
    ensures EnumSafeEntries(entries) == entries
    decreases entries, 0
  {
    if entries != [] {
      EnumSafePlainEntry(entries[0], parseFloat);
      EnumSafePlainEntries(entries[1..], parseFloat);
    }
  }

  lemma {:induction false} EnumSafePlainEntry(e: Entry, parseFloat: string -> Option<string>)
    requires PlainEntry(e, parseFloat)
    ensures EnumSafeEntry(e) == e
    decreases e, 0
  {
    EnumSafePlain(e.value, parseFloat);
  }

  /** The hashed text decodes to the tree with its keys sorted, which is the same JSON value. */
  lemma CanonicalRoundTrip(v: Value, parseFloat: string -> Option<string>)
    requires Plain(v, parseFloat) && Whole(v)
    ensures Decode(CanonicalText(v), parseFloat) == Some(SortTree(v))
    ensures Decode(StateText(v), parseFloat) == Some(SortTree(v))
  {
    EnumSafePlain(v, parseFloat);
    SortKeepsPlain(v, parseFloat);
    RoundTripExact(Compact, SortTree(v), parseFloat);
    RoundTripExact(Indented, SortTree(v), parseFloat);
  }

  /** Two trees have one canonical text, and so one hash, exactly when they are the same JSON value. */
  lemma EqualTextIffEqualTree(v: Value, w: Value, parseFloat: string -> Option<string>)
    requires Plain(v, parseFloat) && Plain(w, parseFloat) && Whole(v) && Whole(w)
    ensures CanonicalText(v) == CanonicalText(w) <==> Same(v, w)
  {
    CanonicalRoundTrip(v, parseFloat);
    CanonicalRoundTrip(w, parseFloat);
    EnumSafePlain(v, parseFloat);
    EnumSafePlain(w, parseFloat);
    SortIdentifies(v, w, parseFloat);
  }

  /** Numeric keys sort as numbers when first hashed but as strings once reloaded, so the hash does not survive. */
  lemma NumericKeysReorder(parseFloat: string -> Option<string>)
    ensures var v := Dict([Entry(IntKey(2), Null), Entry(IntKey(10), Null)]);
            && Decode(CanonicalText(v), parseFloat).Some?
            && CanonicalText(Decode(CanonicalText(v), parseFloat).value) != CanonicalText(v)
  {
    var two: Text, ten: Text := [0x32], [0x31, 0x30];
    var a, b := Entry(IntKey(2), Null), Entry(IntKey(10), Null);
    var c, d := Entry(StrKey(two), Null), Entry(StrKey(ten), Null);
    DigitKey(2, two);
    DigitKey(10, ten);
    TwoSafe(a, b);
    TwoSafe(c, d);
    TwoSorted(a, b);
    TwoSorted(c, d);
    TwoPrinted(a, b, c, d);
    assert ten[0] < two[0];
    assert EntryLess(a, b) && EntryLess(d, c) && !EntryLess(c, d);
    OrderPrinted(c, d, parseFloat);
  }

  lemma OrderPrinted(c: Entry, d: Entry, parseFloat: string -> Option<string>)
    requires c.key.StrKey? && d.key.StrKey? && c.value == Null && d.value == Null && c.key != d.key
    requires |c.key.text| <= 2 && |d.key.text| <= 2
    requires forall i :: 0 <= i < |c.key.text| ==> c.key.text[i] < 0x80
    requires forall i :: 0 <= i < |d.key.text| ==> d.key.text[i] < 0x80
    ensures Decode(Print(Compact, 0, Dict([c, d])), parseFloat) == Some(Dict([c, d]))
    ensures Print(Compact, 0, Dict([d, c])) != Print(Compact, 0, Dict([c, d]))
  {
    TwoPlain(c, d, parseFloat);
    TwoPlain(d, c, parseFloat);
    RoundTripExact(Compact, Dict([c, d]), parseFloat);
    RoundTripExact(Compact, Dict([d, c]), parseFloat);
    assert [d, c][0] != [c, d][0];
  }

  lemma DigitKey(n: nat, text: Text)
    requires (n == 2 && text == [0x32]) || (n == 10 && text == [0x31, 0x30])
    ensures KeyText(StrKey(text)) == KeyText(IntKey(n))
  {
    if n == 10 {
      assert text[1..] == [0x30] && text[1..][1..] == [];
      assert EscapeText(text[1..]) == "0";
      assert EscapeText(text) == "1" + "0";
      assert NatText(n) == NatText(n / 10) + [DigitChar(n % 10)];
      assert IntText(n) == "1" + "0";
    } else {
      assert text[1..] == [];
      assert EscapeText(text) == Escape(0x32) + "" == "2";
      assert IntText(n) == "2";
    }
  }

  lemma NullEntry(e: Entry)
    requires e.value == Null
    ensures EnumSafeEntry(e) == e && SortEntry(e) == e
  {
  }

  lemma InsertOne(a: Entry, b: Entry, one: seq<Entry>)
    requires one == [b]
    ensures Insert(a, one) == if EntryLess(a, b) then [a, b] else [b, a]
  {
  }

  /** A dictionary of two nulls, made plain. */
  lemma TwoSafe(a: Entry, b: Entry)
    requires a.value == Null && b.value == Null
    ensures EnumSafe(Dict([a, b])) == Dict([a, b])
  {
    var both, one := [a, b], [b];
    assert both[1..] == one && one[1..] == [] && both == [a] + one;
    NullEntry(a);
    NullEntry(b);
    assert EnumSafeEntries(one) == [EnumSafeEntry(b)] + EnumSafeEntries(one[1..]);
    assert EnumSafeEntries(both) == [EnumSafeEntry(a)] + EnumSafeEntries(both[1..]);
    assert EnumSafe(Dict(both)) == Dict(EnumSafeEntries(both));
  }

  /** A dictionary of two nulls, sorted. */
  lemma TwoSorted(a: Entry, b: Entry)
    requires a.value == Null && b.value == Null
    ensures SortTree(Dict([a, b])) == Dict(if EntryLess(a, b) then [a, b] else [b, a])
  {
    hide EntryLess;
    var both, one := [a, b], [b];
    assert both[1..] == one && one[1..] == [] && both == [a] + one;
    NullEntry(a);
    NullEntry(b);
    hide SortEntry;
    assert SortEntries(one) == [SortEntry(b)] + SortEntries(one[1..]);
    assert SortEntries(both) == [SortEntry(a)] + SortEntries(both[1..]);
    assert Sort(one[1..]) == [];
    assert Insert(b, []) == [b] + [];
    assert Sort(one) == Insert(b, Sort(one[1..]));
    assert Sort(both) == Insert(a, one);
    InsertOne(a, b, one);
    assert SortTree(Dict(both)) == Dict(Sort(SortEntries(both)));
  }

  /** Keys with the same text are printed alike. */
  lemma TwoPrinted(a: Entry, b: Entry, c: Entry, d: Entry)
    requires a.value == c.value && b.value == d.value && KeyText(a.key) == KeyText(c.key) && KeyText(b.key) == KeyText(d.key)
    ensures Print(Compact, 0, Dict([a, b])) == Print(Compact, 0, Dict([c, d]))
  {
    var first, second := [a, b], [c, d];
    assert first[1..] == [b] && second[1..] == [d];
    OneEntry(b);
    OneEntry(d);
    assert PrintEntry(Compact, 1, a) == PrintEntry(Compact, 1, c) && PrintEntry(Compact, 1, b) == PrintEntry(Compact, 1, d);
    assert PrintEntries(Compact, 1, first) == PrintEntries(Compact, 1, second);
  }

  lemma OneEntry(e: Entry)
    ensures PrintEntries(Compact, 1, [e]) == PrintEntry(Compact, 1, e)
  {
  }

  lemma TwoPlain(a: Entry, b: Entry, parseFloat: string -> Option<string>)
    requires a.key.StrKey? && b.key.StrKey? && a.value == Null && b.value == Null && a.key != b.key
    requires |a.key.text| <= 2 && |b.key.text| <= 2
    requires forall i :: 0 <= i < |a.key.text| ==> a.key.text[i] < 0x80
    requires forall i :: 0 <= i < |b.key.text| ==> b.key.text[i] < 0x80
    ensures Plain(Dict([a, b]), parseFloat) && Whole(Dict([a, b]))
  {
  }
}
