/**
 What the walk of `ActionSnapshot` promises: the bytes it charges are the bytes the encoder will emit, whatever
 the key order; a snapshot taken again is the same snapshot; and the snapshot's text is the plain canonical text.
 */
module SnapshotExactness {
  import opened ActionSnapshot
  import opened CanonicalJson
  import opened Money
  import opened PythonText
  import opened Wrappers

  // ---------------------------------------------------------------------------
  // Lengths
  // ---------------------------------------------------------------------------

  lemma PrintListLength(level: nat, v: Value)
    requires v.List? || v.Tuple?
    ensures |Print(Compact, level, v)| == 2 + |PrintItems(Compact, level + 1, v.items)|
  {
  }

  lemma PrintDictLength(level: nat, entries: seq<Entry>)
    ensures |Print(Compact, level, Dict(entries))| == 2 + |PrintEntries(Compact, level + 1, entries)|
  {
  }

  /** Each item after the first adds itself and a comma. */
  lemma PrintItemsLength(level: nat, items: seq<Value>)
    requires items != []
    ensures |PrintItems(Compact, level, items)| ==
            |Print(Compact, level, items[0])| + (if |items| == 1 then 0 else 1 + |PrintItems(Compact, level, items[1..])|)
  {
  }

  lemma PrintEntriesLength(level: nat, entries: seq<Entry>)
    requires entries != []
    ensures |PrintEntries(Compact, level, entries)| ==
            |KeyText(entries[0].key)| + 1 + |Print(Compact, level, entries[0].value)|
            + (if |entries| == 1 then 0 else 1 + |PrintEntries(Compact, level, entries[1..])|)
  {
  }

  lemma {:induction false} KeyWidthExact(c: Ceilings, k: Key)
    requires KeyFaults(c, k) == {}
    ensures |KeyText(NormalKey(c, k))| == KeyWidth(c, k)
    decreases k
  {
    if k.EnumKey? {
      KeyWidthExact(c, k.member);
    }
  }

  /** What is charged for a tree is the length of the text of its normal form. */
  lemma {:induction false} BytesExact(c: Ceilings, v: Value, depth: nat, level: nat)
    requires Faults(c, v, depth) == {}
    ensures |Print(Compact, level, Normal(c, v))| == TreeCost(c, v).bytes
    decreases v, 1
  {
    hide PrintItems, PrintEntries, ItemsCost, ValuesCost, KeysCost;
    match v
    case EnumMember(member) => BytesExact(c, member, depth, level);
    case List(items) =>
      ItemsExact(c, items, depth + 1, level + 1);
      PrintListLength(level, Normal(c, v));
    case Tuple(items) =>
      ItemsExact(c, items, depth + 1, level + 1);
      PrintListLength(level, Normal(c, v));
    case Dict(entries) =>
      EntriesExact(c, entries, SortRounds(entries), depth + 1, level + 1);
      PrintDictLength(level, NormalEntries(c, entries));
    case _ =>
  }

  lemma {:induction false} ItemsExact(c: Ceilings, items: seq<Value>, depth: nat, level: nat)
    requires ItemsFaults(c, items, depth) == {}
    ensures |PrintItems(Compact, level, NormalItems(c, items))| == ItemsCost(c, items, true).bytes
    ensures items != [] ==> ItemsCost(c, items, false).bytes == ItemsCost(c, items, true).bytes + 1
    decreases items, 0
  {
    hide Print, Faults, TreeCost, PrintItems;
    if items == [] {
      assert |PrintItems(Compact, level, [])| == 0 by {
        NoItems(level);
      }
    } else {
      BytesExact(c, items[0], depth, level);
      ItemsExact(c, items[1..], depth, level);
      PrintItemsLength(level, NormalItems(c, items));
      assert NormalItems(c, items)[1..] == NormalItems(c, items[1..]);
    }
  }

  lemma NoItems(level: nat)
    ensures PrintItems(Compact, level, []) == "" && PrintEntries(Compact, level, []) == ""
  {
  }

  lemma {:induction false} EntriesExact(c: Ceilings, entries: seq<Entry>, rounds: nat, depth: nat, level: nat)
    requires KeysFaults(c, entries, depth) == {} && ValuesFaults(c, entries, depth) == {}
    ensures |PrintEntries(Compact, level, NormalEntries(c, entries))|
         == KeysCost(c, entries, rounds).bytes + ValuesCost(c, entries, true).bytes
    ensures entries != [] ==> ValuesCost(c, entries, false).bytes == ValuesCost(c, entries, true).bytes + 1
    decreases entries, 0
  {
    hide Print, Faults, TreeCost, PrintEntries, KeyFaults, KeyWidth, NormalKey, KeyText;
    if entries == [] {
      NoItems(level);
    } else {
      KeyWidthExact(c, entries[0].key);
      ValueExact(c, entries[0], depth, level);
      EntriesExact(c, entries[1..], rounds, depth, level);
      PrintEntriesLength(level, NormalEntries(c, entries));
      assert NormalEntries(c, entries)[1..] == NormalEntries(c, entries[1..]);
    }
  }

  lemma {:induction false} ValueExact(c: Ceilings, e: Entry, depth: nat, level: nat)
    requires ValueFaults(c, e, depth) == {}
    ensures |Print(Compact, level, Normal(c, e.value))| == ValueCost(c, e).bytes
    decreases e, 0
  {
    BytesExact(c, e.value, depth, level);
  }

  // ---------------------------------------------------------------------------
  // Sorting keeps the length
  // ---------------------------------------------------------------------------

  lemma {:induction false} InsertLength(level: nat, e: Entry, es: seq<Entry>)
    ensures |PrintEntries(Compact, level, Insert(e, es))| == |PrintEntries(Compact, level, [e] + es)|
  {
    hide Print, KeyText, PrintEntries;
    if es != [] && !EntryLess(e, es[0]) {
      InsertLength(level, e, es[1..]);
      var head := [es[0]];
      PrintEntriesLength(level, Insert(e, es));
      assert Insert(e, es)[1..] == Insert(e, es[1..]);
      assert Insert(e, es[1..]) != [];
      PrintEntriesLength(level, [e] + es);
      PrintEntriesLength(level, [e] + es[1..]);
      assert ([e] + es)[1..] == es && ([e] + es[1..])[1..] == es[1..];
      PrintEntriesLength(level, es);
    }
  }

  lemma {:induction false} SortedLength(level: nat, v: Value)
    ensures |Print(Compact, level, SortTree(v))| == |Print(Compact, level, v)|
    decreases v, 1
  {
    hide PrintItems, PrintEntries;
    match v
    case List(items) =>
      SortedItemsLength(level + 1, items);
      PrintListLength(level, v);
      PrintListLength(level, SortTree(v));
    case Tuple(items) =>
      SortedItemsLength(level + 1, items);
      PrintListLength(level, v);
      PrintListLength(level, SortTree(v));
    case Dict(entries) =>
      SortedEntriesLength(level + 1, entries);
      PrintDictLength(level, entries);
      PrintDictLength(level, Sort(SortEntries(entries)));
    case _ =>
  }

  lemma {:induction false} SortedItemsLength(level: nat, items: seq<Value>)
    ensures |PrintItems(Compact, level, SortItems(items))| == |PrintItems(Compact, level, items)|
    ensures |SortItems(items)| == |items|
    decreases items, 0
  {
    hide Print, SortTree, PrintItems;
    if items != [] {
      SortedLength(level, items[0]);
      SortedItemsLength(level, items[1..]);
      PrintItemsLength(level, items);
      PrintItemsLength(level, SortItems(items));
      assert SortItems(items)[1..] == SortItems(items[1..]);
    }
  }

  lemma {:induction false} SortedEntriesLength(level: nat, entries: seq<Entry>)
    ensures |PrintEntries(Compact, level, Sort(SortEntries(entries)))| == |PrintEntries(Compact, level, entries)|
    ensures |Sort(SortEntries(entries))| == |entries|
    decreases entries, 0
  {
    hide Print, SortTree, PrintEntries, KeyText;
    if entries != [] {
      var e, rest := SortEntry(entries[0]), Sort(SortEntries(entries[1..]));
      SortedEntryLength(level, entries[0]);
      SortedEntriesLength(level, entries[1..]);
      InsertLength(level, e, rest);
      InsertCount(e, rest);
      assert SortEntries(entries)[1..] == SortEntries(entries[1..]);
      PrintEntriesLength(level, entries);
      PrintEntriesLength(level, [e] + rest);
      assert ([e] + rest)[1..] == rest;
    }
  }

  lemma {:induction false} InsertCount(e: Entry, es: seq<Entry>)
    ensures |Insert(e, es)| == |es| + 1
  {
    if es != [] {
      InsertCount(e, es[1..]);
    }
  }

  lemma {:induction false} SortedEntryLength(level: nat, e: Entry)
    ensures |Print(Compact, level, SortEntry(e).value)| == |Print(Compact, level, e.value)|
    decreases e, 0
  {
    SortedLength(level, e.value);
  }

  // ---------------------------------------------------------------------------
  // The stream behind the walk
  // ---------------------------------------------------------------------------

  function Joined(chunks: seq<string>): string {
    if chunks == [] then "" else Joined(chunks[..|chunks| - 1]) + chunks[|chunks| - 1]
  }

  /** The loop of `_sha256_of_validated_action_snapshot`: the text fed to the digest, or a refusal. */
  method StreamDigest(chunks: seq<string>, maximum: nat) returns (fed: Result<string, Refusal>)
    ensures fed == if |Joined(chunks)| <= maximum then Ok(Joined(chunks)) else Err(Bytes)
  {
    var encoded := 0;
    var digest := "";
    for i := 0 to |chunks|
      invariant digest == Joined(chunks[..i]) && encoded == |digest| <= maximum
    {
      assert chunks[..i + 1][..i] == chunks[..i];
      if |chunks[i]| > maximum - encoded {
        JoinedGrows(chunks, i + 1);
        return Err(Bytes);
      }
      digest := digest + chunks[i];
      encoded := encoded + |chunks[i]|;
    }
    assert chunks[..|chunks|] == chunks;
    return Ok(digest);
  }

  lemma {:induction false} JoinedGrows(chunks: seq<string>, i: nat)
    requires i <= |chunks|
    ensures |Joined(chunks[..i])| <= |Joined(chunks)|
  {
    if i < |chunks| {
      JoinedGrows(chunks[..|chunks| - 1], i);
      assert chunks[..|chunks| - 1][..i] == chunks[..i];
    } else {
      assert chunks[..i] == chunks;
    }
  }

  /**
   After the walk has accepted a tree, the encoder emits exactly the bytes that were charged, however it cuts
   its sorted output into chunks, so the byte ceiling of the digest loop cannot fire.
   */
  lemma StreamCannotOverrun(c: Ceilings, v: Value, chunks: seq<string>)
    requires Faults(c, v, 0) == {} && Within(c, TreeCost(c, v))
    requires Joined(chunks) == Print(Compact, 0, SortTree(Normal(c, v)))
    ensures |Joined(chunks)| == TreeCost(c, v).bytes <= c.bytes
  {
    BytesExact(c, v, 0, 0);
    SortedLength(0, Normal(c, v));
  }

  // ---------------------------------------------------------------------------
  // Taking a snapshot of a snapshot
  // ---------------------------------------------------------------------------

  /** In every mapping of the tree the keys still belong to one family once enum keys are their values. */
  predicate Settled(c: Ceilings, v: Value)
    decreases v
  {
    match v
    case EnumMember(member) => Settled(c, member)
    case List(items) => SettledItems(c, items)
    case Tuple(items) => SettledItems(c, items)
    case Dict(entries) => OneFamily(NormalEntries(c, entries)) && SettledEntries(c, entries)
    case _ => true
  }

  predicate SettledItems(c: Ceilings, items: seq<Value>)
    decreases items
  {
    items == [] || (Settled(c, items[0]) && SettledItems(c, items[1..]))
  }

  predicate SettledEntries(c: Ceilings, entries: seq<Entry>)
    decreases entries
  {
    entries == [] || (SettledEntry(c, entries[0]) && SettledEntries(c, entries[1..]))
  }

  predicate SettledEntry(c: Ceilings, e: Entry)
    decreases e
  {
    Settled(c, e.value)
  }

  lemma {:induction false} NormalKeyTwice(c: Ceilings, k: Key)
    requires KeyFaults(c, k) == {} && c.numberChars <= c.scalarChars && 1 <= c.scalarChars
    ensures NormalKey(c, NormalKey(c, k)) == NormalKey(c, k)
    ensures KeyFaults(c, NormalKey(c, k)) == {}
    ensures KeyWidth(c, NormalKey(c, k)) == KeyWidth(c, k) && KeyNodes(NormalKey(c, k)) == 1 <= KeyNodes(k)
    decreases k
  {
    match k
    case EnumKey(_, member) => NormalKeyTwice(c, member);
    case DecimalKey(d) => MoneyIsText(c, d);
    case _ =>
  }

  lemma MoneyIsText(c: Ceilings, d: Decimal)
    requires MoneyFaults(c, d) == {} && c.numberChars <= c.scalarChars && 1 <= c.scalarChars
    ensures TextFaults(c, MoneyString(d, c.numberChars)) == {}
  {
  }

  predicate Cheaper(a: Cost, b: Cost) {
    a.nodes <= b.nodes && a.bytes == b.bytes && a.sortWork == b.sortWork
  }

  /**
   A snapshot taken again is accepted unchanged and charged the same bytes and sort work, exactly when its keys
   have settled into one family in every mapping.
   */
  lemma {:induction false} SnapshotTwice(c: Ceilings, v: Value, depth: nat)
    requires Faults(c, v, depth) == {} && c.numberChars <= c.scalarChars && 1 <= c.scalarChars
    ensures Normal(c, Normal(c, v)) == Normal(c, v)
    ensures Cheaper(TreeCost(c, Normal(c, v)), TreeCost(c, v))
    ensures Faults(c, Normal(c, v), depth) == {} <==> Settled(c, v)
    decreases v, 1
  {
    hide ItemsFaults, ItemsCost, ValuesFaults, ValuesCost, KeysFaults, KeysCost, NormalItems, NormalEntries, NormalKeys,
      OneFamily, DistinctNormal, BitLength;
    match v
    case EnumMember(member) => SnapshotTwice(c, member, depth);
    case List(items) => SnapshotItemsTwice(c, items, true, depth + 1);
    case Tuple(items) => SnapshotItemsTwice(c, items, true, depth + 1);
    case Dict(entries) =>
      SnapshotKeysTwice(c, entries, SortRounds(entries), depth + 1);
      SnapshotValuesTwice(c, entries, true, depth + 1);
      NormalEntriesTwice(c, entries, depth + 1);
    case Dec(d) => MoneyIsText(c, d);
    case _ =>
  }

  lemma {:induction false} SnapshotItemsTwice(c: Ceilings, items: seq<Value>, first: bool, depth: nat)
    requires ItemsFaults(c, items, depth) == {} && c.numberChars <= c.scalarChars && 1 <= c.scalarChars
    ensures NormalItems(c, NormalItems(c, items)) == NormalItems(c, items)
    ensures Cheaper(ItemsCost(c, NormalItems(c, items), first), ItemsCost(c, items, first))
    ensures ItemsFaults(c, NormalItems(c, items), depth) == {} <==> SettledItems(c, items)
    decreases items, 0
  {
    hide Faults, TreeCost, Normal, Settled;
    if items != [] {
      SnapshotTwice(c, items[0], depth);
      SnapshotItemsTwice(c, items[1..], false, depth);
      assert NormalItems(c, items)[1..] == NormalItems(c, items[1..]);
    }
  }

  lemma {:induction false} SnapshotKeysTwice(c: Ceilings, entries: seq<Entry>, rounds: nat, depth: nat)
    requires KeysFaults(c, entries, depth) == {} && c.numberChars <= c.scalarChars && 1 <= c.scalarChars
    ensures KeysFaults(c, NormalEntries(c, entries), depth) == {}
    ensures Cheaper(KeysCost(c, NormalEntries(c, entries), rounds), KeysCost(c, entries, rounds))
    ensures NormalKeys(c, NormalEntries(c, entries)) == NormalKeys(c, entries)
  {
    hide KeyFaults, KeyWidth, KeyNodes, NormalKey, Normal;
    if entries != [] {
      NormalKeyTwice(c, entries[0].key);
      SnapshotKeysTwice(c, entries[1..], rounds, depth);
      assert NormalEntries(c, entries)[1..] == NormalEntries(c, entries[1..]);
    }
  }

  lemma {:induction false} SnapshotValuesTwice(c: Ceilings, entries: seq<Entry>, first: bool, depth: nat)
    requires ValuesFaults(c, entries, depth) == {} && c.numberChars <= c.scalarChars && 1 <= c.scalarChars
    ensures Cheaper(ValuesCost(c, NormalEntries(c, entries), first), ValuesCost(c, entries, first))
    ensures ValuesFaults(c, NormalEntries(c, entries), depth) == {} <==> SettledEntries(c, entries)
    decreases entries, 0
  {
    hide Faults, TreeCost, Normal, Settled, NormalKey;
    if entries != [] {
      SnapshotValueTwice(c, entries[0], depth);
      SnapshotValuesTwice(c, entries[1..], false, depth);
      assert NormalEntries(c, entries)[1..] == NormalEntries(c, entries[1..]);
    }
  }

  lemma {:induction false} SnapshotValueTwice(c: Ceilings, e: Entry, depth: nat)
    requires ValueFaults(c, e, depth) == {} && c.numberChars <= c.scalarChars && 1 <= c.scalarChars
    ensures Cheaper(ValueCost(c, NormalEntry(c, e)), ValueCost(c, e))
    ensures ValueFaults(c, NormalEntry(c, e), depth) == {} <==> SettledEntry(c, e)
    ensures Normal(c, Normal(c, e.value)) == Normal(c, e.value)
    decreases e, 0
  {
    SnapshotTwice(c, e.value, depth);
  }

  lemma {:induction false} NormalEntriesTwice(c: Ceilings, entries: seq<Entry>, depth: nat)
    requires KeysFaults(c, entries, depth) == {} && ValuesFaults(c, entries, depth) == {}
    requires c.numberChars <= c.scalarChars && 1 <= c.scalarChars
    ensures NormalEntries(c, NormalEntries(c, entries)) == NormalEntries(c, entries)
    decreases entries, 0
  {
    hide Faults, Normal, NormalKey;
    if entries != [] {
      NormalKeyTwice(c, entries[0].key);
      SnapshotValueTwice(c, entries[0], depth);
      NormalEntriesTwice(c, entries[1..], depth);
      assert NormalEntries(c, entries)[1..] == NormalEntries(c, entries[1..]);
    }
  }

  /** Enum keys whose value belongs to the family the enum is mixed with. */
  predicate KeysMatch(c: Ceilings, entries: seq<Entry>) {
    forall i :: 0 <= i < |entries| ==> FamilyOf(NormalKey(c, entries[i].key)) == FamilyOf(entries[i].key)
  }

  lemma {:induction false} NormalEntriesAt(c: Ceilings, entries: seq<Entry>, i: nat)
    requires i < |entries|
    ensures NormalEntries(c, entries)[i] == NormalEntry(c, entries[i])
  {
    if i > 0 {
      NormalEntriesAt(c, entries[1..], i - 1);
    }
  }

  /** An ordinary mapping settles: only an enum key can change family. */
  lemma MatchingKeysSettle(c: Ceilings, entries: seq<Entry>)
    requires OneFamily(entries) && KeysMatch(c, entries)
    ensures OneFamily(NormalEntries(c, entries))
  {
    hide NormalEntries;
    forall i | 0 <= i < |entries|
      ensures FamilyOf(NormalEntries(c, entries)[i].key) == FamilyOf(entries[i].key)
    {
      NormalEntriesAt(c, entries, i);
    }
  }

  /** A string enum whose member's value is a number is taken once but not again. */
  lemma MixedEnumKeysUnsettle(c: Ceilings)
    requires c.depth >= 1 && c.entries >= 2 && c.numberChars >= 1 && c.scalarChars >= 1 && c.tokenBytes >= 3
    ensures var v := Dict([Entry(EnumKey(StringFamily, IntKey(5)), Null), Entry(StrKey([0x61]), Null)]);
            Faults(c, v, 0) == {} && Faults(c, Normal(c, v), 0) != {}
  {
    var text: Text := [0x61];
    var a, b := Entry(EnumKey(StringFamily, IntKey(5)), Null), Entry(StrKey(text), Null);
    var both, one := [a, b], [b];
    assert both[1..] == one && one[1..] == [] && text[1..] == [];
    assert KeyFaults(c, a.key) == {} by {
      assert IntText(5) == "5";
    }
    assert KeyFaults(c, b.key) == {} by {
      assert EscapeText(text) == "a" + "";
    }
    assert NormalKeys(c, one) == [b.key] + NormalKeys(c, one[1..]);
    assert NormalKey(c, a.key) == NormalKey(c, IntKey(5)) == IntKey(5);
    assert NormalKeys(c, both) == [IntKey(5)] + NormalKeys(c, both[1..]);
    assert KeysFaults(c, one, 1) == DepthFaults(c, 1) + KeyFaults(c, b.key) + KeysFaults(c, one[1..], 1);
    assert KeysFaults(c, both, 1) == DepthFaults(c, 1) + KeyFaults(c, a.key) + KeysFaults(c, both[1..], 1);
    assert ValuesFaults(c, one, 1) == ValueFaults(c, b, 1) + ValuesFaults(c, one[1..], 1);
    assert ValuesFaults(c, both, 1) == ValueFaults(c, a, 1) + ValuesFaults(c, both[1..], 1);
    assert NormalEntries(c, one) == [NormalEntry(c, b)] + NormalEntries(c, one[1..]);
    assert NormalEntries(c, both) == [NormalEntry(c, a)] + NormalEntries(c, both[1..]);
    assert !OneFamily(NormalEntries(c, both)) by {
      assert NormalEntries(c, both)[0].key == IntKey(5) && NormalEntries(c, both)[1].key == b.key;
    }
    assert Faults(c, Dict(both), 0) == {};
    assert Malformed in MappingFaults(c, NormalEntries(c, both));
    assert Normal(c, Dict(both)) == Dict(NormalEntries(c, both));
    assert Malformed in Faults(c, Dict(NormalEntries(c, both)), 0);
  }

  // ---------------------------------------------------------------------------
  // The same text as the plain encoder
  // ---------------------------------------------------------------------------

  /** Trees whose enum members hold plain scalars and whose keys are not enum members. */
  ghost predicate Simple(v: Value)
    decreases v
  {
    match v
    case EnumMember(m) => m.Null? || m.Bool? || m.Int? || m.Float? || m.Str?
    case Dec(d) => WellFormed(d)
    case List(items) => SimpleItems(items)
    case Tuple(items) => SimpleItems(items)
    case Dict(entries) => SimpleEntries(entries)
    case _ => true
  }

  ghost predicate SimpleItems(items: seq<Value>)
    decreases items
  {
    items == [] || (Simple(items[0]) && SimpleItems(items[1..]))
  }

  ghost predicate SimpleEntries(entries: seq<Entry>)
    decreases entries
  {
    entries == [] || (SimpleEntry(entries[0]) && SimpleEntries(entries[1..]))
  }

  ghost predicate SimpleEntry(e: Entry)
    decreases e
  {
    !e.key.EnumKey? && !e.key.DecimalKey? && Simple(e.value)
  }

  /** How many decimals of the tree are zeros with a sign. */
  function NegativeZeros(v: Value): nat
    decreases v
  {
    match v
    case Dec(d) => if d.Finite? && d.negative && IsZero(d) then 1 else 0
    case List(items) => NegativeZerosInItems(items)
    case Tuple(items) => NegativeZerosInItems(items)
    case Dict(entries) => NegativeZerosInEntries(entries)
    case _ => 0
  }

  function NegativeZerosInItems(items: seq<Value>): nat
    decreases items
  {
    if items == [] then 0 else NegativeZeros(items[0]) + NegativeZerosInItems(items[1..])
  }

  function NegativeZerosInEntries(entries: seq<Entry>): nat
    decreases entries
  {
    if entries == [] then 0 else NegativeZerosInEntry(entries[0]) + NegativeZerosInEntries(entries[1..])
  }

  function NegativeZerosInEntry(e: Entry): nat
    decreases e
  {
    NegativeZeros(e.value)
  }

  /** Equal up to whether a sequence is a list or a tuple. */
  ghost predicate Alike(x: Value, y: Value)
    decreases x
  {
    if (x.List? || x.Tuple?) && (y.List? || y.Tuple?) then AlikeItems(x.items, y.items)
    else if x.Dict? && y.Dict? then AlikeEntries(x.entries, y.entries)
    else x == y && !x.List? && !x.Tuple? && !x.Dict?
  }

  ghost predicate AlikeItems(a: seq<Value>, b: seq<Value>)
    decreases a
  {
    if a == [] || b == [] then a == b else Alike(a[0], b[0]) && AlikeItems(a[1..], b[1..])
  }

  ghost predicate AlikeEntries(a: seq<Entry>, b: seq<Entry>)
    decreases a
  {
    if a == [] || b == [] then a == b else AlikeEntry(a[0], b[0]) && AlikeEntries(a[1..], b[1..])
  }

  ghost predicate AlikeEntry(e: Entry, f: Entry)
    decreases e
  {
    e.key == f.key && Alike(e.value, f.value)
  }

  lemma {:induction false} AlikePrint(level: nat, x: Value, y: Value)
    requires Alike(x, y)
    ensures Print(Compact, level, x) == Print(Compact, level, y)
    decreases x, 1
  {
    hide PrintItems, PrintEntries, AlikeItems, AlikeEntries;
    if x.List? || x.Tuple? {
      AlikePrintItems(level + 1, x.items, y.items);
    } else if x.Dict? {
      AlikePrintEntries(level + 1, x.entries, y.entries);
    }
  }

  lemma {:induction false} AlikePrintItems(level: nat, a: seq<Value>, b: seq<Value>)
    requires AlikeItems(a, b)
    ensures PrintItems(Compact, level, a) == PrintItems(Compact, level, b) && |a| == |b|
    decreases a, 0
  {
    hide Print, Alike;
    if a != [] {
      AlikePrint(level, a[0], b[0]);
      AlikePrintItems(level, a[1..], b[1..]);
    }
  }

  lemma {:induction false} AlikePrintEntries(level: nat, a: seq<Entry>, b: seq<Entry>)
    requires AlikeEntries(a, b)
    ensures PrintEntries(Compact, level, a) == PrintEntries(Compact, level, b) && |a| == |b|
    decreases a, 0
  {
    hide Print, Alike;
    if a != [] {
      AlikePrintEntry(level, a[0], b[0]);
      AlikePrintEntries(level, a[1..], b[1..]);
    }
  }

  lemma {:induction false} AlikePrintEntry(level: nat, e: Entry, f: Entry)
    requires AlikeEntry(e, f)
    ensures PrintEntry(Compact, level, e) == PrintEntry(Compact, level, f)
    decreases e, 0
  {
    AlikePrint(level, e.value, f.value);
  }

  lemma {:induction false} AlikeSort(x: Value, y: Value)
    requires Alike(x, y)
    ensures Alike(SortTree(x), SortTree(y))
    decreases x, 1
  {
    hide SortItems, SortEntries, AlikeItems, AlikeEntries;
    if x.List? || x.Tuple? {
      AlikeSortItems(x.items, y.items);
    } else if x.Dict? {
      AlikeSortEntries(x.entries, y.entries);
    }
  }

  lemma {:induction false} AlikeSortItems(a: seq<Value>, b: seq<Value>)
    requires AlikeItems(a, b)
    ensures AlikeItems(SortItems(a), SortItems(b))
    decreases a, 0
  {
    hide SortTree, Alike;
    if a != [] {
      AlikeSort(a[0], b[0]);
      AlikeSortItems(a[1..], b[1..]);
      assert SortItems(a)[1..] == SortItems(a[1..]) && SortItems(b)[1..] == SortItems(b[1..]);
    }
  }

  lemma {:induction false} AlikeSortEntries(a: seq<Entry>, b: seq<Entry>)
    requires AlikeEntries(a, b)
    ensures AlikeEntries(Sort(SortEntries(a)), Sort(SortEntries(b)))
    decreases a, 0
  {
    hide SortTree, Alike;
    if a != [] {
      AlikeSortEntry(a[0], b[0]);
      AlikeSortEntries(a[1..], b[1..]);
      assert SortEntries(a)[1..] == SortEntries(a[1..]) && SortEntries(b)[1..] == SortEntries(b[1..]);
      AlikeInsert(SortEntry(a[0]), Sort(SortEntries(a[1..])), SortEntry(b[0]), Sort(SortEntries(b[1..])));
    }
  }

  lemma {:induction false} AlikeSortEntry(e: Entry, f: Entry)
    requires AlikeEntry(e, f)
    ensures AlikeEntry(SortEntry(e), SortEntry(f))
    decreases e, 0
  {
    AlikeSort(e.value, f.value);
  }

  lemma {:induction false} AlikeInsert(e: Entry, a: seq<Entry>, f: Entry, b: seq<Entry>)
    requires AlikeEntry(e, f) && AlikeEntries(a, b)
    ensures AlikeEntries(Insert(e, a), Insert(f, b))
    decreases a
  {
    hide Alike;
    if a != [] && !EntryLess(e, a[0]) {
      AlikeInsert(e, a[1..], f, b[1..]);
      assert Insert(e, a)[1..] == Insert(e, a[1..]) && Insert(f, b)[1..] == Insert(f, b[1..]);
    } else {
      assert ([e] + a)[1..] == a && ([f] + b)[1..] == b;
    }
  }

  lemma MoneyAlike(d: Decimal, limit: nat)
    requires WellFormed(d) && BoundedMoneyText(d, limit).Ok?
    ensures MoneyText(d).Ok?
    ensures var n := NegativeZeros(Dec(d));
            && |MoneyText(d).value| == |BoundedMoneyText(d, limit).value| + n
            && (n == 0 ==> MoneyText(d) == BoundedMoneyText(d, limit))
            && (n > 0 ==> Quote(Codes(MoneyText(d).value)) == "\"-0\"" && MoneyString(d, limit) == Codes("0"))
  {
    hide FixedText, Components, StripFraction;
    BoundedRefines(d, limit);
    if IsZero(d) {
      ZeroText(d);
      assert Codes("-0") == [0x2D, 0x30] && Codes("-0")[1..] == [0x30] && Codes("-0")[1..][1..] == [];
      assert EscapeText([0x30]) == "0" + "";
      assert EscapeText(Codes("-0")) == "-" + EscapeText([0x30]);
    }
  }

  /** Without negative zeros, the snapshot and the plain normal form differ in nothing the encoder prints. */
  lemma {:induction false} SnapshotAlike(c: Ceilings, v: Value, depth: nat)
    requires Simple(v) && Faults(c, v, depth) == {} && NegativeZeros(v) == 0
    ensures Alike(Normal(c, v), EnumSafe(v))
    decreases v, 1
  {
    hide ItemsFaults, ValuesFaults, KeysFaults, NormalItems, NormalEntries, SimpleItems, SimpleEntries, AlikeItems,
      AlikeEntries, EnumSafeItems, EnumSafeEntries, NegativeZerosInItems, NegativeZerosInEntries, BoundedMoneyText, MoneyText;
    match v
    case List(items) => SnapshotItemsAlike(c, items, depth + 1);
    case Tuple(items) => SnapshotItemsAlike(c, items, depth + 1);
    case Dict(entries) => SnapshotEntriesAlike(c, entries, depth + 1);
    case Dec(d) => MoneyAlike(d, c.numberChars);
    case _ =>
  }

  lemma {:induction false} SnapshotItemsAlike(c: Ceilings, items: seq<Value>, depth: nat)
    requires SimpleItems(items) && ItemsFaults(c, items, depth) == {} && NegativeZerosInItems(items) == 0
    ensures AlikeItems(NormalItems(c, items), EnumSafeItems(items))
    decreases items, 0
  {
    hide Faults, Normal, Simple, Alike, EnumSafe, NegativeZeros;
    if items != [] {
      SnapshotAlike(c, items[0], depth);
      SnapshotItemsAlike(c, items[1..], depth);
      assert NormalItems(c, items)[1..] == NormalItems(c, items[1..]);
      assert EnumSafeItems(items)[1..] == EnumSafeItems(items[1..]);
    }
  }

  lemma {:induction false} SnapshotEntriesAlike(c: Ceilings, entries: seq<Entry>, depth: nat)
    requires SimpleEntries(entries) && ValuesFaults(c, entries, depth) == {} && NegativeZerosInEntries(entries) == 0
    ensures AlikeEntries(NormalEntries(c, entries), EnumSafeEntries(entries))
    decreases entries, 0
  {
    hide Faults, Normal, Simple, Alike, EnumSafe, NegativeZeros;
    if entries != [] {
      SnapshotEntryAlike(c, entries[0], depth);
      SnapshotEntriesAlike(c, entries[1..], depth);
      assert NormalEntries(c, entries)[1..] == NormalEntries(c, entries[1..]);
      assert EnumSafeEntries(entries)[1..] == EnumSafeEntries(entries[1..]);
    }
  }

  lemma {:induction false} SnapshotEntryAlike(c: Ceilings, e: Entry, depth: nat)
    requires SimpleEntry(e) && ValueFaults(c, e, depth) == {} && NegativeZerosInEntry(e) == 0
    ensures AlikeEntry(NormalEntry(c, e), EnumSafeEntry(e))
    decreases e, 0
  {
    SnapshotAlike(c, e.value, depth);
  }

  /** Each negative zero makes the plain text one character longer than what the walk charged. */
  lemma {:induction false} PlainBytes(c: Ceilings, v: Value, depth: nat, level: nat)
    requires Simple(v) && Faults(c, v, depth) == {}
    ensures |Print(Compact, level, EnumSafe(v))| == TreeCost(c, v).bytes + NegativeZeros(v)
    decreases v, 1
  {
    hide PrintItems, PrintEntries, ItemsCost, ValuesCost, KeysCost, ItemsFaults, ValuesFaults, KeysFaults, SimpleItems,
      SimpleEntries, NegativeZerosInItems, NegativeZerosInEntries;
    match v
    case List(items) =>
      PlainItemsBytes(c, items, depth + 1, level + 1);
      PrintListLength(level, EnumSafe(v));
    case Tuple(items) =>
      PlainItemsBytes(c, items, depth + 1, level + 1);
      PrintListLength(level, EnumSafe(v));
    case Dict(entries) =>
      PlainEntriesBytes(c, entries, SortRounds(entries), depth + 1, level + 1);
      PrintDictLength(level, EnumSafeEntries(entries));
    case Dec(d) =>
      MoneyAlike(d, c.numberChars);
      ZeroQuoted();
    case EnumMember(m) => BytesExact(c, v, depth, level);
    case _ => BytesExact(c, v, depth, level);
  }

  lemma ZeroQuoted()
    ensures Quote(Codes("0")) == "\"0\""
  {
  }

  lemma {:induction false} PlainItemsBytes(c: Ceilings, items: seq<Value>, depth: nat, level: nat)
    requires SimpleItems(items) && ItemsFaults(c, items, depth) == {}
    ensures |PrintItems(Compact, level, EnumSafeItems(items))| == ItemsCost(c, items, true).bytes + NegativeZerosInItems(items)
    ensures items != [] ==> ItemsCost(c, items, false).bytes == ItemsCost(c, items, true).bytes + 1
    ensures |EnumSafeItems(items)| == |items|
    decreases items, 0
  {
    hide Print, Faults, TreeCost, PrintItems, Simple, EnumSafe, NegativeZeros;
    if items == [] {
      NoItems(level);
    } else {
      PlainBytes(c, items[0], depth, level);
      PlainItemsBytes(c, items[1..], depth, level);
      PrintItemsLength(level, EnumSafeItems(items));
      assert EnumSafeItems(items)[1..] == EnumSafeItems(items[1..]);
    }
  }

  lemma {:induction false} PlainEntriesBytes(c: Ceilings, entries: seq<Entry>, rounds: nat, depth: nat, level: nat)
    requires SimpleEntries(entries) && KeysFaults(c, entries, depth) == {} && ValuesFaults(c, entries, depth) == {}
    ensures |PrintEntries(Compact, level, EnumSafeEntries(entries))|
         == KeysCost(c, entries, rounds).bytes + ValuesCost(c, entries, true).bytes + NegativeZerosInEntries(entries)
    ensures entries != [] ==> ValuesCost(c, entries, false).bytes == ValuesCost(c, entries, true).bytes + 1
    ensures |EnumSafeEntries(entries)| == |entries|
    decreases entries, 0
  {
    hide Print, Faults, TreeCost, PrintEntries, KeyFaults, KeyWidth, KeyText, EnumSafe, Simple, NegativeZeros;
    if entries == [] {
      NoItems(level);
    } else {
      KeyWidthExact(c, entries[0].key);
      PlainEntryBytes(c, entries[0], depth, level);
      PlainEntriesBytes(c, entries[1..], rounds, depth, level);
      PrintEntriesLength(level, EnumSafeEntries(entries));
      assert EnumSafeEntries(entries)[1..] == EnumSafeEntries(entries[1..]);
    }
  }

  lemma {:induction false} PlainEntryBytes(c: Ceilings, e: Entry, depth: nat, level: nat)
    requires SimpleEntry(e) && ValueFaults(c, e, depth) == {}
    ensures |Print(Compact, level, EnumSafeEntry(e).value)| == ValueCost(c, e).bytes + NegativeZerosInEntry(e)
    decreases e, 0
  {
    PlainBytes(c, e.value, depth, level);
  }

  /** The bounded hash and the plain hash read the same text exactly when no decimal is a negative zero. */
  lemma SnapshotTextIsCanonical(c: Ceilings, v: Value)
    requires Simple(v) && Faults(c, v, 0) == {}
    ensures Print(Compact, 0, SortTree(Normal(c, v))) == CanonicalText(v) <==> NegativeZeros(v) == 0
  {
    PlainBytes(c, v, 0, 0);
    SortedLength(0, EnumSafe(v));
    BytesExact(c, v, 0, 0);
    SortedLength(0, Normal(c, v));
    if NegativeZeros(v) == 0 {
      SnapshotAlike(c, v, 0);
      AlikeSort(Normal(c, v), EnumSafe(v));
      AlikePrint(0, SortTree(Normal(c, v)), SortTree(EnumSafe(v)));
    }
  }
}
