/**
 What the crash journal stores (`operation_journal.py`, `frozen_snapshot.py`): a payload is snapshotted and hashed,
 held frozen, thawed into a two-level envelope, written with indentation, and on recovery scanned, decoded,
 snapshotted and hashed again.
 */
module JournalPayload {
  import opened ActionSnapshot
  import opened CanonicalJson
  import opened CanonicalTrees
  import opened JsonDecoder
  import opened PythonText
  import opened RoundTrip
  import opened SnapshotExactness
  import opened Wrappers

  // ---------------------------------------------------------------------------
  // Freezing and thawing
  // ---------------------------------------------------------------------------

  datatype FrozenEntry = FrozenEntry(key: Key, value: Frozen)

  /** A mapping proxy, a tuple, or any other value as it was. */
  datatype Frozen = Proxy(entries: seq<FrozenEntry>) | Sequence(items: seq<Frozen>) | Leaf(value: Value)

  /** `freeze_snapshot`, `_freeze_payload`. */
  function Freeze(v: Value): Frozen
    decreases v
  {
    match v
    case Dict(entries) => Proxy(FreezeEntries(entries))
    case List(items) => Sequence(FreezeItems(items))
    case Tuple(items) => Sequence(FreezeItems(items))
    case _ => Leaf(v)
  }

  function FreezeItems(items: seq<Value>): seq<Frozen>
    decreases items
  {
    if items == [] then [] else [Freeze(items[0])] + FreezeItems(items[1..])
  }

  function FreezeEntries(entries: seq<Entry>): seq<FrozenEntry>
    decreases entries
  {
    if entries == [] then [] else [FreezeEntry(entries[0])] + FreezeEntries(entries[1..])
  }

  function FreezeEntry(e: Entry): FrozenEntry
    decreases e
  {
    FrozenEntry(e.key, Freeze(e.value))
  }

  /** `thaw_snapshot`, `_thaw_payload`. */
  function Thaw(f: Frozen): Value
    decreases f
  {
    match f
    case Proxy(entries) => Dict(ThawEntries(entries))
    case Sequence(items) => List(ThawItems(items))
    case Leaf(v) => v
  }

  function ThawItems(items: seq<Frozen>): seq<Value>
    decreases items
  {
    if items == [] then [] else [Thaw(items[0])] + ThawItems(items[1..])
  }

  function ThawEntries(entries: seq<FrozenEntry>): seq<Entry>
    decreases entries
  {
    if entries == [] then [] else [ThawEntry(entries[0])] + ThawEntries(entries[1..])
  }

  function ThawEntry(e: FrozenEntry): Entry
    decreases e
  {
    Entry(e.key, Thaw(e.value))
  }

  /** The tree comes back from the frozen form, except that its tuples are now lists; thawing loses nothing frozen. */
  lemma {:induction false} ThawFrozen(v: Value)
    ensures Alike(v, Thaw(Freeze(v))) && Freeze(Thaw(Freeze(v))) == Freeze(v)
    decreases v, 1
  {
    hide AlikeItems, AlikeEntries, FreezeItems, FreezeEntries, ThawItems, ThawEntries;
    match v
    case List(items) => ThawFrozenItems(items);
    case Tuple(items) => ThawFrozenItems(items);
    case Dict(entries) => ThawFrozenEntries(entries);
    case _ =>
  }

  lemma {:induction false} ThawFrozenItems(items: seq<Value>)
    ensures AlikeItems(items, ThawItems(FreezeItems(items))) && FreezeItems(ThawItems(FreezeItems(items))) == FreezeItems(items)
    decreases items, 0
  {
    hide Alike, Freeze, Thaw;
    if items != [] {
      ThawFrozen(items[0]);
      ThawFrozenItems(items[1..]);
      assert FreezeItems(items)[1..] == FreezeItems(items[1..]);
      var back := ThawItems(FreezeItems(items));
      assert back[1..] == ThawItems(FreezeItems(items[1..]));
    }
  }

  lemma {:induction false} ThawFrozenEntries(entries: seq<Entry>)
    ensures AlikeEntries(entries, ThawEntries(FreezeEntries(entries)))
    ensures FreezeEntries(ThawEntries(FreezeEntries(entries))) == FreezeEntries(entries)
    decreases entries, 0
  {
    hide Alike, Freeze, Thaw;
    if entries != [] {
      ThawFrozenEntry(entries[0]);
      ThawFrozenEntries(entries[1..]);
      assert FreezeEntries(entries)[1..] == FreezeEntries(entries[1..]);
      var back := ThawEntries(FreezeEntries(entries));
      assert back[1..] == ThawEntries(FreezeEntries(entries[1..]));
    }
  }

  lemma {:induction false} ThawFrozenEntry(e: Entry)
    ensures AlikeEntry(e, ThawEntry(FreezeEntry(e))) && FreezeEntry(ThawEntry(FreezeEntry(e))) == FreezeEntry(e)
    decreases e, 0
  {
    ThawFrozen(e.value);
  }

  // ---------------------------------------------------------------------------
  // Sorted trees
  // ---------------------------------------------------------------------------

  lemma {:induction false} SortOrdered(es: seq<Entry>)
    requires Ordered(es)
    ensures Sort(es) == es
  {
    if |es| > 1 {
      SortOrdered(es[1..]);
      assert EntryLess(es[0], es[1..][0]);
    }
  }

  lemma {:induction false} SortTwice(v: Value, parseFloat: string -> Option<string>)
    requires Plain(v, parseFloat)
    ensures SortTree(SortTree(v)) == SortTree(v)
    decreases v, 1
  {
    match v
    case List(items) =>
      SortItemsLength(items);
      SortItemsLength(SortItems(items));
      forall i | 0 <= i < |items|
        ensures SortItems(SortItems(items))[i] == SortItems(items)[i]
      {
        SortItemsAt(items, i);
        SortItemsAt(SortItems(items), i);
        SortTwice(items[i], parseFloat);
      }
    case Dict(entries) => SortEntriesTwice(entries, parseFloat);
    case _ =>
  }

  lemma {:induction false} SortEntriesTwice(entries: seq<Entry>, parseFloat: string -> Option<string>)
    requires PlainEntries(entries, parseFloat) && DistinctKeys(entries)
    ensures Sort(SortEntries(Sort(SortEntries(entries)))) == Sort(SortEntries(entries))
    decreases entries, 0
  {
    hide SortTree, Plain, SortEntries, Sort;
    PlainStringKeys(entries, parseFloat);
    SortedDict(entries);
    var s := Sort(SortEntries(entries));
    SortEntriesLength(s);
    forall j | 0 <= j < |s|
      ensures SortEntries(s)[j] == s[j]
    {
      SortEntriesAt(s, j);
      assert s[j] in s;
      var i :| 0 <= i < |entries| && s[j] == SortEntry(entries[i]);
      SortEntryTwice(entries[i], parseFloat);
    }
    assert SortEntries(s) == s;
    SortOrdered(s);
  }

  lemma {:induction false} SortEntryTwice(e: Entry, parseFloat: string -> Option<string>)
    requires PlainEntry(e, parseFloat)
    ensures SortEntry(SortEntry(e)) == SortEntry(e)
    decreases e, 0
  {
    SortTwice(e.value, parseFloat);
  }

  /** A decoded file differs from what was stored only in the order of dictionary entries: it is the same JSON value. */
  lemma SortedIsSame(v: Value, parseFloat: string -> Option<string>)
    requires Plain(v, parseFloat)
    ensures Same(SortTree(v), v)
  {
    SortTwice(v, parseFloat);
    SortKeepsPlain(v, parseFloat);
    SortIdentifies(SortTree(v), v, parseFloat);
  }

  // ---------------------------------------------------------------------------
  // Cost and faults do not depend on tuples or on the order of entries
  // ---------------------------------------------------------------------------

  lemma {:induction false} AlikeCost(c: Ceilings, x: Value, y: Value, depth: nat)
    requires Alike(x, y)
    ensures TreeCost(c, x) == TreeCost(c, y) && Faults(c, x, depth) == Faults(c, y, depth)
    decreases x, 1
  {
    hide AlikeItems, AlikeEntries, ItemsCost, KeysCost, ValuesCost, ItemsFaults, KeysFaults, ValuesFaults, NormalKeys, BitLength;
    if x.List? || x.Tuple? {
      AlikeItemsCost(c, x.items, y.items, true, depth + 1);
    } else if x.Dict? {
      AlikeEntriesCost(c, x.entries, y.entries, true, SortRounds(x.entries), depth + 1);
      AlikeFamilies(x.entries, y.entries);
    }
  }

  lemma {:induction false} AlikeFamilies(a: seq<Entry>, b: seq<Entry>)
    requires AlikeEntries(a, b)
    ensures |a| == |b| && OneFamily(a) == OneFamily(b)
    ensures forall i :: 0 <= i < |a| ==> a[i].key == b[i].key
  {
    hide Alike;
    if a != [] {
      AlikeFamilies(a[1..], b[1..]);
      assert forall i :: 0 < i < |a| ==> a[i] == a[1..][i - 1] && b[i] == b[1..][i - 1];
    }
  }

  lemma {:induction false} AlikeItemsCost(c: Ceilings, a: seq<Value>, b: seq<Value>, first: bool, depth: nat)
    requires AlikeItems(a, b)
    ensures ItemsCost(c, a, first) == ItemsCost(c, b, first) && ItemsFaults(c, a, depth) == ItemsFaults(c, b, depth)
    decreases a, 0
  {
    hide Alike, TreeCost, Faults;
    if a != [] {
      AlikeCost(c, a[0], b[0], depth);
      AlikeItemsCost(c, a[1..], b[1..], false, depth);
    }
  }

  lemma {:induction false} AlikeEntriesCost(c: Ceilings, a: seq<Entry>, b: seq<Entry>, first: bool, rounds: nat, depth: nat)
    requires AlikeEntries(a, b)
    ensures KeysCost(c, a, rounds) == KeysCost(c, b, rounds) && ValuesCost(c, a, first) == ValuesCost(c, b, first)
    ensures KeysFaults(c, a, depth) == KeysFaults(c, b, depth) && ValuesFaults(c, a, depth) == ValuesFaults(c, b, depth)
    ensures NormalKeys(c, a) == NormalKeys(c, b)
    decreases a, 0
  {
    hide Alike, TreeCost, Faults, KeyCost, KeyFaults, NormalKey;
    if a != [] {
      AlikeEntryCost(c, a[0], b[0], depth);
      AlikeEntriesCost(c, a[1..], b[1..], false, rounds, depth);
    }
  }

  lemma {:induction false} AlikeEntryCost(c: Ceilings, e: Entry, f: Entry, depth: nat)
    requires AlikeEntry(e, f)
    ensures e.key == f.key && ValueCost(c, e) == ValueCost(c, f) && ValueFaults(c, e, depth) == ValueFaults(c, f, depth)
    decreases e, 0
  {
    AlikeCost(c, e.value, f.value, depth);
  }

  lemma {:induction false} SortedCost(c: Ceilings, v: Value, depth: nat, parseFloat: string -> Option<string>)
    requires Plain(v, parseFloat)
    ensures TreeCost(c, SortTree(v)) == TreeCost(c, v) && Faults(c, SortTree(v), depth) == Faults(c, v, depth)
    decreases v, 1
  {
    hide ItemsCost, KeysCost, ValuesCost, ItemsFaults, KeysFaults, ValuesFaults, NormalKeys, BitLength, SortItems, SortEntries,
      Sort, OneFamily, DistinctNormal;
    match v
    case List(items) => SortedItemsCost(c, items, true, depth + 1, parseFloat);
    case Dict(entries) =>
      var sorted := Sort(SortEntries(entries));
      SortedEntriesCost(c, entries, SortRounds(entries), depth + 1, parseFloat);
      PlainStringKeys(entries, parseFloat);
      SortedDict(entries);
      StringMapping(c, entries);
      StringMapping(c, sorted);
    case _ =>
  }

  /** A mapping of distinct strings passes the family and the duplicate test. */
  lemma StringMapping(c: Ceilings, entries: seq<Entry>)
    requires StringKeys(entries) && DistinctKeys(entries)
    ensures OneFamily(entries) && DistinctNormal(NormalKeys(c, entries))
  {
    hide NormalKeys;
    NormalKeysAt(c, entries);
  }

  lemma {:induction false} SortedItemsCost(c: Ceilings, items: seq<Value>, first: bool, depth: nat,
                                           parseFloat: string -> Option<string>)
    requires PlainItems(items, parseFloat)
    ensures ItemsCost(c, SortItems(items), first) == ItemsCost(c, items, first)
    ensures ItemsFaults(c, SortItems(items), depth) == ItemsFaults(c, items, depth)
    decreases items, 0
  {
    hide TreeCost, Faults, SortTree;
    if items != [] {
      SortedCost(c, items[0], depth, parseFloat);
      SortedItemsCost(c, items[1..], false, depth, parseFloat);
      assert SortItems(items)[1..] == SortItems(items[1..]);
    }
  }

  lemma EntriesUnfold(c: Ceilings, es: seq<Entry>, rounds: nat, depth: nat)
    ensures es == [] ==>
              && KeysCost(c, es, rounds) == ValuesCost(c, es, true) == Cost(0, 0, 0)
              && KeysFaults(c, es, depth) == ValuesFaults(c, es, depth) == {}
    ensures es != [] ==>
              && KeysCost(c, es, rounds) == Plus(KeyCost(c, es[0].key, rounds), KeysCost(c, es[1..], rounds))
              && ValuesCost(c, es, true) == Plus(Plus(Cost(0, 1, 0), ValueCost(c, es[0])), ValuesCost(c, es[1..], false))
              && KeysFaults(c, es, depth) == DepthFaults(c, depth) + KeyFaults(c, es[0].key) + KeysFaults(c, es[1..], depth)
              && ValuesFaults(c, es, depth) == ValueFaults(c, es[0], depth) + ValuesFaults(c, es[1..], depth)
  {
    hide TreeCost, Faults, KeyCost, KeyFaults;
  }

  lemma {:induction false} SortedEntriesCost(c: Ceilings, entries: seq<Entry>, rounds: nat, depth: nat,
                                             parseFloat: string -> Option<string>)
    requires PlainEntries(entries, parseFloat)
    ensures var s := Sort(SortEntries(entries));
            && |s| == |entries|
            && KeysCost(c, s, rounds) == KeysCost(c, entries, rounds) && ValuesCost(c, s, true) == ValuesCost(c, entries, true)
            && KeysFaults(c, s, depth) == KeysFaults(c, entries, depth)
            && ValuesFaults(c, s, depth) == ValuesFaults(c, entries, depth)
    decreases entries, 0
  {
    hide TreeCost, Faults, SortTree, KeyCost, KeyFaults, Insert, KeysCost, ValuesCost, KeysFaults, ValuesFaults;
    EntriesUnfold(c, entries, rounds, depth);
    if entries != [] {
      var e, rest := SortEntry(entries[0]), Sort(SortEntries(entries[1..]));
      SortedEntryCost(c, entries[0], depth, parseFloat);
      SortedEntriesCost(c, entries[1..], rounds, depth, parseFloat);
      InsertKeysCost(c, e, rest, rounds);
      InsertValuesCost(c, e, rest);
      InsertFaults(c, e, rest, depth);
      InsertCount(e, rest);
      LaterValues(c, rest);
      LaterValues(c, entries[1..]);
      assert SortEntries(entries)[1..] == SortEntries(entries[1..]);
    }
  }

  lemma {:induction false} SortedEntryCost(c: Ceilings, e: Entry, depth: nat, parseFloat: string -> Option<string>)
    requires PlainEntry(e, parseFloat)
    ensures TreeCost(c, SortTree(e.value)) == TreeCost(c, e.value)
    ensures Faults(c, SortTree(e.value), depth) == Faults(c, e.value, depth)
    decreases e, 0
  {
    SortedCost(c, e.value, depth, parseFloat);
  }

  /** Values that are not the first of their mapping cost one comma more. */
  lemma {:induction false} LaterValues(c: Ceilings, es: seq<Entry>)
    ensures ValuesCost(c, es, false) == Plus(ValuesCost(c, es, true), Cost(0, if es == [] then 0 else 1, 0))
  {
  }

  lemma {:induction false} InsertKeysCost(c: Ceilings, e: Entry, es: seq<Entry>, rounds: nat)
    ensures var s := Insert(e, es);
            KeysCost(c, s, rounds) == Plus(KeyCost(c, e.key, rounds), KeysCost(c, es, rounds))
  {
    hide KeyCost, EntryLess;
    var s := Insert(e, es);
    if es != [] && !EntryLess(e, es[0]) {
      InsertKeysCost(c, e, es[1..], rounds);
      assert s[0] == es[0] && s[1..] == Insert(e, es[1..]);
    } else {
      assert s[0] == e && s[1..] == es;
    }
  }

  lemma {:induction false} InsertValuesCost(c: Ceilings, e: Entry, es: seq<Entry>)
    ensures var s := Insert(e, es);
            && ValuesCost(c, s, false) == Plus(Plus(Cost(0, 2, 0), ValueCost(c, e)), ValuesCost(c, es, false))
            && ValuesCost(c, s, true) == Plus(Plus(Cost(0, 1, 0), ValueCost(c, e)), ValuesCost(c, es, false))
  {
    hide ValueCost, EntryLess;
    var s := Insert(e, es);
    if es != [] && !EntryLess(e, es[0]) {
      InsertValuesCost(c, e, es[1..]);
      assert s[0] == es[0] && s[1..] == Insert(e, es[1..]);
    } else {
      assert s[0] == e && s[1..] == es;
    }
  }

  lemma {:induction false} InsertFaults(c: Ceilings, e: Entry, es: seq<Entry>, depth: nat)
    ensures var s := Insert(e, es);
            && KeysFaults(c, s, depth) == DepthFaults(c, depth) + KeyFaults(c, e.key) + KeysFaults(c, es, depth)
            && ValuesFaults(c, s, depth) == ValueFaults(c, e, depth) + ValuesFaults(c, es, depth)
  {
    hide KeyFaults, ValueFaults, EntryLess;
    var s := Insert(e, es);
    if es != [] && !EntryLess(e, es[0]) {
      InsertFaults(c, e, es[1..], depth);
      assert s[0] == es[0] && s[1..] == Insert(e, es[1..]);
    } else {
      assert s[0] == e && s[1..] == es;
    }
  }

  // ---------------------------------------------------------------------------
  // The journal file
  // ---------------------------------------------------------------------------

  /** `_snapshot_payload` bounds the payload's canonical bytes, `_write` the file. */
  const MAX_OPERATION_JOURNAL_BYTES := 4 * MIB

  const JOURNAL_CEILINGS := ACTION_CEILINGS.(bytes := MAX_OPERATION_JOURNAL_BYTES, tokenBytes := MAX_OPERATION_JOURNAL_BYTES)

  /** The text that `_sha256_of_validated_action_snapshot` digests for a snapshot. */
  function HashedText(snapshot: Value): string {
    Print(Compact, 0, SortTree(snapshot))
  }

  /** A journal operation without its payload. */
  datatype Envelope = Envelope(
    schemaName: Text, schemaVersion: Text, operationId: Text, kind: Text, preparedAt: Text, payloadHash: Text)

  function Field(name: string, v: Value): Entry {
    Entry(StrKey(Codes(name)), v)
  }

  function Operation(envelope: Envelope, payload: Value): seq<Entry> {
    [Field("operation_id", Str(envelope.operationId)), Field("kind", Str(envelope.kind)),
     Field("prepared_at", Str(envelope.preparedAt)), Field("payload", payload),
     Field("payload_hash", Str(envelope.payloadHash))]
  }

  /** The document `_write` stores. */
  function Document(envelope: Envelope, payload: Value): seq<Entry> {
    [Field("schema_name", Str(envelope.schemaName)), Field("schema_version", Str(envelope.schemaVersion)),
     Field("active", Dict(Operation(envelope, payload)))]
  }

  function JournalFile(envelope: Envelope, payload: Value): string {
    StateText(Dict(Document(envelope, payload)))
  }

  /** `dict.get`. */
  function Get(v: Value, name: string): Option<Value> {
    if v.Dict? then Lookup(v.entries, StrKey(Codes(name))) else None
  }

  function Lookup(entries: seq<Entry>, key: Key): Option<Value> {
    if entries == [] then None
    else if entries[0].key == key then Some(entries[0].value)
    else Lookup(entries[1..], key)
  }

  /** The payload of the active operation in a journal document. */
  function StoredPayload(document: Value): Option<Value> {
    match Get(document, "active")
    case None => None
    case Some(active) => Get(active, "payload")
  }

  lemma {:induction false} LookupIs(entries: seq<Entry>, i: nat)
    requires DistinctKeys(entries) && i < |entries|
    ensures Lookup(entries, entries[i].key) == Some(entries[i].value)
  {
    if i > 0 {
      LookupIs(entries[1..], i - 1);
    }
  }

  /** Sorting does not change what a key maps to, only sorts it. */
  lemma LookupSorted(entries: seq<Entry>, i: nat)
    requires StringKeys(entries) && DistinctKeys(entries) && i < |entries|
    ensures Lookup(Sort(SortEntries(entries)), entries[i].key) == Some(SortTree(entries[i].value))
  {
    hide Sort, SortEntries, SortTree;
    SortedDict(entries);
    var s := Sort(SortEntries(entries));
    assert SortEntry(entries[i]) in s;
    var j :| 0 <= j < |s| && s[j] == SortEntry(entries[i]);
    LookupIs(s, j);
  }

  lemma CodesDistinct(a: string, b: string)
    requires |a| != |b| || (a != "" && b != "" && a[0] != b[0])
    ensures Codes(a) != Codes(b)
  {
    if a != "" && b != "" {
      assert Codes(a)[0] == a[0] as int && Codes(b)[0] == b[0] as int;
    }
  }

  lemma OperationKeys(envelope: Envelope, payload: Value)
    ensures DistinctKeys(Operation(envelope, payload)) && StringKeys(Operation(envelope, payload))
    ensures |Operation(envelope, payload)| == 5 && Operation(envelope, payload)[3] == Field("payload", payload)
  {
    CodesDistinct("operation_id", "kind");
    CodesDistinct("operation_id", "prepared_at");
    CodesDistinct("operation_id", "payload");
    CodesDistinct("operation_id", "payload_hash");
    CodesDistinct("kind", "prepared_at");
    CodesDistinct("kind", "payload");
    CodesDistinct("kind", "payload_hash");
    CodesDistinct("prepared_at", "payload");
    CodesDistinct("prepared_at", "payload_hash");
    CodesDistinct("payload", "payload_hash");
    hide Codes;
  }

  lemma DocumentKeys(envelope: Envelope, payload: Value)
    ensures DistinctKeys(Document(envelope, payload)) && StringKeys(Document(envelope, payload))
    ensures |Document(envelope, payload)| == 3 && Document(envelope, payload)[2] == Field("active", Dict(Operation(envelope, payload)))
  {
  }

  lemma StoredSorted(envelope: Envelope, payload: Value)
    ensures StoredPayload(SortTree(Dict(Document(envelope, payload)))) == Some(SortTree(payload))
  {
    hide Sort, SortEntries, Operation, Document, Lookup, Codes;
    var document, operation := Document(envelope, payload), Operation(envelope, payload);
    DocumentKeys(envelope, payload);
    OperationKeys(envelope, payload);
    LookupSorted(document, 2);
    LookupSorted(operation, 3);
  }

  ghost predicate WholeEnvelope(envelope: Envelope) {
    && NoSplitPair(envelope.schemaName) && NoSplitPair(envelope.schemaVersion) && NoSplitPair(envelope.operationId)
    && NoSplitPair(envelope.kind) && NoSplitPair(envelope.preparedAt) && NoSplitPair(envelope.payloadHash)
  }

  lemma NameWhole(name: string)
    requires forall i :: 0 <= i < |name| ==> name[i] < '\U{80}'
    ensures NoSplitPair(Codes(name))
  {
  }

  lemma OperationWhole(envelope: Envelope, payload: Value, parseFloat: string -> Option<string>)
    requires WholeEnvelope(envelope) && Plain(payload, parseFloat) && Whole(payload)
    ensures Plain(Dict(Operation(envelope, payload)), parseFloat) && Whole(Dict(Operation(envelope, payload)))
  {
    NameWhole("operation_id");
    NameWhole("kind");
    NameWhole("prepared_at");
    NameWhole("payload");
    NameWhole("payload_hash");
    OperationKeys(envelope, payload);
    hide Codes, NoSplitPair;
    var entries := Operation(envelope, payload);
    forall i | 0 <= i < |entries|
      ensures PlainEntry(entries[i], parseFloat) && WholeEntry(entries[i])
    {
    }
  }

  lemma DocumentWhole(envelope: Envelope, payload: Value, parseFloat: string -> Option<string>)
    requires WholeEnvelope(envelope) && Plain(payload, parseFloat) && Whole(payload)
    ensures Plain(Dict(Document(envelope, payload)), parseFloat) && Whole(Dict(Document(envelope, payload)))
  {
    NameWhole("schema_name");
    NameWhole("schema_version");
    NameWhole("active");
    OperationWhole(envelope, payload, parseFloat);
    DocumentKeys(envelope, payload);
    hide Codes, NoSplitPair, Operation;
    var entries := Document(envelope, payload);
    forall i | 0 <= i < |entries|
      ensures PlainEntry(entries[i], parseFloat) && WholeEntry(entries[i])
    {
    }
  }

  /** What is stored of an accepted payload is accepted again once sorted, unchanged, and hashed from the very same text. */
  lemma StoredIsAccepted(c: Ceilings, payload: Value, parseFloat: string -> Option<string>)
    requires Faults(c, payload, 0) == {} && Within(c, TreeCost(c, payload)) && Settled(c, payload)
    requires c.numberChars <= c.scalarChars && 1 <= c.scalarChars
    requires Plain(Thaw(Freeze(Normal(c, payload))), parseFloat)
    ensures var (snapshot, stored) := (Normal(c, payload), Thaw(Freeze(Normal(c, payload))));
            && Faults(c, stored, 0) == {}
            && Faults(c, SortTree(stored), 0) == {} && Within(c, TreeCost(c, SortTree(stored)))
            && Normal(c, SortTree(stored)) == SortTree(stored) && HashedText(SortTree(stored)) == HashedText(snapshot)
  {
    hide Faults, TreeCost, Freeze, Thaw, Plain, Alike, SortTree, Print, Settled;
    var snapshot := Normal(c, payload);
    var stored := Thaw(Freeze(snapshot));
    SnapshotTwice(c, payload, 0);
    ThawFrozen(snapshot);
    AlikeCost(c, snapshot, stored, 0);
    SortedCost(c, stored, 0, parseFloat);
    SortKeepsPlain(stored, parseFloat);
    PlainNormal(c, SortTree(stored), parseFloat);
    AlikeSort(snapshot, stored);
    AlikePrint(0, SortTree(snapshot), SortTree(stored));
    SortTwice(stored, parseFloat);
  }

  /**
   The payload hash survives the crash: whatever the payload was given as, the document written from its thawed
   frozen snapshot decodes to a document whose payload is accepted again, charged the same, and hashed from the
   very same text. Floats must parse back from their `repr`; keys must be strings and no surrogate pair split.
   */
  lemma PayloadHashSurvives(c: Ceilings, envelope: Envelope, payload: Value, parseFloat: string -> Option<string>)
    requires Faults(c, payload, 0) == {} && Within(c, TreeCost(c, payload)) && Settled(c, payload)
    requires c.numberChars <= c.scalarChars && 1 <= c.scalarChars && WholeEnvelope(envelope)
    requires Plain(Thaw(Freeze(Normal(c, payload))), parseFloat) && Whole(Thaw(Freeze(Normal(c, payload))))
    ensures var snapshot := Normal(c, payload);
            var decoded := Decode(JournalFile(envelope, Thaw(Freeze(snapshot))), parseFloat);
            && decoded.Some? && StoredPayload(decoded.value).Some?
            && var again := StoredPayload(decoded.value).value;
               && Faults(c, again, 0) == {} && Within(c, TreeCost(c, again)) && Normal(c, again) == again
               && HashedText(Normal(c, again)) == HashedText(snapshot)
  {
    hide Faults, TreeCost, Freeze, Thaw, Plain, Whole, Alike, SortTree, Decode, Print, Document, StoredPayload, Settled;
    var stored := Thaw(Freeze(Normal(c, payload)));
    StoredIsAccepted(c, payload, parseFloat);
    DocumentWhole(envelope, stored, parseFloat);
    CanonicalRoundTrip(Dict(Document(envelope, stored)), parseFloat);
    StoredSorted(envelope, stored);
  }

  lemma {:induction false} PlainNormal(c: Ceilings, v: Value, parseFloat: string -> Option<string>)
    requires Plain(v, parseFloat)
    ensures Normal(c, v) == v
    decreases v, 1
  {
    hide NormalItems, NormalEntries;
    match v
    case List(items) => PlainItemsNormal(c, items, parseFloat);
    case Dict(entries) => PlainEntriesNormal(c, entries, parseFloat);
    case _ =>
  }

  lemma {:induction false} PlainItemsNormal(c: Ceilings, items: seq<Value>, parseFloat: string -> Option<string>)
    requires PlainItems(items, parseFloat)
    ensures NormalItems(c, items) == items
    decreases items, 0
  {
    hide Normal, Plain;
    if items != [] {
      PlainNormal(c, items[0], parseFloat);
      PlainItemsNormal(c, items[1..], parseFloat);
    }
  }

  lemma {:induction false} PlainEntriesNormal(c: Ceilings, entries: seq<Entry>, parseFloat: string -> Option<string>)
    requires PlainEntries(entries, parseFloat)
    ensures NormalEntries(c, entries) == entries
    decreases entries, 0
  {
    hide Normal, Plain;
    if entries != [] {
      PlainEntryNormal(c, entries[0], parseFloat);
      PlainEntriesNormal(c, entries[1..], parseFloat);
    }
  }

  lemma {:induction false} PlainEntryNormal(c: Ceilings, e: Entry, parseFloat: string -> Option<string>)
    requires PlainEntry(e, parseFloat)
    ensures NormalEntry(c, e) == e
    decreases e, 0
  {
    PlainNormal(c, e.value, parseFloat);
  }
}
