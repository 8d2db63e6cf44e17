/**
 The other side of `JournalReadback`: rejections whose payload passes every check of the journal's writer, in a small
 file, and that the recovery reader refuses.
 */
module JournalOverrun {
  import opened ActionSnapshot
  import opened CanonicalJson
  import opened CanonicalTrees
  import opened JournalPayload
  import opened JournalReadback
  import opened JournalRecovery
  import opened JsonDecoder
  import opened PythonText
  import opened RoundTrip
  import opened ScannerAgreement
  import opened StoredMeasures
  import opened StoredSnapshot
  import opened StrictJson
  import opened Wrappers

  /** No stored token takes more than this many characters, with its indentation and punctuation. */
  predicate Roomy(weight: nat, level: nat, x: Measure) {
    x.stringChars + x.numberChars + 4 * (level + x.height) + 16 <= weight
  }

  lemma {:induction false} IndentedAtMost(level: nat, weight: nat, v: Value)
    requires Printable(v) && Roomy(weight, level, Measured(v))
    ensures |Print(Indented, level, v)| + 2 * level + 2 <= weight * Measured(v).tokens
    decreases v, 1
  {
    hide MeasuredItems, MeasuredEntries, PrintItems, PrintEntries;
    NoMembers(level + 1);
    match v
    case List(items) =>
      IndentedItemsAtMost(level + 1, weight, items);
      IndentedContainer(level, v);
      Distribute(weight, 1, MeasuredItems(items).tokens);
    case Tuple(items) =>
      IndentedItemsAtMost(level + 1, weight, items);
      IndentedContainer(level, v);
      Distribute(weight, 1, MeasuredItems(items).tokens);
    case Dict(entries) =>
      IndentedEntriesAtMost(level + 1, weight, entries);
      IndentedContainer(level, v);
      Distribute(weight, 1, MeasuredEntries(entries).tokens);
    case _ => LeafLength(level, v);
  }

  lemma {:induction false} IndentedItemsAtMost(level: nat, weight: nat, items: seq<Value>)
    requires PrintableItems(items) && Roomy(weight, level, MeasuredItems(items))
    ensures |PrintItems(Indented, level, items)| <= weight * MeasuredItems(items).tokens
    decreases items, 0
  {
    hide Printable, Measured, Print, PrintItems;
    NoMembers(level);
    if items != [] {
      IndentedAtMost(level, weight, items[0]);
      IndentedItemsAtMost(level, weight, items[1..]);
      IndentedItems(level, items);
      Distribute(weight, Measured(items[0]).tokens, MeasuredItems(items[1..]).tokens);
    }
  }

  lemma {:induction false} IndentedEntriesAtMost(level: nat, weight: nat, entries: seq<Entry>)
    requires PrintableEntries(entries) && Roomy(weight, level, MeasuredEntries(entries))
    ensures |PrintEntries(Indented, level, entries)| <= weight * MeasuredEntries(entries).tokens
    decreases entries, 0
  {
    hide PrintableEntry, MeasuredEntry, PrintEntry, PrintEntries;
    NoMembers(level);
    if entries != [] {
      IndentedEntryAtMost(level, weight, entries[0]);
      IndentedEntriesAtMost(level, weight, entries[1..]);
      IndentedEntries(level, entries);
      Distribute(weight, MeasuredEntry(entries[0]).tokens, MeasuredEntries(entries[1..]).tokens);
    }
  }

  lemma {:induction false} IndentedEntryAtMost(level: nat, weight: nat, e: Entry)
    requires PrintableEntry(e) && Roomy(weight, level, MeasuredEntry(e))
    ensures |PrintEntry(Indented, level, e)| + 2 * level + 2 <= weight * MeasuredEntry(e).tokens
    decreases e, 0
  {
    hide Print;
    IndentedEntry(level, e);
    IndentedAtMost(level, weight, e.value);
    Distribute(weight, 1, Measured(e.value).tokens);
  }

  // ---------------------------------------------------------------------------
  // What the writer checks of a rejection
  // ---------------------------------------------------------------------------

  /**
   The rules that are not modelled: which values `money` accepts, and which are the unsealed, valid evidence of a rejection
   of an action and a request.
   */
  datatype Rules = Rules(amount: Value -> bool, rejection: (Value, Text, Text) -> bool)

  /** The payload of an `approval_reject`. */
  datatype Rejection = Rejection(
    approvalId: Text, actionId: Text, requestId: Text, reserved: Value, decidedBy: Text, note: Text, attestation: Value,
    evidence: Value)

  function Fields(r: Rejection): seq<Entry> {
    [Field("approval_id", Str(r.approvalId)), Field("action_id", Str(r.actionId)), Field("request_id", Str(r.requestId)),
     Field("reserved_usd", r.reserved), Field("decided_by", Str(r.decidedBy)), Field("note", Str(r.note)),
     Field("attestation", r.attestation), Field("evidence", r.evidence)]
  }

  /** Non-empty once stripped. */
  predicate HasText(s: Text) {
    exists i :: 0 <= i < |s| && !SpaceCode(s[i])
  }

  /** `_validate_payload` accepts the payload of a rejection. */
  predicate ValidRejection(rules: Rules, r: Rejection) {
    && rules.amount(r.reserved) && rules.rejection(r.evidence, r.actionId, r.requestId)
    && HasText(r.approvalId) && HasText(r.actionId) && HasText(r.requestId) && HasText(r.decidedBy)
    && (r.attestation.Null? || r.attestation.Dict?)
  }

  /** `prepare` accepts the payload: its snapshot is taken, and is that of a valid rejection. */
  predicate WriterAccepts(rules: Rules, r: Rejection) {
    Snapshot(JOURNAL_CEILINGS, Dict(Fields(r))) == Some(Dict(Fields(r))) && ValidRejection(rules, r)
  }

  // ---------------------------------------------------------------------------
  // A deep attestation
  // ---------------------------------------------------------------------------

  /** An empty list inside n lists. */
  function Nest(n: nat): Value {
    if n == 0 then List([]) else List([Nest(n - 1)])
  }

  lemma {:induction false} NestMeasured(n: nat, parseFloat: string -> Option<string>)
    ensures Plain(Nest(n), parseFloat) && Printable(Nest(n)) && Measured(Nest(n)) == Measure(n + 1, n + 1, 0, 0)
  {
    NoMembers(0);
    if n > 0 {
      NestMeasured(n - 1, parseFloat);
      var items := [Nest(n - 1)];
      assert items[1..] == [];
      assert MeasuredItems(items) == Both(Measured(items[0]), MeasuredItems(items[1..]));
    }
  }

  /** An attestation with one field, nested n + 2 deep. */
  function Deep(name: string, n: nat): Value {
    Dict([Field(name, Nest(n))])
  }

  lemma DeepMeasured(name: string, n: nat, parseFloat: string -> Option<string>)
    ensures Plain(Deep(name, n), parseFloat) && Printable(Deep(name, n))
    ensures var x := Measured(Deep(name, n));
            x.tokens == n + 3 && x.height == n + 2 && x.stringChars <= 12 * |name| && x.numberChars == 0
  {
    NestMeasured(n, parseFloat);
    NameChars(name);
    hide Nest, Codes, EscapeText;
    var entries := [Field(name, Nest(n))];
    ValueField(name, Nest(n));
    MeasuredCons(entries);
    NoMembers(0);
    assert entries[1..] == [];
  }

  /** A value of ordinary size. */
  ghost predicate Modest(v: Value, parseFloat: string -> Option<string>) {
    && Plain(v, parseFloat) && Printable(v)
    && var x := Measured(v);
       x.tokens <= 150 && x.height <= 60 && x.stringChars <= 1000 && x.numberChars <= 1000
  }

  ghost predicate ModestRejection(r: Rejection, parseFloat: string -> Option<string>) {
    && |EscapeText(r.approvalId)| <= 1000 && |EscapeText(r.actionId)| <= 1000 && |EscapeText(r.requestId)| <= 1000
    && |EscapeText(r.decidedBy)| <= 1000 && |EscapeText(r.note)| <= 1000
    && Modest(r.reserved, parseFloat) && Modest(r.evidence, parseFloat)
  }

  lemma FieldNames(r: Rejection)
    ensures DistinctKeys(Fields(r)) && |Fields(r)| == 8
  {
    CodesDistinct("approval_id", "action_id");
    CodesDistinct("approval_id", "request_id");
    CodesDistinct("approval_id", "reserved_usd");
    CodesDistinct("approval_id", "decided_by");
    CodesDistinct("approval_id", "note");
    SameLength("approval_id", "attestation", 1);
    CodesDistinct("approval_id", "evidence");
    CodesDistinct("action_id", "request_id");
    CodesDistinct("action_id", "reserved_usd");
    CodesDistinct("action_id", "decided_by");
    CodesDistinct("action_id", "note");
    CodesDistinct("action_id", "attestation");
    CodesDistinct("action_id", "evidence");
    CodesDistinct("request_id", "reserved_usd");
    CodesDistinct("request_id", "decided_by");
    CodesDistinct("request_id", "note");
    CodesDistinct("request_id", "attestation");
    CodesDistinct("request_id", "evidence");
    CodesDistinct("reserved_usd", "decided_by");
    CodesDistinct("reserved_usd", "note");
    CodesDistinct("reserved_usd", "attestation");
    CodesDistinct("reserved_usd", "evidence");
    CodesDistinct("decided_by", "note");
    CodesDistinct("decided_by", "attestation");
    CodesDistinct("decided_by", "evidence");
    CodesDistinct("note", "attestation");
    CodesDistinct("note", "evidence");
    CodesDistinct("attestation", "evidence");
    hide Codes;
  }

  lemma SameLength(a: string, b: string, i: nat)
    requires i < |a| && i < |b| && a[i] != b[i]
    ensures Codes(a) != Codes(b)
  {
    assert Codes(a)[i] == a[i] as int && Codes(b)[i] == b[i] as int;
  }

  lemma FieldsPlain(r: Rejection, name: string, n: nat, parseFloat: string -> Option<string>)
    requires ModestRejection(r, parseFloat) && r.attestation == Deep(name, n)
    ensures Plain(Dict(Fields(r)), parseFloat)
  {
    FieldNames(r);
    DeepMeasured(name, n, parseFloat);
    hide Deep, Codes;
    var entries := Fields(r);
    forall i | 0 <= i < |entries|
      ensures PlainEntry(entries[i], parseFloat)
    {
    }
  }

  /** The measures of a field are within these bounds. */
  ghost predicate Bounded(e: Entry, tokens: nat, height: nat) {
    && PrintableEntry(e)
    && var x := MeasuredEntry(e);
       x.tokens <= tokens && x.height <= height && x.stringChars <= 1000 && x.numberChars <= 1000
  }

  lemma BoundedText(name: string, s: Text, height: nat)
    requires |name| <= 20 && |EscapeText(s)| <= 1000
    ensures Bounded(Field(name, Str(s)), 151, height)
  {
    TextField(name, s);
    NameChars(name);
    hide Codes, EscapeText, MeasuredEntry, PrintableEntry;
  }

  lemma BoundedValue(name: string, v: Value, height: nat, parseFloat: string -> Option<string>)
    requires |name| <= 20 && Modest(v, parseFloat) && height >= 60
    ensures Bounded(Field(name, v), 151, height)
  {
    ValueField(name, v);
    NameChars(name);
    hide Codes, EscapeText, MeasuredEntry, PrintableEntry;
  }

  lemma {:induction false} BoundedAll(entries: seq<Entry>, height: nat)
    requires forall i :: 0 <= i < |entries| ==> Bounded(entries[i], 151, height)
    ensures PrintableEntries(entries)
    ensures var x := MeasuredEntries(entries);
            x.tokens <= 151 * |entries| && x.height <= height && x.stringChars <= 1000 && x.numberChars <= 1000
  {
    hide PrintableEntry, MeasuredEntry;
    NoMembers(0);
    if entries != [] {
      assert Bounded(entries[0], 151, height);
      BoundedAll(entries[1..], height);
    }
  }

  lemma FieldsBounded(r: Rejection, name: string, n: nat, parseFloat: string -> Option<string>)
    requires ModestRejection(r, parseFloat) && r.attestation == Deep(name, n) && |name| <= 80 && 60 <= n <= 62
    ensures forall i :: 0 <= i < |Fields(r)| ==> Bounded(Fields(r)[i], 151, n + 2)
    ensures Fields(r)[6] == Field("attestation", Deep(name, n)) && PrintableEntry(Fields(r)[6]) && MeasuredEntry(Fields(r)[6]).height == n + 2
  {
    hide Deep, Codes, EscapeText, MeasuredEntry, PrintableEntry, Modest, Bounded;
    BoundedAttestation(name, n, parseFloat);
    BoundedText("approval_id", r.approvalId, n + 2);
    BoundedText("action_id", r.actionId, n + 2);
    BoundedText("request_id", r.requestId, n + 2);
    BoundedValue("reserved_usd", r.reserved, n + 2, parseFloat);
    BoundedText("decided_by", r.decidedBy, n + 2);
    BoundedText("note", r.note, n + 2);
    BoundedValue("evidence", r.evidence, n + 2, parseFloat);
  }

  lemma BoundedAttestation(name: string, n: nat, parseFloat: string -> Option<string>)
    requires |name| <= 80 && 60 <= n <= 62
    ensures var e := Field("attestation", Deep(name, n));
            Bounded(e, 151, n + 2) && PrintableEntry(e) && MeasuredEntry(e).height == n + 2
  {
    DeepMeasured(name, n, parseFloat);
    ValueField("attestation", Deep(name, n));
    NameChars("attestation");
    hide Deep, Codes, EscapeText, MeasuredEntry, PrintableEntry;
  }

  lemma FieldsMeasured(r: Rejection, name: string, n: nat, parseFloat: string -> Option<string>)
    requires ModestRejection(r, parseFloat) && r.attestation == Deep(name, n) && |name| <= 80 && 60 <= n <= 62
    ensures Printable(Dict(Fields(r)))
    ensures var x := Measured(Dict(Fields(r)));
            x.tokens <= 1209 && x.height == n + 3 && x.stringChars <= 1000 && x.numberChars <= 1000
  {
    hide Deep, Bounded, ModestRejection, PrintableEntry, MeasuredEntry, MeasuredEntries;
    FieldsBounded(r, name, n, parseFloat);
    FieldNames(r);
    hide Fields;
    BoundedAll(Fields(r), n + 2);
    EntryMeasure(Fields(r), 6);
  }

  lemma {:induction false} NestFaultless(c: Ceilings, n: nat, depth: nat)
    requires depth + n <= c.depth
    ensures Faults(c, Nest(n), depth) == {}
  {
    hide ItemsFaults;
    if n > 0 {
      NestFaultless(c, n - 1, depth + 1);
      ItemsFaultless(c, [Nest(n - 1)], depth + 1);
    } else {
      ItemsDone(c, depth + 1);
    }
  }

  lemma DeepFaultless(name: string, n: nat)
    requires |name| <= 80 && n <= 62
    ensures MemberFaultless(JOURNAL_CEILINGS, Field("attestation", Deep(name, n)), 1)
  {
    NestFaultless(JOURNAL_CEILINGS, n, 2);
    NameFaultless(name);
    NameFaultless("attestation");
    hide Faults, TextFaults, Codes, Nest;
    var entries := [Field(name, Nest(n))];
    assert MemberFaultless(JOURNAL_CEILINGS, entries[0], 2);
    DictFaultless(JOURNAL_CEILINGS, entries, 1);
  }

  lemma ModestFaultless(name: string, v: Value, parseFloat: string -> Option<string>)
    requires |name| <= 100 && Modest(v, parseFloat)
    ensures MemberFaultless(JOURNAL_CEILINGS, Field(name, v), 1)
  {
    hide Faults, TextFaults, Codes, Plain, Printable, Measured;
    NameFaultless(name);
    SmallIsFaultless(JOURNAL_CEILINGS, v, 1, parseFloat);
  }

  lemma ShortFaultless(name: string, s: Text)
    requires |name| <= 100 && |EscapeText(s)| <= 1000
    ensures MemberFaultless(JOURNAL_CEILINGS, Field(name, Str(s)), 1)
  {
    NameFaultless(name);
    TextFaultless(JOURNAL_CEILINGS, s);
    hide TextFaults, Codes, EscapeText;
  }

  /** The payload breaks no local ceiling. */
  lemma FieldsFaultless(r: Rejection, name: string, n: nat, parseFloat: string -> Option<string>)
    requires ModestRejection(r, parseFloat) && r.attestation == Deep(name, n) && |name| <= 80 && n <= 62
    ensures Faults(JOURNAL_CEILINGS, Dict(Fields(r)), 0) == {}
  {
    hide MemberFaultless, Deep, Codes, EscapeText, Modest, Faults;
    FieldNames(r);
    ShortFaultless("approval_id", r.approvalId);
    ShortFaultless("action_id", r.actionId);
    ShortFaultless("request_id", r.requestId);
    ModestFaultless("reserved_usd", r.reserved, parseFloat);
    ShortFaultless("decided_by", r.decidedBy);
    ShortFaultless("note", r.note);
    DeepFaultless(name, n);
    ModestFaultless("evidence", r.evidence, parseFloat);
    DictFaultless(JOURNAL_CEILINGS, Fields(r), 0);
  }

  /** The writer accepts the rejection. */
  lemma RejectionIsAccepted(rules: Rules, r: Rejection, name: string, n: nat, parseFloat: string -> Option<string>)
    requires ModestRejection(r, parseFloat) && r.attestation == Deep(name, n) && |name| <= 80 && 60 <= n <= 62 && ValidRejection(rules, r)
    ensures WriterAccepts(rules, r)
  {
    hide Faults, TreeCost, Print, SortTree, Fields, Measured, Plain, Printable, Normal, ModestRejection, ValidRejection, Deep;
    var payload := Dict(Fields(r));
    FieldsPlain(r, name, n, parseFloat);
    FieldsMeasured(r, name, n, parseFloat);
    FieldsFaultless(r, name, n, parseFloat);
    SortKeepsPlain(payload, parseFloat);
    MeasuredSort(payload);
    IndentedAtMost(0, 2400, SortTree(payload));
    WithinBySize(JOURNAL_CEILINGS, payload, 0, parseFloat);
    PlainNormal(JOURNAL_CEILINGS, payload, parseFloat);
  }

  /**
   With an envelope of ordinary size, a valid rejection whose attestation makes its payload nest 63, 64 or 65 deep passes
   every check of the writer, its file is below the byte ceiling, and a restart cannot read it.
   */
  lemma WriterOutrunsReader(rules: Rules, envelope: Envelope, r: Rejection, name: string, n: nat,
                            parseFloat: string -> Option<string>,
                            digest: string -> Text)
    requires ModestRejection(r, parseFloat) && r.attestation == Deep(name, n) && |name| <= 80 && 60 <= n <= 62 && ValidRejection(rules, r)
    requires EnvelopeChars(envelope) <= 1000
    ensures WriterAccepts(rules, r)
    ensures |JournalFile(envelope, Dict(Fields(r)))| <= MAX_OPERATION_JOURNAL_BYTES
    ensures Recover(JournalFile(envelope, Dict(Fields(r))), parseFloat, digest) == None
  {
    hide Faults, TreeCost, Print, SortTree, Scan, Document, Fields, Measured, Plain, Printable, Decode, ModestRejection,
      ValidRejection, Deep;
    var payload := Dict(Fields(r));
    RejectionIsAccepted(rules, r, name, n, parseFloat);
    FieldsMeasured(r, name, n, parseFloat);
    var document := Dict(Document(envelope, payload));
    MeasuredDocument(envelope, payload);
    MeasuredSort(document);
    IndentedAtMost(0, 2400, SortTree(document));
    ReadableIffShallow(envelope, payload);
  }

  /** It can happen: the shortest texts, and any amount and evidence of ordinary size that the rules accept. */
  lemma SuchRejectionsExist(rules: Rules, reserved: Value, evidence: Value, name: string, n: nat, parseFloat: string -> Option<string>)
    requires Modest(reserved, parseFloat) && Modest(evidence, parseFloat)
    requires rules.amount(reserved) && rules.rejection(evidence, [0x61], [0x61])
    ensures var r := Rejection([0x61], [0x61], [0x61], reserved, [0x61], [], Deep(name, n), evidence);
            ModestRejection(r, parseFloat) && ValidRejection(rules, r)
  {
    var a: Text := [0x61];
    assert a[1..] == [] && EscapeText(a) == Escape(0x61) + EscapeText([]);
    assert !SpaceCode(a[0]);
  }
}
