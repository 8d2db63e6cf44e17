/**
 What a restart makes of the journal file (`OperationJournal.active`, `JournalOperation.from_dict`): scan, decode, snapshot
 of the operation, snapshot of its payload, and the hash test. It gives the payload back exactly when that nests at most
 62 deep.
 */
module JournalRecovery {
  import opened ActionSnapshot
  import opened CanonicalJson
  import opened CanonicalTrees
  import opened JournalPayload
  import opened JournalReadback
  import opened JsonDecoder
  import opened PythonText
  import opened RoundTrip
  import opened ScannerAgreement
  import opened SnapshotExactness
  import opened StoredMeasures
  import opened StoredSnapshot
  import opened StrictJson
  import opened Wrappers

  /** `authority_snapshot_and_sha256_of`: the snapshot, or an error. */
  function Snapshot(c: Ceilings, v: Value): Option<Value> {
    if Faults(c, v, 0) == {} && Within(c, TreeCost(c, v)) then Some(Normal(c, v)) else None
  }

  /** `from_dict`: the payload of an operation whose payload hash is right. */
  function FromDict(operation: Value, digest: string -> Text): Option<Value> {
    match Snapshot(JOURNAL_CEILINGS, operation)
    case None => None
    case Some(snapshot) =>
      match Get(snapshot, "payload")
      case None => None
      case Some(payload) =>
        match Snapshot(JOURNAL_CEILINGS, payload)
        case None => None
        case Some(prepared) =>
          if Get(snapshot, "payload_hash") == Some(Str(digest(HashedText(prepared)))) then Some(prepared) else None
  }

  /** `active`: the payload that a restart finds in the file. */
  function Recover(file: string, parseFloat: string -> Option<string>, digest: string -> Text): Option<Value> {
    if |file| > MAX_OPERATION_JOURNAL_BYTES || Scan(STRICT_LIMITS, START, file).Err? then None
    else
      match Decode(file, parseFloat)
      case None => None
      case Some(document) =>
        match Get(document, "active")
        case None => None
        case Some(operation) => FromDict(operation, digest)
  }

  /** What `prepare` stores of a payload: its snapshot, frozen and thawed. */
  function Stored(payload: Value): Value {
    Thaw(Freeze(Normal(JOURNAL_CEILINGS, payload)))
  }

  // ---------------------------------------------------------------------------
  // The stored operation
  // ---------------------------------------------------------------------------

  /** The stored operation, its fields sorted. */
  function StoredOperation(envelope: Envelope, payload: Value): Value {
    SortTree(Dict(Operation(envelope, payload)))
  }

  lemma OperationIsFound(envelope: Envelope, payload: Value)
    ensures Get(SortTree(Dict(Document(envelope, payload))), "active") == Some(StoredOperation(envelope, payload))
    ensures Get(StoredOperation(envelope, payload), "payload") == Some(SortTree(payload))
    ensures Get(StoredOperation(envelope, payload), "payload_hash") == Some(Str(envelope.payloadHash))
  {
    hide Sort, SortEntries, Operation, Document, Lookup, Codes;
    DocumentKeys(envelope, payload);
    OperationKeys(envelope, payload);
    HashField(envelope, payload);
    LookupSorted(Document(envelope, payload), 2);
    LookupSorted(Operation(envelope, payload), 3);
    LookupSorted(Operation(envelope, payload), 4);
    assert SortTree(Str(envelope.payloadHash)) == Str(envelope.payloadHash);
  }

  lemma HashField(envelope: Envelope, payload: Value)
    ensures |Operation(envelope, payload)| == 5
    ensures Operation(envelope, payload)[4] == Field("payload_hash", Str(envelope.payloadHash))
  {
  }

  /** The text of a field is part of the file. */
  lemma FieldWithin(envelope: Envelope, payload: Value, i: nat)
    requires i < 5
    ensures |Operation(envelope, payload)| == 5
    ensures |Print(Indented, 2, SortTree(Operation(envelope, payload)[i].value))| <= |JournalFile(envelope, payload)|
    ensures |Print(Indented, 1, StoredOperation(envelope, payload))| <= |JournalFile(envelope, payload)|
  {
    hide Print, SortTree, Document, Operation;
    DocumentKeys(envelope, payload);
    OperationKeys(envelope, payload);
    SortedMemberWithin(0, Document(envelope, payload), 2);
    SortedMemberWithin(1, Operation(envelope, payload), i);
  }

  lemma TextWithin(s: Text)
    requires |Print(Indented, 2, SortTree(Str(s)))| <= MAX_OPERATION_JOURNAL_BYTES
    ensures TextFaults(JOURNAL_CEILINGS, s) == {}
  {
    assert Print(Indented, 2, SortTree(Str(s))) == "\"" + EscapeText(s) + "\"";
    TextFaultless(JOURNAL_CEILINGS, s);
  }

  lemma TextFieldFaultless(name: string, s: Text)
    requires |Print(Indented, 2, SortTree(Str(s)))| <= MAX_OPERATION_JOURNAL_BYTES && |name| <= 100
    ensures MemberFaultless(JOURNAL_CEILINGS, Field(name, Str(s)), 1)
  {
    TextWithin(s);
    NameFaultless(name);
    hide TextFaults, Codes;
  }

  lemma NameFaultless(name: string)
    requires |name| <= 100
    ensures TextFaults(JOURNAL_CEILINGS, Codes(name)) == {}
  {
    NameChars(name);
    TextFaultless(JOURNAL_CEILINGS, Codes(name));
  }

  /** The whole operation breaks no local ceiling if its payload leaves one level of nesting. */
  lemma OperationFaultless(envelope: Envelope, payload: Value)
    requires Printable(payload) && Faults(JOURNAL_CEILINGS, payload, 0) == {} && Measured(payload).height <= 62
    requires |JournalFile(envelope, payload)| <= MAX_OPERATION_JOURNAL_BYTES
    ensures Faults(JOURNAL_CEILINGS, Dict(Operation(envelope, payload)), 0) == {}
  {
    hide Faults, Measured, Printable, MemberFaultless, JournalFile, Operation, TextFaults;
    OperationKeys(envelope, payload);
    OperationMembers(envelope, payload);
    DictFaultless(JOURNAL_CEILINGS, Operation(envelope, payload), 0);
  }

  lemma OperationMembers(envelope: Envelope, payload: Value)
    requires Printable(payload) && Faults(JOURNAL_CEILINGS, payload, 0) == {} && Measured(payload).height <= 62
    requires |JournalFile(envelope, payload)| <= MAX_OPERATION_JOURNAL_BYTES
    ensures forall i :: 0 <= i < |Operation(envelope, payload)| ==>
              MemberFaultless(JOURNAL_CEILINGS, Operation(envelope, payload)[i], 1)
  {
    hide Faults, TextFaults, Print, SortTree, Codes, JournalFile, StoredOperation, Measured, Printable, MemberFaultless;
    FieldWithin(envelope, payload, 0);
    FieldWithin(envelope, payload, 1);
    FieldWithin(envelope, payload, 2);
    FieldWithin(envelope, payload, 4);
    TextFieldFaultless("operation_id", envelope.operationId);
    TextFieldFaultless("kind", envelope.kind);
    TextFieldFaultless("prepared_at", envelope.preparedAt);
    TextFieldFaultless("payload_hash", envelope.payloadHash);
    PayloadFaultless(payload);
  }

  lemma PayloadFaultless(payload: Value)
    requires Printable(payload) && Faults(JOURNAL_CEILINGS, payload, 0) == {} && Measured(payload).height <= 62
    ensures MemberFaultless(JOURNAL_CEILINGS, Field("payload", payload), 1)
  {
    hide Faults, TextFaults, Measured, Printable, Codes;
    ShallowFaults(JOURNAL_CEILINGS, payload, 0, 1);
    NameFaultless("payload");
  }

  /** And it is within the running totals, because the file is small. */
  lemma OperationSnapshot(envelope: Envelope, payload: Value, parseFloat: string -> Option<string>)
    requires Plain(payload, parseFloat) && Whole(payload) && WholeEnvelope(envelope) && Printable(payload)
    requires Faults(JOURNAL_CEILINGS, payload, 0) == {} && Measured(payload).height <= 62
    requires |JournalFile(envelope, payload)| <= MAX_OPERATION_JOURNAL_BYTES
    ensures Snapshot(JOURNAL_CEILINGS, StoredOperation(envelope, payload)) == Some(StoredOperation(envelope, payload))
  {
    hide Faults, TreeCost, Print, SortTree, Operation, Measured, Plain, Whole, Printable, Normal, JournalFile;
    var operation := Dict(Operation(envelope, payload));
    OperationFaultless(envelope, payload);
    OperationWhole(envelope, payload, parseFloat);
    MeasuredOperation(envelope, payload);
    PayloadTokens(envelope, payload);
    FieldWithin(envelope, payload, 0);
    WithinBySize(JOURNAL_CEILINGS, operation, 1, parseFloat);
    SortedCost(JOURNAL_CEILINGS, operation, 0, parseFloat);
    SortKeepsPlain(operation, parseFloat);
    PlainNormal(JOURNAL_CEILINGS, SortTree(operation), parseFloat);
  }

  // ---------------------------------------------------------------------------
  // Recovery
  // ---------------------------------------------------------------------------

  /**
   Recovery is exact. A payload that `prepare` accepts, in a file within the byte ceiling, is found by a restart with its
   hash intact exactly when its containers nest at most 62 deep; otherwise the file cannot be read.
   */
  lemma RecoveryIffShallow(envelope: Envelope, payload: Value, parseFloat: string -> Option<string>, digest: string -> Text)
    requires Faults(JOURNAL_CEILINGS, payload, 0) == {} && Within(JOURNAL_CEILINGS, TreeCost(JOURNAL_CEILINGS, payload))
    requires Settled(JOURNAL_CEILINGS, payload) && Plain(Stored(payload), parseFloat) && Whole(Stored(payload))
    requires WholeEnvelope(envelope) && envelope.payloadHash == digest(HashedText(Normal(JOURNAL_CEILINGS, payload)))
    requires |JournalFile(envelope, Stored(payload))| <= MAX_OPERATION_JOURNAL_BYTES
    ensures Printable(Stored(payload))
    ensures Recover(JournalFile(envelope, Stored(payload)), parseFloat, digest) ==
            if Measured(Stored(payload)).height <= 62 then Some(SortTree(Stored(payload))) else None
  {
    hide Faults, TreeCost, Plain, Whole, SortTree, Decode, Print, Document, Settled, Scan, Freeze, Thaw, StoredOperation, Get,
      HashedText, Printable, Normal, JournalFile, Snapshot;
    var stored := Stored(payload);
    PlainPrintable(stored, parseFloat);
    StoredIsAccepted(JOURNAL_CEILINGS, payload, parseFloat);
    AcceptedSnapshot(JOURNAL_CEILINGS, SortTree(stored));
    ReadableIffShallow(envelope, stored);
    if Measured(stored).height <= 62 {
      FileDecodes(envelope, stored, parseFloat);
      OperationIsFound(envelope, stored);
      OperationSnapshot(envelope, stored, parseFloat);
    }
  }

  lemma AcceptedSnapshot(c: Ceilings, v: Value)
    requires Faults(c, v, 0) == {} && Within(c, TreeCost(c, v))
    ensures Snapshot(c, v) == Some(Normal(c, v))
  {
  }

  lemma FileDecodes(envelope: Envelope, payload: Value, parseFloat: string -> Option<string>)
    requires WholeEnvelope(envelope) && Plain(payload, parseFloat) && Whole(payload)
    ensures Decode(JournalFile(envelope, payload), parseFloat) == Some(SortTree(Dict(Document(envelope, payload))))
  {
    hide Plain, Whole, SortTree, Decode, Document;
    DocumentWhole(envelope, payload, parseFloat);
    CanonicalRoundTrip(Dict(Document(envelope, payload)), parseFloat);
  }
}
