/**
 Whether recovery can read the journal that the writer stored. `limits.py` (lines 15-18) promises that the writer
 cannot create a journal the reader refuses; the file nests the payload two containers deeper than the snapshot
 that was checked, so the promise holds exactly for payloads nested at most 62 deep, while 65 are accepted.
 */
module JournalReadback {
  import opened ActionSnapshot
  import opened CanonicalJson
  import opened JournalPayload
  import opened PythonText
  import opened ScannerAgreement
  import opened StoredMeasures
  import opened StrictJson

  lemma MeasuredCons(entries: seq<Entry>)
    requires PrintableEntries(entries) && entries != []
    ensures MeasuredEntries(entries) == Both(MeasuredEntry(entries[0]), MeasuredEntries(entries[1..]))
  {
  }

  /** A text field is two tokens. */
  lemma TextField(name: string, text: Text)
    ensures PrintableEntry(Field(name, Str(text)))
    ensures var m := MeasuredEntry(Field(name, Str(text)));
            m.tokens == 2 && m.height == 0 && m.numberChars == 0
              && m.stringChars == Max(|EscapeText(Codes(name))|, |EscapeText(text)|)
  {
  }

  lemma ValueField(name: string, v: Value)
    requires Printable(v)
    ensures PrintableEntry(Field(name, v))
    ensures var m, x := MeasuredEntry(Field(name, v)), Measured(v);
            && m.tokens == 1 + x.tokens && m.height == x.height && m.numberChars == x.numberChars
            && m.stringChars == Max(|EscapeText(Codes(name))|, x.stringChars)
  {
  }

  /** The longest string of an operation, apart from its payload. */
  function EnvelopeChars(envelope: Envelope): nat {
    Max(Max(Max(|EscapeText(envelope.schemaName)|, |EscapeText(envelope.schemaVersion)|),
            Max(|EscapeText(envelope.operationId)|, |EscapeText(envelope.kind)|)),
        Max(|EscapeText(envelope.preparedAt)|, |EscapeText(envelope.payloadHash)|))
  }

  lemma EnvelopeHolds(envelope: Envelope)
    ensures |EscapeText(envelope.schemaName)| <= EnvelopeChars(envelope) && |EscapeText(envelope.schemaVersion)| <= EnvelopeChars(envelope)
    ensures |EscapeText(envelope.operationId)| <= EnvelopeChars(envelope) && |EscapeText(envelope.kind)| <= EnvelopeChars(envelope)
    ensures |EscapeText(envelope.preparedAt)| <= EnvelopeChars(envelope) && |EscapeText(envelope.payloadHash)| <= EnvelopeChars(envelope)
  {
  }

  lemma NameChars(name: string)
    ensures |EscapeText(Codes(name))| <= 12 * |name|
  {
    TextChars(Codes(name));
  }

  lemma {:induction false} TextChars(t: Text)
    ensures |EscapeText(t)| <= 12 * |t|
    decreases |t|
  {
    if t != [] {
      TextChars(t[1..]);
    }
  }

  /** Five entries, of which the fourth is the payload. */
  lemma MeasuredOperation(envelope: Envelope, payload: Value)
    requires Printable(payload)
    ensures Printable(Dict(Operation(envelope, payload)))
    ensures var m, x := Measured(Dict(Operation(envelope, payload))), Measured(payload);
            && m.tokens == x.tokens + 10 && m.height == x.height + 1 && m.numberChars == x.numberChars
            && m.stringChars <= Max(Max(x.stringChars, EnvelopeChars(envelope)), 168)
  {
    hide Codes, EscapeText, PrintableEntry, MeasuredEntry, MeasuredEntries, EnvelopeChars;
    EnvelopeHolds(envelope);
    var entries := Operation(envelope, payload);
    TextField("operation_id", envelope.operationId);
    TextField("kind", envelope.kind);
    TextField("prepared_at", envelope.preparedAt);
    ValueField("payload", payload);
    TextField("payload_hash", envelope.payloadHash);
    NameChars("operation_id");
    NameChars("kind");
    NameChars("prepared_at");
    NameChars("payload");
    NameChars("payload_hash");
    assert PrintableEntries(entries);
    MeasuredCons(entries);
    MeasuredCons(entries[1..]);
    MeasuredCons(entries[2..]);
    MeasuredCons(entries[3..]);
    MeasuredCons(entries[4..]);
    assert entries[1..][1..] == entries[2..] && entries[2..][1..] == entries[3..] && entries[3..][1..] == entries[4..];
    NoMembers(0);
    assert entries[4..][1..] == [];
  }

  lemma MeasuredDocument(envelope: Envelope, payload: Value)
    requires Printable(payload)
    ensures Printable(Dict(Document(envelope, payload)))
    ensures var m, x := Measured(Dict(Document(envelope, payload))), Measured(payload);
            && m.tokens == x.tokens + 16 && m.height == x.height + 2 && m.numberChars == x.numberChars
            && m.stringChars <= Max(Max(x.stringChars, EnvelopeChars(envelope)), 168)
  {
    hide Codes, EscapeText, Operation, PrintableEntry, MeasuredEntry, MeasuredEntries, EnvelopeChars;
    EnvelopeHolds(envelope);
    var entries := Document(envelope, payload);
    MeasuredOperation(envelope, payload);
    TextField("schema_name", envelope.schemaName);
    TextField("schema_version", envelope.schemaVersion);
    ValueField("active", Dict(Operation(envelope, payload)));
    NameChars("schema_name");
    NameChars("schema_version");
    NameChars("active");
    assert PrintableEntries(entries);
    MeasuredCons(entries);
    MeasuredCons(entries[1..]);
    MeasuredCons(entries[2..]);
    assert entries[1..][1..] == entries[2..];
    NoMembers(0);
    assert entries[2..][1..] == [];
  }

  /**
   The reader's scan accepts a journal file that the writer could store exactly when the payload's containers nest
   at most 62 deep: none of the other ceilings can be reached within the journal's size.
   */
  lemma ReadableIffShallow(envelope: Envelope, payload: Value)
    requires Printable(payload) && Faults(JOURNAL_CEILINGS, payload, 0) == {}
    requires |JournalFile(envelope, payload)| <= MAX_OPERATION_JOURNAL_BYTES
    ensures Scan(STRICT_LIMITS, START, JournalFile(envelope, payload)).Ok? <==> Measured(payload).height <= 62
  {
    hide Faults, Print, SortTree, Scan, Document, Operation;
    var document := Dict(Document(envelope, payload));
    MeasuredDocument(envelope, payload);
    MeasuredSort(document);
    ScannerAgrees(STRICT_LIMITS, Indented, SortTree(document));
    NumbersBounded(JOURNAL_CEILINGS, payload, 0);
    IndentedAtLeast(0, 0, SortTree(document));
    PayloadTokens(envelope, payload);
  }

  lemma PayloadTokens(envelope: Envelope, payload: Value)
    requires Printable(payload)
    ensures 6 * Measured(payload).tokens <= |JournalFile(envelope, payload)| + 5
  {
    hide Print, SortTree, Document, Operation;
    DocumentKeys(envelope, payload);
    OperationKeys(envelope, payload);
    MeasuredSort(payload);
    IndentedAtLeast(2, 6, SortTree(payload));
    SortedMemberWithin(0, Document(envelope, payload), 2);
    SortedMemberWithin(1, Operation(envelope, payload), 3);
  }
}
