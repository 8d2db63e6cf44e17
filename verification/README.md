# Defiant Agent Harness: a verified model of its authority core

Defiant Agent Harness decides whether an AI agent's tool call may run, asks an operator where policy says so, and keeps
enough sealed state on disk to survive a crash between any two writes. This project models the parts of it that its
guarantees rest on, in Dafny, and proves what those parts promise.

Source paths below are those of the harness's own repository, under `src/defiant_agent_harness/`.

## What is modelled

**Canonical JSON and its strict reader.** Every authority record is hashed and stored as JSON. `CanonicalJson` holds the
trees (dictionaries as entries in insertion order, floats as their `repr`, decimals as sign, digits and exponent) and
prints them compactly, as they are hashed, and indented, as they are stored. `StrictJson` is the character-level scanner
that bounds a text before anything is built from it; `ScannerAgreement` shows that it sees exactly the printed tree.
`JsonDecoder` follows the grammar of RFC 8259 (strings in section 7) with the program's hooks; `RoundTrip` and
`CanonicalTrees` say when decoding undoes printing and which trees share a text, `KeyReload` what becomes of keys that
are not strings. `Money` is the decimal text and the bounded form of it that never formats an attacker-sized exponent.
`ActionSnapshot` is the walk that normalises a tree and charges it against eight ceilings; `SnapshotExactness` shows
that what it charges is what is later emitted, `EnumKeys` that enum keys change nothing of it. `JournalPayload`,
`StoredMeasures`, `StoredSnapshot`, `JournalReadback`, `JournalRecovery` and `JournalOverrun` follow a payload through
snapshot, freeze, thaw, write, scan, decode, the snapshot of the operation around it and its own.

**Crash-safe publication.** `AuthorityPublication` has the write-ahead intent, the sealed checkpoint, the anchor in a
second file and the six schema versions. Each file is an optional value, each atomic write one step, and a crash stops a
call after any number of its writes (its `fuse`). `PublicationRuns` is about whole runs and about runs that have forked;
`PublicationWitness` adds the signed external note. `AuthorityProfile` and `OperatorTrust` are the two append-only
histories, `EvidenceHead` the checkpoint of the evidence chain, `ActivePublication` the auditor's classification of a
publication that was interrupted, and `PublicationReplay` what it means for the stores.

**Approvals, journal, lock and audit.** `Approvals` is the store and its record validator, `ApprovalRuns` its life over
every interleaving, `OperationJournal` the one-slot journal and its replay, `AuthorityLock` the reentrant lock as a state
machine over threads and processes, `CrossStoreAudit` the loops that append to the integrity report and `SilentAudit` what
it means that they append nothing critical.

Objects that the program updates in place are classes whose methods are specified by pure functions; the theorems are
about those functions, over all inputs, all runs and all crash points. SHA-256 is a function parameter, and a lemma that
needs it to be injective says so in its `requires`. Signatures are a predicate: which attestations a trusted key vouches
for; so is the byte ceiling of the profile and trust files: which states fit. Times are integers with an order.

## Where the code differs from what it promises

Each item names the lemmas that say exactly when the promise holds and that exhibit an input on which it does not.

- Two strings can share a text. A high surrogate directly before a low one prints as the escape of one character, so
  decoding merges them: `RoundTrip.RoundTripExact` holds exactly without such a pair, `RoundTrip.SplitPairCollides` is the
  collision.
- A numerically keyed mapping is sorted by number when hashed and by text once reloaded. A tree's canonical text, and so
  its hash, survives a reload exactly when in every mapping the two orders are the same (`KeyReload.ReloadKeepsText`);
  the keys 2 and 10 fail it (`CanonicalTrees.NumericKeysReorder`).
- A snapshot of a snapshot is accepted exactly when every mapping's normalised keys are of one family
  (`SnapshotExactness.SnapshotTwice`); a string enum whose value is a number is taken once and then refused
  (`SnapshotExactness.MixedEnumKeysUnsettle`).
- `action_sha256_of` and `canonical_json` read the same text exactly when no decimal is a negative zero: one writes `0`,
  the other `-0` (`EnumKeys.SnapshotTextIsCanonical`, `Money.BoundedRefines`).
- The journal's comment in `limits.py` (lines 15-18) says its writer cannot create a file its reader refuses. The file
  nests the payload two containers deeper than what was checked, so a restart finds a stored payload exactly when it nests
  at most 62 deep, while 65 are written (`JournalRecovery.RecoveryIffShallow`); a rejection with a deep attestation is one
  that is written and not found (`JournalOverrun.WriterOutrunsReader`, `JournalOverrun.SuchRejectionsExist`).
- `complete` refuses before it looks at the ratchet when no intent is active, so only `prepare` clears a forward
  recovery left then (`PublicationRuns.CompleteRecoversFirst`); one publication and a crash lead there
  (`PublicationRuns.CompleteCanLeaveRecovery`).
- While a publication is applied, a required store that is missing is an error exactly when it is not the evidence witness
  policy, or the evidence head has reached the target (`PublicationReplay.MissingRequiredStore`). The search asks for the
  state `not_recorded`, and the entry of a missing witness policy says `not_configured`, so it is reported as a publication
  being applied (`PublicationReplay.MissingWitnessGoesUnnoticed`).
- `create_prepared` stores a valid record that is already marked approved. An execution that begins was preceded by an
  accepted decision exactly when its record was not created so (`ApprovalRuns.ExecutionWasApproved`); without trusted keys
  one can begin with no decision (`ApprovalRuns.ApprovedRecordNeedsNoDecision`), with trusted keys it always carries a
  signature (`ApprovalRuns.ExecutionWasSigned`).
- A journaled rejection that has not reached the store when its approval expires is refused at every restart and keeps
  the slot (`OperationJournal.LateRejectionIsStuck`).
- A failure of `prepare_storage_root` inside `acquire` (`persistence.py`, line 366) comes before the releasing `finally`:
  the process lock stays with the thread, and no other thread of the process gets in until the process ends
  (`AuthorityLock.LeakLocksOutTheProcess`). No other path leaks (`AuthorityLock.LeaksAreRootFailures`).
- While the journal holds a rejection or expiry of a terminal approval that still has its reservation, the audit skips
  that approval's evidence checks. On silence a consumed approval has its evidence or is so excused
  (`SilentAudit.SilentEvidence`), and any consumed approval can be excused in silence without evidence
  (`SilentAudit.ExcusedNeedsNoEvidence`).
- The per-action test for open authorizations differs from the global one exactly when some authorization of the action
  and request has no outcome within the action and every such one has an outcome under another
  (`SilentAudit.OpenTestsDifferExactly`); two records suffice (`SilentAudit.OpenTestsCanDiffer`).

## Model

| member | source | states |
|---|---|---|
| `Money.CountTrailingZeros` | src/defiant_agent_harness/contracts.py:1410-1431 | the loop finds how many zeros end the coefficient |
| `Money.BoundedRefines` | src/defiant_agent_harness/contracts.py:1370-1389 | for every amount `money` accepts, the bounded form accepts exactly zero and the amounts whose coefficient and text fit the ceiling, its predicted length is that of `money_text`, and its answer is `money_text` iff the sign bit is clear |
| `Money.SameTextIffSameNumber` | src/defiant_agent_harness/money.py:41-47 | two amounts have one text iff they are the same number, whatever their exponents |
| `Money.TextReadsBack` | src/defiant_agent_harness/money.py:41-47 | reading the text gives an integer and a scale that denote the amount exactly |
| `Money.IntegerBoundExact` | src/defiant_agent_harness/contracts.py:1358-1368 | the boundary test on an integer refuses exactly when its printed form is longer than the ceiling, and otherwise gives that length |
| `StrictJson.Preflight` | src/defiant_agent_harness/strict_json.py:86-165 | the scanner loop ends as the state machine over the characters does, with the first refusal where a ceiling is passed |
| `StrictJson.ScanIsMeasured` | src/defiant_agent_harness/strict_json.py:86-165 | the bounded scan accepts a text iff the greatest depth, token count, string length and number length that an unbounded scan of it meets are all within the ceilings |
| `ScannerAgreement.ScannerAgrees` | src/defiant_agent_harness/strict_json.py:86-165 | the scan of any printed tree, compact or indented, succeeds iff the tree's nesting height, its number of keys, scalars and containers, its longest escaped string and its longest number are within the ceilings, and ends at depth zero outside any string having counted exactly those tokens |
| `JsonDecoder.DecimalInteger` | src/defiant_agent_harness/strict_json.py:75-83 | the accumulating loop computes the integer the token spells |
| `JsonDecoder.UniqueObject` | src/defiant_agent_harness/strict_json.py:55-61 | pairs come back in order iff no key repeats, and are refused otherwise |
| `RoundTrip.ParseEscaped` | src/defiant_agent_harness/contracts.py:72-80 | any escaped string reads back as itself with each split surrogate pair merged, and nothing after its quote is consumed |
| `RoundTrip.RoundTripExact` | src/defiant_agent_harness/contracts.py:72-80 | decoding the printed text of a string-keyed tree gives the tree iff no string in it holds a split surrogate pair |
| `RoundTrip.PrintInjective` | src/defiant_agent_harness/contracts.py:72-80 | trees without split pairs that print alike are equal |
| `RoundTrip.SplitPairCollides` | src/defiant_agent_harness/contracts.py:72-80 | two different strings with one canonical text |
| `CanonicalTrees.OrderedUnique` | src/defiant_agent_harness/contracts.py:72-80 | a set of entries has one ordering by key |
| `CanonicalTrees.SortIdentifies` | src/defiant_agent_harness/contracts.py:72-80 | sorting keys at every level maps two trees to one iff they are the same JSON value |
| `CanonicalTrees.CanonicalRoundTrip` | src/defiant_agent_harness/contracts.py:72-80 | the hashed text and the stored text both decode to the tree with its keys sorted |
| `CanonicalTrees.EqualTextIffEqualTree` | src/defiant_agent_harness/contracts.py:72-99 | two trees have one canonical text, and so one hash, iff they are the same JSON value |
| `CanonicalTrees.NumericKeysReorder` | src/defiant_agent_harness/contracts.py:72-80 | a mapping keyed 2 and 10 changes its canonical text by being reloaded |
| `KeyReload.ReloadKeepsText` | src/defiant_agent_harness/contracts.py:72-80 | a tree with string, integer, boolean, null or float keys is read back with its keys named, and then has the canonical text it was read from iff in every mapping the sorted keys' names are in order too |
| `ActionSnapshot.StringToken` | src/defiant_agent_harness/contracts.py:1309-1347 | the printable fast path and the per-character path both give the width of the quoted string, refused iff it exceeds the ceiling |
| `ActionSnapshot.ValidateFamilies` | src/defiant_agent_harness/contracts.py:1083-1097 | keys are accepted iff all are strings, all numbers or all null |
| `ActionSnapshot.WorkBound` | src/defiant_agent_harness/contracts.py:1070-1081 | the division that avoids a large product refuses exactly when the product exceeds what is left |
| `ActionSnapshot.Walk.ClaimNode` | src/defiant_agent_harness/contracts.py:1048-1062 | one node is charged unless the depth or the node count passes its ceiling, depth first |
| `ActionSnapshot.Walk.Consume` | src/defiant_agent_harness/contracts.py:1064-1068 | the bytes are charged unless their total passes the ceiling |
| `ActionSnapshot.Walk.ConsumeSortWork` | src/defiant_agent_harness/contracts.py:1070-1081 | width times rounds is charged unless the total passes the ceiling |
| `ActionSnapshot.Walk.MoneyToken` | src/defiant_agent_harness/contracts.py:1160-1171 | a decimal is charged the width of its quoted bounded text, or refused for a ceiling it breaks |
| `ActionSnapshot.Walk.VisitKey` | src/defiant_agent_harness/contracts.py:1099-1154 | a key is accepted iff it breaks no local ceiling and no total is passed; then its normal form, width and charge are exact |
| `ActionSnapshot.Walk.VisitKeys` | src/defiant_agent_harness/contracts.py:1220-1241 | all keys of a mapping together, refused too when two normalise to keys Python calls equal |
| `ActionSnapshot.Walk.VisitEntries` | src/defiant_agent_harness/contracts.py:1208-1258 | a mapping is charged its braces, keys, commas, colons and values exactly, keys before any value |
| `ActionSnapshot.Walk.VisitItems` | src/defiant_agent_harness/contracts.py:1259-1278 | the same for lists and tuples |
| `ActionSnapshot.Walk.Visit` | src/defiant_agent_harness/contracts.py:1156-1281 | the walk accepts a tree iff no part of it breaks a local ceiling and the total of nodes, bytes and sort work stays within bounds; a refusal names a ceiling the tree really breaks; on success the counters have grown by the tree's exact cost and the result is its normal form |
| `SnapshotExactness.BytesExact` | src/defiant_agent_harness/contracts.py:1156-1281 | the bytes charged for an accepted tree are the length of the compact text of its normal form |
| `SnapshotExactness.SortedLength` | src/defiant_agent_harness/contracts.py:223-250 | the length does not depend on key order |
| `SnapshotExactness.StreamDigest` | src/defiant_agent_harness/contracts.py:236-244 | the digest is fed all chunks, or refused iff together they pass the ceiling |
| `SnapshotExactness.StreamCannotOverrun` | src/defiant_agent_harness/contracts.py:223-250 | after an accepted walk the streaming ceiling can never fire, however the encoder cuts its sorted output |
| `SnapshotExactness.SnapshotTwice` | src/defiant_agent_harness/contracts.py:153-199 | a snapshot's snapshot is itself and costs no more; it is accepted again iff every mapping's normalised keys are of one family |
| `SnapshotExactness.MatchingKeysSettle` | src/defiant_agent_harness/contracts.py:1083-1097 | mappings whose keys keep their family settle; only an enum key can fail to |
| `SnapshotExactness.MixedEnumKeysUnsettle` | src/defiant_agent_harness/contracts.py:1099-1154 | a mapping that is accepted once and whose snapshot is refused |
| `EnumKeys.BareText` | src/defiant_agent_harness/contracts.py:1002-1013 | a key of a string, integer or float enum sorts and prints as its value, so the canonical text is that of the tree without enum keys |
| `EnumKeys.BareNormal` | src/defiant_agent_harness/contracts.py:1099-1154 | and the walk makes the same snapshot of both, or refuses both for the same ceilings |
| `EnumKeys.SnapshotTextIsCanonical` | src/defiant_agent_harness/contracts.py:141-162 | the bounded action hash and the plain canonical hash read one text iff no decimal is a negative zero, enum keys included |
| `JournalPayload.ThawFrozen` | src/defiant_agent_harness/frozen_snapshot.py:9-26 | thawing a frozen tree gives it back with tuples as lists, and freezing that again gives the same frozen tree |
| `JournalPayload.SortedIsSame` | src/defiant_agent_harness/persistence.py:511-530 | a file decodes to the JSON value that was stored |
| `JournalPayload.AlikeCost` | src/defiant_agent_harness/operation_journal.py:308-323 | freezing and thawing change neither what a tree is charged nor which ceilings it breaks |
| `JournalPayload.SortedCost` | src/defiant_agent_harness/contracts.py:1156-1281 | nor does sorting its keys |
| `JournalPayload.StoredSorted` | src/defiant_agent_harness/operation_journal.py:264-273 | the payload is found in the sorted file under its envelope |
| `JournalPayload.PayloadHashSurvives` | src/defiant_agent_harness/operation_journal.py:141-186 | a payload accepted by `prepare` and written to the journal decodes to one that is accepted again, unchanged, within the same ceilings, and hashed from the very same text |
| `JournalReadback.ReadableIffShallow` | src/defiant_agent_harness/strict_json.py:86-165 | the scan accepts a journal file the writer could store iff its payload nests at most 62 deep; no other ceiling of the scan can be met |
| `StoredSnapshot.SmallIsFaultless` | src/defiant_agent_harness/contracts.py:1156-1281 | a tree whose tokens, nesting, strings and numbers are within the ceilings breaks none of them |
| `StoredSnapshot.WithinBySize` | src/defiant_agent_harness/contracts.py:1156-1281 | a tree that breaks no local ceiling, and whose stored text is within the byte ceiling, is within the node, byte and sort work totals |
| `JournalRecovery.OperationSnapshot` | src/defiant_agent_harness/operation_journal.py:276-290 | the operation around a stored payload that nests at most 62 deep is accepted whole, unchanged |
| `JournalRecovery.RecoveryIffShallow` | src/defiant_agent_harness/operation_journal.py:159-186 | a payload `prepare` accepts, in a file within the byte ceiling, is given back by a restart, through scan, decoding, both snapshots and the hash test, iff it nests at most 62 deep, and is refused otherwise |
| `JournalOverrun.WriterOutrunsReader` | src/defiant_agent_harness/operation_journal.py:332-468 | rejections with valid fields and a deep attestation, their payloads nested 63, 64 and 65 deep, are accepted by the writer, stored in a small file and not found by a restart |
| `JournalOverrun.SuchRejectionsExist` | src/defiant_agent_harness/operation_journal.py:332-468 | there are such rejections for any amount and evidence of ordinary size that the field rules accept |
| `AuthorityPublication.PublicationStore.RecoverContinuity` | src/defiant_agent_harness/authority_publication.py:919-952 | the anchor moves only when the ratchet is one behind, by one write; a verdict that is neither verified nor legacy is refused with nothing written |
| `AuthorityPublication.PublicationStore.Prepare` | src/defiant_agent_harness/authority_publication.py:750-819 | for every crash point, the files left are those after that many of the call's writes, and the call succeeds, is refused or dies accordingly |
| `AuthorityPublication.PublicationStore.Complete` | src/defiant_agent_harness/authority_publication.py:821-909 | the same for the checkpoint and then the anchor |
| `PublicationRuns.PrepareKeepsSound` | src/defiant_agent_harness/authority_publication.py:750-819 | every state `prepare` makes durable is readable, is judged not recorded, legacy, verified or forward recovery, and moves the chain by at most one linked step |
| `PublicationRuns.CompleteKeepsSound` | src/defiant_agent_harness/authority_publication.py:821-909 | the same for `complete` |
| `PublicationRuns.RunsStaySound` | src/defiant_agent_harness/authority_publication.py:955-993 | no run of calls and crashes from an empty or legacy store ever leads to missing, rollback or diverged, and the sequence never decreases once positive |
| `PublicationRuns.PrepareRecoversFirst` | src/defiant_agent_harness/authority_publication.py:750-770 | a well-formed `prepare` clears a forward recovery with its first write, leaving the publication as it was |
| `PublicationRuns.CompleteRecoversFirst` | src/defiant_agent_harness/authority_publication.py:821-850 | `complete` does so iff an intent is active |
| `PublicationRuns.CompleteCanLeaveRecovery` | src/defiant_agent_harness/authority_publication.py:821-909 | the first publication of an empty store, cut off before its anchor is written, leaves a forward recovery that no `complete` writes anything for |
| `PublicationRuns.PrepareExact` | src/defiant_agent_harness/authority_publication.py:750-819 | with no publication active, `prepare` succeeds iff the request is well formed and follows the checkpoint by one generation or repeats it, and then the stored intent is what was asked for, linked to that checkpoint |
| `PublicationRuns.CompleteExact` | src/defiant_agent_harness/authority_publication.py:821-909 | an active intent can be completed iff it has store commitments; the checkpoint repeats it, the chain is one longer if it is linked, and no recovery is left to do |
| `PublicationRuns.CrashedPreparationResumes` | src/defiant_agent_harness/authority_publication.py:750-819 | wherever a `prepare` that would succeed dies, the same request succeeds again, with the first intent if that was stored |
| `PublicationRuns.CrashedCompletionResumes` | src/defiant_agent_harness/authority_publication.py:821-909 | wherever `complete` dies, either completing again succeeds or the checkpoint that completes the intent is stored |
| `PublicationRuns.OneRunRatchet` | src/defiant_agent_harness/authority_publication.py:955-993 | within one run the verdict on any publication file and any anchor depends only on their sequences: equal verified, one ahead forward recovery, behind rollback, further ahead diverged |
| `PublicationRuns.SharedPast` | src/defiant_agent_harness/authority_publication.py:447-475 | two sealed chains with one record hash in common share everything before it |
| `PublicationRuns.ForkIsRefused` | src/defiant_agent_harness/authority_publication.py:955-993 | a publication of one history against an anchor of another is verified or forward iff the histories are one up to the anchor and the publication is there or one past it |
| `PublicationRuns.ForkedRuns` | src/defiant_agent_harness/authority_publication_continuity.py:139-182 | the same for files taken from any moments of two runs |
| `PublicationWitness.MatchedRollbackIsRefused` | src/defiant_agent_harness/authority_publication_witness.py:504-541 | of files restored together from a run, those before the witnessed sequence are behind, those at it current, those one past it ahead, and later ones beyond the window |
| `PublicationWitness.OnlySharedHistoryIsAccepted` | src/defiant_agent_harness/authority_publication_witness.py:504-541 | files of another run are current or ahead iff their whole history is the witnessed one, or it and one checkpoint more |
| `PublicationWitness.WitnessedProfileStays` | src/defiant_agent_harness/authority_publication_witness.py:693-702 | the profile a witness names is found in every later state of the profile's history |
| `AuthorityProfile.Validate` | src/defiant_agent_harness/authority_profile.py:142-241 | the loop with its running hash and time accepts iff every transition follows its predecessor and the chain reaches the current hash and time |
| `AuthorityProfile.ProfileStore.ResolveForAuthority` | src/defiant_agent_harness/authority_profile.py:334-409 | enrols, keeps or activates the staged profile; anything else is refused and changes nothing |
| `AuthorityProfile.ProfileStore.RequestRotation` | src/defiant_agent_harness/authority_profile.py:411-498 | stages one transition, or recognises the one already staged; anything else is refused and changes nothing |
| `AuthorityProfile.CallSteps` | src/defiant_agent_harness/authority_profile.py:368-498 | whatever a call writes is accepted by its own reader and is an enrolment, a staging or the activation of what was staged |
| `AuthorityProfile.ActivationExact` | src/defiant_agent_harness/authority_profile.py:368-409 | a staged profile that is asked for is activated iff the history has room, the state it leads to is within the file's byte ceiling, and an unsigned stage does not meet signed trust |
| `AuthorityProfile.StagedCanActivate` | src/defiant_agent_harness/authority_profile.py:368-498 | a rotation that was staged can be activated at any later time iff the history has room, the state it leads to is within the byte ceiling and its signature is there where trust is signed, and installs the hash, operator and note that were asked for |
| `AuthorityProfile.RunStaysValid` | src/defiant_agent_harness/authority_profile.py:142-241 | every state of a run passes the full validator at every later time and is within the byte ceiling |
| `AuthorityProfile.HistoryOnlyGrows` | src/defiant_agent_harness/authority_profile.py:368-498 | between any two moments the enrolment is the same and the earlier transitions are a prefix of the later |
| `AuthorityProfile.HashAtIsStable` | src/defiant_agent_harness/authority_publication_witness.py:693-702 | the hash looked up at a generation is the same in every later state |
| `AuthorityProfile.ActivatedWasStaged` | src/defiant_agent_harness/authority_profile.py:368-409 | every transition in the history had been pending, as it stands, in an earlier state of the run |
| `OperatorTrust.ValidateBindings` | src/defiant_agent_harness/operator_trust_state.py:498-526 | the loop accepts iff operators are trimmed, bounded and ordered, key sets non-empty, sorted and unique, and the total within 1024 |
| `OperatorTrust.Validate` | src/defiant_agent_harness/operator_trust_state.py:153-275 | the chain loop accepts iff each rotation is strictly additive on the bindings before it, hashes and generations are contiguous, times ordered, and the chain reaches the current bindings |
| `OperatorTrust.Verify` | src/defiant_agent_harness/operator_trust_state.py:292-324 | the loop accepts iff the configured bindings are the stored ones and each rotation was signed by a key of the generation before it |
| `OperatorTrust.TrustStore.ResolveForAuthority` | src/defiant_agent_harness/operator_trust_state.py:356-385 | a startup enrols, is accepted with exactly the enrolled keys, runs unsigned only where nothing was ever enrolled or signed, and is refused otherwise |
| `OperatorTrust.TrustStore.RotateTrust` | src/defiant_agent_harness/operator_trust_state.py:429-495 | a rotation is written iff it verifies before and after, and a repeated one is recognised |
| `OperatorTrust.PairsCount` | src/defiant_agent_harness/operator_trust_state.py:498-526 | the running key count is the number of trusted (operator, key) pairs |
| `OperatorTrust.SamePairs` | src/defiant_agent_harness/operator_trust_state.py:498-526 | canonical bindings are determined by their pairs |
| `OperatorTrust.AdditiveGrows` | src/defiant_agent_harness/operator_trust_state.py:552-558 | an additive change keeps every pair and adds at least one |
| `OperatorTrust.GenerationBounded` | src/defiant_agent_harness/operator_trust_state.py:153-275 | in every accepted state the pairs form a strictly growing chain, so the generation is at most 1024 |
| `OperatorTrust.RotationProgress` | src/defiant_agent_harness/operator_trust_state.py:429-495 | an accepted rotation replays the last one or strictly uses up the room for pairs, is signed by a current key, appends to the history and leaves a state that verifies |
| `OperatorTrust.RotationSucceeds` | src/defiant_agent_harness/operator_trust_state.py:429-495 | a properly signed additive rotation of a verified state is accepted iff the state it leads to is within the file's byte ceiling |
| `OperatorTrust.EveryKeyHasALineage` | src/defiant_agent_harness/operator_trust_state.py:292-324 | in a verified state every trusted key traces back, signature by signature, to a key of the enrolment |
| `OperatorTrust.RunOnlyExtends` | src/defiant_agent_harness/operator_trust_state.py:338-495 | over every run each state is accepted by its own reader, keeps the first enrolment, only appends rotations and never loses a trusted pair |
| `OperatorTrust.NoSilentDowngrade` | src/defiant_agent_harness/operator_trust_state.py:338-385 | once enrolled, no later startup succeeds without keys, or with keys that lack an earlier pair |
| `EvidenceHead.LoadEvidence` | src/defiant_agent_harness/state_integrity.py:1573-1606 | the loop keeps the records up to the first that fails, which form a valid chain, and trusts the log iff all of it is one |
| `EvidenceHead.CheckpointIsPrefixTest` | src/defiant_agent_harness/evidence_head.py:279-295 | against a checkpoint of chain A, chain B is verified iff it is A, forward iff it extends A, rollback iff it is shorter, diverged otherwise |
| `EvidenceHead.SameVerdicts` | src/defiant_agent_harness/evidence_witness.py:725-739 | the witness's position test gives the same verdict as the checkpoint's on every input |
| `EvidenceHead.WitnessAdmitsExtensions` | src/defiant_agent_harness/evidence_witness.py:556-590 | a witness of chain A admits exactly the extensions of A within the lag bound |
| `EvidenceHead.HeadStore.ReconcileForAuthority` | src/defiant_agent_harness/evidence_head.py:167-212 | creates, keeps, advances or rebinds the checkpoint; a rollback, divergence or foreign profile is refused and nothing written |
| `EvidenceHead.HeadStore.AdvanceHead` | src/defiant_agent_harness/evidence_head.py:214-252 | moves the checkpoint only from the expected position, or recognises that it has moved |
| `EvidenceHead.EventExtends` | src/defiant_agent_harness/evidence_head.py:167-272 | whatever is accepted extends what was checkpointed before |
| `EvidenceHead.CheckpointsOnlyExtend` | src/defiant_agent_harness/evidence_head.py:167-272 | over any run with crashes, rebinds and replaced logs the count never decreases and every checkpointed chain extends all earlier ones |
| `EvidenceHead.CrashIsRepaired` | src/defiant_agent_harness/evidence_head.py:167-212 | a crash between append and checkpoint is repaired by the next startup |
| `EvidenceHead.StartupAcceptsExtensions` | src/defiant_agent_harness/evidence_head.py:167-212 | a startup accepts a log iff it extends the checkpointed chain and the profile is bound or may be rebound |
| `Approvals.ApprovalStore.Create` | src/defiant_agent_harness/approvals/store.py:667-690 | a valid record is stored unless its action has an active approval; the same record again is recognised, a different one under its id refused |
| `Approvals.ApprovalStore.ExpireDue` | src/defiant_agent_harness/approvals/store.py:750-767 | exactly the pending and approved records past their expiry become expired, all others stay |
| `Approvals.ApprovalStore.ExpireApproval` | src/defiant_agent_harness/approvals/store.py:781-799 | the one record, recognised when already expired |
| `Approvals.ApprovalStore.DecideApproval` | src/defiant_agent_harness/approvals/store.py:833-872 | an unexpired pending record takes one decision by a named, vouched-for operator |
| `Approvals.ApprovalStore.EnsureApprovalRejected` | src/defiant_agent_harness/approvals/store.py:801-831 | a rejection is applied or recognised, and refused where the record says something else |
| `Approvals.ApprovalStore.Begin` | src/defiant_agent_harness/approvals/store.py:953-984 | only an approved, unexpired record with the given action and authorization hash becomes executing; an expired one is stored as expired and refused |
| `Approvals.ApprovalStore.MarkApprovalConsumed` | src/defiant_agent_harness/approvals/store.py:986-1011 | an executing record without reconciliation intent is consumed by one evidence record |
| `Approvals.ApprovalStore.EnsureApprovalConsumed` | src/defiant_agent_harness/approvals/store.py:1013-1047 | the same, recognised when consumed by that record |
| `Approvals.ApprovalStore.BeginApprovalReconciliation` | src/defiant_agent_harness/approvals/store.py:1049-1129 | an executing record takes one intent; a repeated identical one is recognised, a different one refused |
| `Approvals.ApprovalStore.MarkApprovalReconciled` | src/defiant_agent_harness/approvals/store.py:1184-1219 | an executing record with an intent is consumed and completed, or recognised |
| `ApprovalRuns.OperationKeeps` | src/defiant_agent_harness/approvals/store.py:276-459 | every operation keeps every record valid and at most one active approval per action, drops no record and moves records only forward |
| `ApprovalRuns.RunsStayValid` | src/defiant_agent_harness/approvals/store.py:276-452 | at every moment of every interleaving all stored records pass the record validator and no action has two active approvals |
| `ApprovalRuns.RecordsOnlyMoveForward` | src/defiant_agent_harness/approvals/store.py:454-459 | between any two moments a record's bindings are the same, its decision and reconciliation intent fixed once made, and a terminal record, its evidence id included, fixed altogether |
| `ApprovalRuns.ExecutionBeginsOnce` | src/defiant_agent_harness/approvals/store.py:953-984 | `begin_execution` succeeds at most once per approval in any run |
| `ApprovalRuns.BroughtIsNotDecided` | src/defiant_agent_harness/approvals/store.py:667-690 | a record that was stored as already approved is never the subject of an accepted approving decision |
| `ApprovalRuns.ExecutionWasApproved` | src/defiant_agent_harness/approvals/store.py:833-984 | an execution begins only for the stored authorization hash and before expiry, and an accepted approving decision came first iff the record was not created as approved |
| `ApprovalRuns.ApprovedRecordNeedsNoDecision` | src/defiant_agent_harness/approvals/store.py:667-690 | a run without trusted keys in which an execution begins and nothing was decided |
| `ApprovalRuns.ExecutionWasSigned` | src/defiant_agent_harness/approvals/store.py:1175-1182 | with trusted keys, an execution that begins carries a trusted approving signature for exactly this approval, action and authorization, made before expiry |
| `ApprovalRuns.ApprovedCanBegin` | src/defiant_agent_harness/approvals/store.py:833-984 | an accepted approving decision stores the operator, note and attestation given, and from then on an execution can begin iff it is for the same action and authorization and before expiry |
| `ApprovalRuns.RejectedIsFinal` | src/defiant_agent_harness/approvals/store.py:833-872 | after an accepted rejection no run ever begins an execution of the approval or approves it |
| `ApprovalRuns.IntentIsFixed` | src/defiant_agent_harness/approvals/store.py:1049-1129 | a recorded reconciliation intent is recognised iff outcome, operator and note are the same, and is never replaced |
| `ApprovalRuns.IntentMustBeCompleted` | src/defiant_agent_harness/approvals/store.py:1184-1219 | an execution under reconciliation cannot be consumed the ordinary way; completing it succeeds iff evidence is named, and keeps the intent |
| `OperationJournal.OperationJournal.Prepare` | src/defiant_agent_harness/operation_journal.py:243-253 | an operation enters the slot iff it passes the checks of its kind and payload and the slot is empty |
| `OperationJournal.OperationJournal.Complete` | src/defiant_agent_harness/operation_journal.py:255-262 | the slot is emptied iff it holds the operation with this id and that can be read back |
| `OperationJournal.ReplayIsRecognized` | src/defiant_agent_harness/approvals/store.py:667-690 | applied again at any later time, a create, reject, expire or completion succeeds and changes nothing |
| `OperationJournal.DelayIsHarmless` | src/defiant_agent_harness/approvals/store.py:781-799 | a create, expiry or completion that could be applied can still be applied later |
| `OperationJournal.RejectionMustPrecedeExpiry` | src/defiant_agent_harness/approvals/store.py:801-831 | a rejection can iff the approval is decided already or has not expired |
| `OperationJournal.OnlyTimesDiffer` | src/defiant_agent_harness/approvals/store.py:781-831 | when an operation takes effect matters only for the decision and consumption times |
| `OperationJournal.ReplayIsExactlyOnce` | src/defiant_agent_harness/operation_journal.py:243-262 | however often the process dies before applying or before clearing, the approvals end as one application at the first effective attempt leaves them, and the slot is empty once an attempt finishes |
| `OperationJournal.LateRejectionIsStuck` | src/defiant_agent_harness/approvals/store.py:801-831 | a rejection that meets an expired approval is refused at every restart and keeps the slot |
| `AuthorityLock.LockTables.Perform` | src/defiant_agent_harness/persistence.py:339-418 | each step of a thread, or a crash, changes the lock tables as the state machine does |
| `AuthorityLock.StepKeepsSound` | src/defiant_agent_harness/persistence.py:339-418 | every step keeps one holder of each process lock, depths within counts, and the file lock with the process that has a thread between locking and unlocking |
| `AuthorityLock.MutualExclusion` | src/defiant_agent_harness/persistence.py:339-418 | over every interleaving at most one thread system-wide is inside, no depth exceeds its count, and the file lock is held by a process iff one of its threads is between taking it and giving it up |
| `AuthorityLock.CrashFrees` | src/defiant_agent_harness/persistence.py:339-340 | a crash frees the file lock for a waiting thread of another process and forgets the dead process's threads |
| `AuthorityLock.LeaksAreRootFailures` | src/defiant_agent_harness/persistence.py:366-366 | a thread's count exceeds what it will release by exactly the number of its storage-root failures |
| `AuthorityLock.LeakLocksOutTheProcess` | src/defiant_agent_harness/persistence.py:347-366 | after one such failure no other thread of the process is inside until it crashes |
| `AuthorityLock.LeakIsReachable` | src/defiant_agent_harness/persistence.py:347-366 | two steps lead there |
| `CrossStoreAudit.FindOpen` | src/defiant_agent_harness/state_integrity.py:2916-2935 | the search from the latest authorization back finds one without terminal outcome iff there is one |
| `CrossStoreAudit.Report.AuditSettlements` | src/defiant_agent_harness/state_integrity.py:2727-2798 | adds exactly the issues of duplicate, unproven and mismatched settlements |
| `CrossStoreAudit.Report.AuditReservation` | src/defiant_agent_harness/state_integrity.py:2358-2391 | adds exactly the mismatches of the action's active approvals, or one orphan issue where nothing explains the reservation |
| `CrossStoreAudit.Report.AuditAuthorizations` | src/defiant_agent_harness/state_integrity.py:2392-2421 | adds the issues of open authorizations and counts those to be reconciled |
| `CrossStoreAudit.Report.AuditApproval` | src/defiant_agent_harness/state_integrity.py:2423-2483 | adds exactly the issues of one approval, none after the journal excuses it |
| `CrossStoreAudit.Report.AuditAuthorizationMarker` | src/defiant_agent_harness/state_integrity.py:2557-2725 | adds the first check of an authorization's reconciliation that fails, or nothing |
| `CrossStoreAudit.Report.AuditMarker` | src/defiant_agent_harness/state_integrity.py:2503-2555 | adds exactly the issues of one reconciliation marker |
| `CrossStoreAudit.Report.AuditCrossStore` | src/defiant_agent_harness/state_integrity.py:2323-2555 | the report afterwards holds what it held and exactly the findings about these stores, and counts the authorizations to reconcile |
| `SilentAudit.SilentIffConsistent` | src/defiant_agent_harness/state_integrity.py:2323-2555 | the audit finds nothing critical iff quantified conditions on the stores hold: settlements proven once, reservations explained, authorizations closed, approvals settled, markers sound |
| `SilentAudit.OpenTestsDifferExactly` | src/defiant_agent_harness/state_integrity.py:2801-2812 | the test on one action's records finds all that the global one finds, and differs iff some authorization of the action and request has no outcome within the action and every such one has an outcome under another action |
| `SilentAudit.OpenTestsAgree` | src/defiant_agent_harness/state_integrity.py:2916-2935 | so they agree where an authorization hash determines its action |
| `SilentAudit.OpenTestsCanDiffer` | src/defiant_agent_harness/state_integrity.py:2916-2935 | two records on which the tests differ otherwise |
| `SilentAudit.SilentBudget` | src/defiant_agent_harness/state_integrity.py:2358-2452 | on silence every reservation matches its active approvals in request and amount or is covered by an open authorization or the journal, no reconciled action holds one, and every funded pending or approved action does |
| `SilentAudit.SilentEvidence` | src/defiant_agent_harness/state_integrity.py:2959-2995 | on silence every consumed approval names terminal evidence with its own binding, unless the journal excuses it |
| `SilentAudit.SilentReconciliation` | src/defiant_agent_harness/state_integrity.py:2557-2725 | on silence every reconciliation without an approval is of a sealed allowed authorization with the same binding and exposure, and terminal evidence agrees with it or the journal is closing the still open authorization |
| `SilentAudit.ExcusedNeedsNoEvidence` | src/defiant_agent_harness/state_integrity.py:2454-2458 | for any valid consumed approval there are stores without any evidence over which the audit is silent, because the journal is about to terminate it |
| `SilentAudit.SettledAtMostOnce` | src/defiant_agent_harness/state_integrity.py:2727-2798 | on silence no completion is settled twice, and each settlement is a debit that agrees with the tool result it names or is what the journal prepared |
| `ActivePublication.Auditor.FindBroken` | src/defiant_agent_harness/state_integrity.py:745-810 | the searches find an invalid entry, one under a third profile, or a required one that is not recorded, iff there is one |
| `ActivePublication.Auditor.FindOffCommitment` | src/defiant_agent_harness/state_integrity.py:898-940 | names a store under the profile that differs from its commitment iff there is one |
| `ActivePublication.Auditor.Downgrade` | src/defiant_agent_harness/state_integrity.py:986-1013 | exactly the stores that still name the checkpoint's profile turn from mismatch to recovery, and their issues go |
| `ActivePublication.Auditor.VerifyTarget` | src/defiant_agent_harness/state_integrity.py:745-896 | the whole report after the target profile is active |
| `ActivePublication.Auditor.Verify` | src/defiant_agent_harness/state_integrity.py:651-743 | the whole report in every case, the profile missing or not yet activated included |
| `PublicationReplay.TestsAreReplayable` | src/defiant_agent_harness/state_integrity.py:745-940 | the three tests together pass exactly the stores that hold their checkpoint value under the checkpoint profile or their target value under the target profile, optional stores that are absent, and a missing evidence witness policy |
| `PublicationReplay.ClassificationIsSound` | src/defiant_agent_harness/state_integrity.py:745-896 | critical iff some store fails those tests or the head has arrived and the manifest is not rebuilt; applying iff all pass and the head is still at the checkpoint; ready iff all can be replayed, the head is at the target and the manifest is rebuilt |
| `PublicationReplay.MissingRequiredStore` | src/defiant_agent_harness/state_integrity.py:768-798 | with the others replayable, a missing required store is critical iff it is not the evidence witness policy or the head is at the target |
| `PublicationReplay.MissingWitnessGoesUnnoticed` | src/defiant_agent_harness/state_integrity.py:1801-1805 | six stores at the checkpoint and no evidence witness policy are reported as a publication being applied |
| `PublicationReplay.PreparedIffIntact` | src/defiant_agent_harness/state_integrity.py:689-737 | while the checkpoint's profile is active the publication is prepared iff the rotation to it is staged and every store still holds what the checkpoint was made from, and critical otherwise |
| `PublicationReplay.DowngradeIsExact` | src/defiant_agent_harness/state_integrity.py:986-1013 | an issue survives the downgrade iff it is not the mismatch of a downgraded store |
| `PublicationReplay.RebuildIsExact` | src/defiant_agent_harness/authority_publication.py:1094-1203 | the files rebuild a manifest iff all eight can be read and hold what it was made from under its profile, a recorded but unconfigured publication witness policy counting for nothing |
| `PublicationReplay.ReadyMeansArrived` | src/defiant_agent_harness/state_integrity.py:745-896 | ready to complete iff no entry is invalid and every store holds its target value under the target profile or is absent as planned |

## Left out

- `CrossStoreAudit.Report.AuditCrossStore`: says which issues the report holds, not how often or in what order, because the loops over reservations and markers follow dictionary order.
- `JournalOverrun.WriterOutrunsReader`: which amounts `money` accepts and which evidence is a valid unsealed rejection are predicates, because the evidence record's own contract is not part of this model.
- `JournalRecovery.RecoveryIffShallow`: covers string-keyed payloads without split surrogate pairs, because for the others the round trip fails; the fixed schema and field names of the file, and the field rules of each operation kind, are taken as met.
- `EnumKeys.SnapshotTextIsCanonical`: says nothing of decimal keys, of enum keys whose value is not of the type the enum is mixed with, or of enum members that hold containers or further members, because `canonical_json` refuses or prints those differently from the walk.
- `JournalPayload.PayloadHashSurvives`: covers string-keyed payloads without split surrogate pairs, because for the others the round trip fails as the lemmas above show.
- `OperationJournal.OperationJournal.Prepare`: takes which operations pass the kind and payload rules as a predicate, because those rules test fields that no modelled operation compares; for a rejection they are in `JournalOverrun.ValidRejection`.
- `PublicationReplay.ReadyMeansArrived`: takes what each of the eight files gives as data, and the same for all reads of one audit; the filesystem observations behind the entries, and the byte ceiling of the manifest, are not modelled.
- Ed25519, PEM files and base64: a signature is a predicate on attestations.
- SHA-256: a function, injective where a lemma says so.
- File descriptors, permissions, ACLs, identity checks and directory sync: an atomic write is one step. Lock files left by a crash are cleared by an operator and are not modelled.
- The fork hooks around the authority lock.
- Byte ceilings of the approval, evidence-head and publication files, which would only add a refusal before each write.
- The budget ledger, the evidence store's own append, the policy engine, the orchestrator, and the MCP and hook adapters: their data are inputs.
- Record fields that no modelled operation compares: evidence content, action, request and decision snapshots are opaque values beside the fields that are compared.
- Building a new approval (`create`, `prepare`: identifiers, previews, time to live) and the read-only queries of the store.
- Money in the audit is an integer: amounts there are only compared for equality.
- Timestamp text: times are integers, and a call reads the clock once where the program may read it twice.
- The signed form of the bounded decimal text and the display text of other number kinds.
- Floats: opaque tokens whose parse inverts their `repr`.
- Cyclic containers, subclass hooks and mutation during a snapshot: the model's values are immutable.
- YAML loading, the HTTP server, the command line, demos and the latency script.
