/**
 The approval lifecycle over every interleaving of the store's public operations: what each operation keeps, what a
 record may become, and that an execution begins at most once and only on an accepted approval.
 */
module ApprovalRuns {
  import opened Approvals
  import opened Wrappers

  datatype Op =
    | Create(pending: Approval)
    | ExpireEvery(now: Time)
    | ExpireId(id: string, now: Time)
    | Deciding(id: string, approved: bool, decidedBy: string, note: string, att: Option<Attestation>, now: Time)
    | EnsuringRejected(id: string, decidedBy: string, note: string, att: Option<Attestation>, now: Time)
    | Beginning(id: string, actionId: string, authorizationHash: Hash, now: Time)
    | Consuming(id: string, record: string, now: Time)
    | EnsuringConsumed(id: string, record: string, now: Time)
    | Reconciling(id: string, outcome: Outcome, reconciledBy: string, note: string, att: Option<Attestation>, now: Time)
    | MarkingReconciled(id: string, record: string, now: Time)

  /** What the methods of the store do, by their contracts. */
  function Apply(s: Store, policy: Option<Policy>, op: Op): Effect {
    match op
    case Create(pending) => CreatePrepared(s, pending)
    case ExpireEvery(now) => Effect(ExpiredAll(s, now), None)
    case ExpireId(id, now) => ExpireOne(s, id, now)
    case Deciding(id, approved, who, note, att, now) => Decide(s, policy, id, approved, who, note, att, now)
    case EnsuringRejected(id, who, note, att, now) => EnsureRejected(s, policy, id, who, note, att, now)
    case Beginning(id, actionId, hash, now) => BeginExecution(s, policy, id, actionId, hash, now)
    case Consuming(id, record, now) => MarkConsumed(s, id, record, now)
    case EnsuringConsumed(id, record, now) => EnsureConsumed(s, id, record, now)
    case Reconciling(id, outcome, who, note, att, now) => BeginReconciliation(s, policy, id, outcome, who, note, att, now)
    case MarkingReconciled(id, record, now) => MarkReconciled(s, id, record, now)
  }

  // ---------------------------------------------------------------------------
  // One operation
  // ---------------------------------------------------------------------------

  /** How far along its lifecycle a record is. */
  function Stage(a: Approval): nat {
    match a.status
    case Pending => 0
    case Approved => 1
    case Executing => 2
    case _ => 3
  }

  predicate SameIntent(a: Approval, b: Approval) {
    a.outcome == b.outcome && a.reconciledBy == b.reconciledBy && a.reconciliationNote == b.reconciliationNote
    && a.startedAt == b.startedAt && a.reconciliationAttestation == b.reconciliationAttestation
  }

  predicate SameDecision(a: Approval, b: Approval) {
    a.decidedBy == b.decidedBy && a.decidedAt == b.decidedAt && a.note == b.note && a.decisionAttestation == b.decisionAttestation
  }

  /**
   What one operation may make of a record: its id and bindings stay; it moves forward or not at all; once decided the
   decision stays, and once an intent to reconcile is recorded it stays; a terminal record stays as it is.
   */
  predicate Moves(a: Approval, b: Approval) {
    && a.id == b.id && a.binding == b.binding
    && (a == b || Stage(a) < Stage(b) || (a.status.Executing? && b.status.Executing? && a.outcome.Unset?))
    && (!a.status.Pending? ==> SameDecision(a, b))
    && (!a.outcome.Unset? ==> SameIntent(a, b))
    && (Terminal(a) ==> a == b)
    && (b.status.Executing? ==> a.status.Approved? || a.status.Executing?)
    && (b.status.Approved? ==> a.status.Pending? || a == b)
    && (b.status.Consumed? ==> a.status.Executing? || a == b)
  }

  /** Records are never dropped and move as they may. */
  predicate Progress(s: Store, t: Store) {
    forall id :: id in s ==> id in t && Moves(s[id], t[id])
  }

  /** At most one approval of an action is active. */
  predicate OneActive(s: Store) {
    forall x, y :: x in s && y in s && Active(s[x]) && Active(s[y]) && s[x].binding.actionId == s[y].binding.actionId ==> x == y
  }

  lemma PutKeeps(s: Store, a: Approval)
    requires StoreOk(s) && OneActive(s) && a.id in s && Moves(s[a.id], a) && (Active(a) ==> Active(s[a.id]))
    ensures var t := Put(s, a).store;
            StoreOk(t) && OneActive(t) && Progress(s, t)
  {
    hide RecordOk;
    StaysPut(s);
  }

  lemma StaysPut(s: Store)
    ensures Progress(s, s)
  {
  }

  lemma CreateKeeps(s: Store, pending: Approval)
    requires StoreOk(s) && OneActive(s)
    ensures var t := CreatePrepared(s, pending).store;
            StoreOk(t) && OneActive(t) && Progress(s, t)
  {
    hide RecordOk;
    StaysPut(s);
  }

  lemma ExpireKeeps(s: Store, now: Time)
    requires StoreOk(s) && OneActive(s)
    ensures var t := ExpiredAll(s, now);
            StoreOk(t) && OneActive(t) && Progress(s, t)
  {
    hide RecordOk, Moves, Expire;
    var t := ExpiredAll(s, now);
    forall id | id in s
      ensures RecordOk(t[id]) && t[id].id == id && Moves(s[id], t[id]) && (Active(t[id]) ==> Active(s[id]))
      ensures t[id].binding == s[id].binding
    {
      ExpiryKeeps(s[id], now);
    }
  }

  lemma ExpiryKeeps(a: Approval, now: Time)
    requires RecordOk(a)
    ensures Moves(a, a)
    ensures Due(a, now) ==>
              && RecordOk(Expire(a, now)) && Moves(a, Expire(a, now)) && !Active(Expire(a, now))
              && Expire(a, now).id == a.id && Expire(a, now).binding == a.binding
  {
    hide BindingOk;
  }

  /** Every operation keeps every record valid and at most one approval of an action active, and only moves records forward. */
  lemma OperationKeeps(s: Store, policy: Option<Policy>, op: Op)
    requires StoreOk(s) && OneActive(s)
    ensures var t := Apply(s, policy, op).store;
            StoreOk(t) && OneActive(t) && Progress(s, t)
  {
    hide RecordOk, Put, Vouched, DecisionIdentity, ReconciliationIdentity, StoreOk, OneActive, Progress;
    StaysPut(s);
    match op
    case Create(pending) => CreateKeeps(s, pending);
    case ExpireEvery(now) => ExpireKeeps(s, now);
    case ExpireId(id, now) =>
      if id in s && Due(s[id], now) {
        KeyIs(s, id);
        PutKeeps(s, Expire(s[id], now));
      }
    case Deciding(id, approved, who, note, att, now) => DecideKeeps(s, policy, id, approved, who, note, att, now);
    case EnsuringRejected(id, who, note, att, now) => DecideKeeps(s, policy, id, false, who, note, att, now);
    case Beginning(id, actionId, hash, now) =>
      if id in s && s[id].status.Approved? {
        KeyIs(s, id);
        PutKeeps(s, Expire(s[id], now));
        PutKeeps(s, s[id].(status := Executing));
      }
    case Consuming(id, record, now) => ConsumeKeeps(s, id, record, now);
    case EnsuringConsumed(id, record, now) => ConsumeKeeps(s, id, record, now);
    case Reconciling(id, outcome, who, note, att, now) =>
      if id in s && s[id].status.Executing? && s[id].outcome.Unset? {
        KeyIs(s, id);
        PutKeeps(s, WithIntent(s[id], outcome, who, note, att, now));
      }
    case MarkingReconciled(id, record, now) => ConsumeKeeps(s, id, record, now);
  }

  lemma KeyIs(s: Store, id: string)
    requires StoreOk(s) && id in s
    ensures s[id].id == id && RecordOk(s[id])
    ensures !s[id].outcome.Unset? ==> s[id].status.Executing? || s[id].status.Consumed?
  {
  }

  lemma DecideKeeps(s: Store, policy: Option<Policy>, id: string, approved: bool, who: string, note: string,
                    att: Option<Attestation>, now: Time)
    requires StoreOk(s) && OneActive(s)
    ensures var t := Decide(s, policy, id, approved, who, note, att, now).store;
            StoreOk(t) && OneActive(t) && Progress(s, t)
  {
    hide RecordOk, Put, Vouched, StoreOk, OneActive, Progress;
    StaysPut(s);
    if id in s && s[id].status.Pending? {
      KeyIs(s, id);
      PutKeeps(s, Decided(s[id], approved, who, note, att, now));
    }
  }

  lemma ConsumeKeeps(s: Store, id: string, record: string, now: Time)
    requires StoreOk(s) && OneActive(s)
    ensures var t := MarkConsumed(s, id, record, now).store;
            StoreOk(t) && OneActive(t) && Progress(s, t)
    ensures var t := EnsureConsumed(s, id, record, now).store;
            StoreOk(t) && OneActive(t) && Progress(s, t)
    ensures var t := MarkReconciled(s, id, record, now).store;
            StoreOk(t) && OneActive(t) && Progress(s, t)
  {
    hide RecordOk, Put, StoreOk, OneActive, Progress;
    StaysPut(s);
    if id in s && s[id].status.Executing? {
      KeyIs(s, id);
      PutKeeps(s, Consume(s[id], record, now));
      PutKeeps(s, Consume(s[id], record, now).(completedAt := Some(now)));
    }
  }

  // ---------------------------------------------------------------------------
  // Runs
  // ---------------------------------------------------------------------------

  /** The store after so many operations. */
  function StoreAt(s: Store, policy: Option<Policy>, ops: seq<Op>, i: nat): Store
    requires i <= |ops|
  {
    if i == 0 then s else Apply(StoreAt(s, policy, ops, i - 1), policy, ops[i - 1]).store
  }

  /** What the operation at a place of the run returned. */
  function ResultAt(s: Store, policy: Option<Policy>, ops: seq<Op>, i: nat): Option<Approval>
    requires i < |ops|
  {
    Apply(StoreAt(s, policy, ops, i), policy, ops[i]).result
  }

  /** Every stored record is valid and every action has at most one active approval, at every moment of every run. */
  lemma {:induction false} RunsStayValid(s: Store, policy: Option<Policy>, ops: seq<Op>, i: nat)
    requires StoreOk(s) && OneActive(s) && i <= |ops|
    ensures StoreOk(StoreAt(s, policy, ops, i)) && OneActive(StoreAt(s, policy, ops, i))
  {
    hide StoreOk, OneActive, Apply;
    if i > 0 {
      RunsStayValid(s, policy, ops, i - 1);
      OperationKeeps(StoreAt(s, policy, ops, i - 1), policy, ops[i - 1]);
    }
  }

  /** What holds between two moments of a run. */
  predicate Later(a: Approval, b: Approval) {
    && a.id == b.id && a.binding == b.binding && Stage(a) <= Stage(b)
    && (!a.status.Pending? ==> SameDecision(a, b))
    && (!a.outcome.Unset? ==> SameIntent(a, b))
    && (Terminal(a) ==> a == b)
  }

  /**
   Between any two moments of a run: no record is dropped, its id and bindings never change, it never moves back, its
   decision and its reconciliation intent are fixed once made, and once terminal it is fixed altogether, the evidence
   of a consumed approval included.
   */
  lemma {:induction false} RecordsOnlyMoveForward(s: Store, policy: Option<Policy>, ops: seq<Op>, i: nat, j: nat, id: string)
    requires StoreOk(s) && OneActive(s) && i <= j <= |ops| && id in StoreAt(s, policy, ops, i)
    ensures id in StoreAt(s, policy, ops, j)
    ensures Later(StoreAt(s, policy, ops, i)[id], StoreAt(s, policy, ops, j)[id])
    decreases j - i
  {
    hide StoreOk, OneActive, Apply;
    if i < j {
      RecordsOnlyMoveForward(s, policy, ops, i, j - 1, id);
      RunsStayValid(s, policy, ops, j - 1);
      OperationKeeps(StoreAt(s, policy, ops, j - 1), policy, ops[j - 1]);
    }
  }

  /** The operation at a place began the execution of an approval. */
  predicate Began(s: Store, policy: Option<Policy>, ops: seq<Op>, i: nat, id: string)
    requires i < |ops|
  {
    ops[i].Beginning? && ops[i].id == id && ResultAt(s, policy, ops, i).Some?
  }

  /** What a successful `begin_execution` had to find, and what it does. */
  lemma BeginNeeds(s: Store, policy: Option<Policy>, ops: seq<Op>, i: nat, id: string)
    requires i < |ops| && Began(s, policy, ops, i, id)
    ensures id in StoreAt(s, policy, ops, i)
    ensures var a := StoreAt(s, policy, ops, i)[id];
            && a.status.Approved? && !IsExpired(a, ops[i].now)
            && a.binding.actionId == ops[i].actionId && a.binding.authorizationHash == ops[i].authorizationHash
            && DecisionIdentity(policy, a, ops[i].now)
    ensures StoreOk(StoreAt(s, policy, ops, i)) ==>
              id in StoreAt(s, policy, ops, i + 1) && StoreAt(s, policy, ops, i + 1)[id].status.Executing?
  {
    hide RecordOk, DecisionIdentity;
  }

  /** An approval's execution begins at most once in any run. */
  lemma ExecutionBeginsOnce(s: Store, policy: Option<Policy>, ops: seq<Op>, i: nat, j: nat, id: string)
    requires StoreOk(s) && OneActive(s) && i < |ops| && j < |ops|
    ensures Began(s, policy, ops, i, id) && Began(s, policy, ops, j, id) ==> i == j
  {
    hide StoreOk, OneActive, Began, DecisionIdentity, Apply, IsExpired;
    if Began(s, policy, ops, i, id) && Began(s, policy, ops, j, id) {
      var (first, second) := if i < j then (i, j) else (j, i);
      BeginNeeds(s, policy, ops, first, id);
      BeginNeeds(s, policy, ops, second, id);
      RunsStayValid(s, policy, ops, first);
      if first < second {
        RecordsOnlyMoveForward(s, policy, ops, first + 1, second, id);
      }
    }
  }

  /** The operation at a place was an accepted decision to approve. */
  predicate ApprovedHere(s: Store, policy: Option<Policy>, ops: seq<Op>, i: nat, id: string)
    requires i < |ops|
  {
    && ops[i].Deciding? && ops[i].id == id && ops[i].approved && ResultAt(s, policy, ops, i).Some?
    && id in StoreAt(s, policy, ops, i) && StoreAt(s, policy, ops, i)[id].status.Pending?
    && !IsExpired(StoreAt(s, policy, ops, i)[id], ops[i].now)
  }

  /** The operation at a place stored a new record that was already marked as approved. */
  predicate BroughtApproved(s: Store, policy: Option<Policy>, ops: seq<Op>, i: nat, id: string)
    requires i < |ops|
  {
    && ops[i].Create? && ops[i].pending.id == id && ops[i].pending.status.Approved? && id !in StoreAt(s, policy, ops, i)
    && ResultAt(s, policy, ops, i).Some?
  }

  /** Only an approving decision makes a stored record approved. */
  lemma ApprovalNeedsDecision(s: Store, policy: Option<Policy>, op: Op, id: string)
    requires StoreOk(s) && id in s && !s[id].status.Approved?
    requires id in Apply(s, policy, op).store && Apply(s, policy, op).store[id].status.Approved?
    ensures op.Deciding? && op.id == id && op.approved && Apply(s, policy, op).result.Some?
    ensures s[id].status.Pending? && !IsExpired(s[id], op.now)
  {
    hide RecordOk, Vouched, DecisionIdentity, ReconciliationIdentity;
  }

  /** An approval that a run finds approved was approved by a decision of the run, or came into the store as approved. */
  lemma {:induction false} ApprovedBecause(s: Store, policy: Option<Policy>, ops: seq<Op>, j: nat, id: string)
    requires StoreOk(s) && OneActive(s) && j <= |ops|
    requires id in StoreAt(s, policy, ops, j) && StoreAt(s, policy, ops, j)[id].status.Approved?
    ensures || (id in s && s[id].status.Approved?)
            || (exists i :: 0 <= i < j && (ApprovedHere(s, policy, ops, i, id) || BroughtApproved(s, policy, ops, i, id)))
  {
    hide StoreOk, OneActive, ApprovedHere, BroughtApproved, Apply;
    if j > 0 {
      var before := StoreAt(s, policy, ops, j - 1);
      RunsStayValid(s, policy, ops, j - 1);
      if id in before && before[id].status.Approved? {
        ApprovedBecause(s, policy, ops, j - 1, id);
      } else {
        Introduces(s, policy, ops, j - 1, id);
      }
    }
  }

  lemma Introduces(s: Store, policy: Option<Policy>, ops: seq<Op>, i: nat, id: string)
    requires i < |ops| && StoreOk(StoreAt(s, policy, ops, i))
    requires id in StoreAt(s, policy, ops, i + 1) && StoreAt(s, policy, ops, i + 1)[id].status.Approved?
    requires id in StoreAt(s, policy, ops, i) ==> !StoreAt(s, policy, ops, i)[id].status.Approved?
    ensures ApprovedHere(s, policy, ops, i, id) || BroughtApproved(s, policy, ops, i, id)
  {
    var before := StoreAt(s, policy, ops, i);
    if id in before {
      hide Apply, StoreOk;
      ApprovalNeedsDecision(before, policy, ops[i], id);
    } else {
      NewByCreation(before, policy, ops[i], id);
    }
  }

  /** Only `create_prepared` adds a record. */
  lemma NewByCreation(s: Store, policy: Option<Policy>, op: Op, id: string)
    requires StoreOk(s) && id !in s
    ensures id in Apply(s, policy, op).store ==>
              op.Create? && op.pending.id == id && Apply(s, policy, op).store[id] == op.pending && Apply(s, policy, op).result.Some?
  {
    hide RecordOk, Vouched, DecisionIdentity, ReconciliationIdentity;
  }

  /** A record that came into the store as approved is never the subject of an accepted decision to approve. */
  lemma BroughtIsNotDecided(s: Store, policy: Option<Policy>, ops: seq<Op>, k: nat, i: nat, id: string)
    requires StoreOk(s) && OneActive(s) && k < |ops| && i < |ops|
    ensures BroughtApproved(s, policy, ops, k, id) ==> !ApprovedHere(s, policy, ops, i, id)
  {
    hide StoreOk, OneActive, Apply, StoreAt, ResultAt, IsExpired;
    if BroughtApproved(s, policy, ops, k, id) && ApprovedHere(s, policy, ops, i, id) {
      if i <= k {
        RecordsOnlyMoveForward(s, policy, ops, i, k, id);
      } else {
        BroughtIsStored(s, policy, ops, k, id);
        RecordsOnlyMoveForward(s, policy, ops, k + 1, i, id);
      }
    }
  }

  lemma BroughtIsStored(s: Store, policy: Option<Policy>, ops: seq<Op>, k: nat, id: string)
    requires k < |ops| && BroughtApproved(s, policy, ops, k, id)
    ensures id in StoreAt(s, policy, ops, k + 1) && StoreAt(s, policy, ops, k + 1)[id].status.Approved?
  {
  }

  /**
   A run from the empty store begins an execution only for the authorization hash that was stored, and before it expires.
   An accepted decision to approve it came first exactly when the record was not created as already approved.
   */
  lemma ExecutionWasApproved(policy: Option<Policy>, ops: seq<Op>, j: nat, id: string)
    requires j < |ops| && Began(map[], policy, ops, j, id)
    ensures id in StoreAt(map[], policy, ops, j)
    ensures var a := StoreAt(map[], policy, ops, j)[id];
            a.binding.authorizationHash == ops[j].authorizationHash && !IsExpired(a, ops[j].now)
    ensures (exists i :: 0 <= i < j && ApprovedHere(map[], policy, ops, i, id)) <==>
            !exists k :: 0 <= k < j && BroughtApproved(map[], policy, ops, k, id)
  {
    hide Began, ApprovedHere, BroughtApproved, DecisionIdentity;
    BeginNeeds(map[], policy, ops, j, id);
    ApprovedBecause(map[], policy, ops, j, id);
    forall i, k | 0 <= i < j && 0 <= k < j
      ensures BroughtApproved(map[], policy, ops, k, id) ==> !ApprovedHere(map[], policy, ops, i, id)
    {
      BroughtIsNotDecided(map[], policy, ops, k, i, id);
    }
  }

  /** The exception is real: without trusted keys, one stored record marked approved and one call begin an execution. */
  lemma ApprovedRecordNeedsNoDecision(pending: Approval, now: Time)
    requires RecordOk(pending) && pending.status.Approved? && !IsExpired(pending, now)
    ensures var ops := [Create(pending), Beginning(pending.id, pending.binding.actionId, pending.binding.authorizationHash, now)];
            Began(map[], None, ops, 1, pending.id) && !exists i :: 0 <= i < 2 && ops[i].Deciding?
  {
    var ops := [Create(pending), Beginning(pending.id, pending.binding.actionId, pending.binding.authorizationHash, now)];
    assert StoreAt(map[], None, ops, 0) == map[];
    assert StoreAt(map[], None, ops, 1) == map[pending.id := pending];
    assert RecordOk(pending.(status := Executing));
  }

  /** With trusted keys, an execution that begins carries a trusted, unexpired signature for exactly this authorization. */
  lemma ExecutionWasSigned(s: Store, policy: Policy, ops: seq<Op>, j: nat, id: string)
    requires StoreOk(s) && OneActive(s) && j < |ops| && Began(s, Some(policy), ops, j, id)
    ensures id in StoreAt(s, Some(policy), ops, j)
    ensures var a := StoreAt(s, Some(policy), ops, j)[id];
            && a.decisionAttestation.Some?
            && var att := a.decisionAttestation.value;
               && policy(att) && att.approvalId == id && att.outcome == SignedApproved
               && att.authorizationHash == ops[j].authorizationHash && att.actionId == ops[j].actionId
               && (a.binding.expiresAt.Some? ==> att.signedAt < a.binding.expiresAt.value)
  {
    hide Began;
    BeginNeeds(s, Some(policy), ops, j, id);
    RunsStayValid(s, Some(policy), ops, j);
    KeyIs(StoreAt(s, Some(policy), ops, j), id);
  }

  // ---------------------------------------------------------------------------
  // What one operation opens for the next
  // ---------------------------------------------------------------------------

  /** An accepted approval can be executed, for exactly its own action and authorization, until it expires. */
  lemma ApprovedCanBegin(s: Store, policy: Option<Policy>, id: string, who: string, note: string, att: Option<Attestation>,
                         now: Time, later: Time, actionId: string, authorizationHash: Hash)
    requires StoreOk(s) && now <= later && Decide(s, policy, id, true, who, note, att, now).result.Some?
    ensures var t := Decide(s, policy, id, true, who, note, att, now).store;
            && t[id].decidedBy == Strip(who) && t[id].note == Strip(note) && t[id].decisionAttestation == att
            && (BeginExecution(t, policy, id, actionId, authorizationHash, later).result.Some? <==>
                !IsExpired(s[id], later) && actionId == s[id].binding.actionId && authorizationHash == s[id].binding.authorizationHash)
  {
    hide Strip, BindingOk;
    KeyIs(s, id);
  }

  /** A rejected approval can never be executed, nor decided again. */
  lemma RejectedIsFinal(s: Store, policy: Option<Policy>, id: string, who: string, note: string, att: Option<Attestation>,
                        now: Time, ops: seq<Op>, i: nat)
    requires StoreOk(s) && OneActive(s) && Decide(s, policy, id, false, who, note, att, now).result.Some? && i < |ops|
    ensures var t := Decide(s, policy, id, false, who, note, att, now).store;
            && !Began(t, policy, ops, i, id) && !ApprovedHere(t, policy, ops, i, id)
  {
    hide StoreOk, OneActive, Apply, Strip, Vouched, RecordOk;
    var t := Decide(s, policy, id, false, who, note, att, now).store;
    DecideKeeps(s, policy, id, false, who, note, att, now);
    KeyIs(s, id);
    RecordsOnlyMoveForward(t, policy, ops, 0, i, id);
    if Began(t, policy, ops, i, id) {
      hide Began;
      BeginNeeds(t, policy, ops, i, id);
    }
  }

  /** Once an intent to reconcile is recorded, the same one is recognised, any other is refused, and neither changes anything. */
  lemma IntentIsFixed(s: Store, policy: Option<Policy>, id: string, outcome: Outcome, who: string, note: string,
                      att: Option<Attestation>, now: Time, later: Time, outcome2: Outcome, who2: string, note2: string,
                      att2: Option<Attestation>)
    requires StoreOk(s) && now <= later && id in s && s[id].outcome.Unset?
    requires BeginReconciliation(s, policy, id, outcome, who, note, att, now).result.Some?
    ensures var t := BeginReconciliation(s, policy, id, outcome, who, note, att, now).store;
            var again := BeginReconciliation(t, policy, id, outcome2, who2, note2, att2, later);
            && (again.result.Some? <==> outcome2 == outcome && Strip(who2) == Strip(who) && Strip(note2) == Strip(note))
            && again.store == t
  {
    hide Strip, BindingOk, HasText;
    KeyIs(s, id);
  }

  /** An execution under reconciliation ends only by completing it, with any evidence, and keeps the intent. */
  lemma IntentMustBeCompleted(s: Store, policy: Option<Policy>, id: string, outcome: Outcome, who: string, note: string,
                              att: Option<Attestation>, now: Time, later: Time, record: string)
    requires StoreOk(s) && id in s && s[id].outcome.Unset?
    requires BeginReconciliation(s, policy, id, outcome, who, note, att, now).result.Some?
    ensures var t := BeginReconciliation(s, policy, id, outcome, who, note, att, now).store;
            && MarkConsumed(t, id, record, later).result.None?
            && (MarkReconciled(t, id, record, later).result.Some? <==> record != "")
            && (record != "" ==>
                  var a := MarkReconciled(t, id, record, later).store[id];
                  a.status.Consumed? && a.executionRecord == record && SameIntent(t[id], a) && a.outcome == outcome)
  {
    hide Strip, BindingOk, HasText, Vouched;
    KeyIs(s, id);
  }
}
