/**
 The approval store (`approvals/store.py`): immutable records under their ids, every change validated, and the
 lifecycle pending, approved, executing, consumed with its terminal side exits.
 */
module Approvals {
  import opened PythonText
  import opened Wrappers

  type Time = int
  type Hash = int

  const CLOCK_SKEW: Time := 300

  datatype Status = Pending | Approved | Rejected | Expired | Executing | Consumed

  /** A reconciliation outcome; `Unset` is the empty text and `Unknown` any text outside the three that are allowed. */
  datatype Outcome = Unset | Succeeded | Failed | NotExecuted | Unknown

  datatype ActionSnapshot = ActionSnapshot(
    actionId: string, requestId: string, toolName: string, target: string, payloadHash: Hash, authorizationHash: Hash, rest: int)

  datatype RequestSnapshot = RequestSnapshot(requestId: string, rest: int)

  datatype DecisionSnapshot = DecisionSnapshot(reason: string, scope: string, policyIds: seq<string>, rest: int)

  /** The fields that no operation of the store ever updates. */
  datatype Binding = Binding(
    actionId: string, requestId: string, toolName: string, target: string, payloadHash: Hash, authorizationHash: Hash,
    preview: string, scope: string, reason: string, policyIds: seq<string>, createdAt: Time, expiresAt: Option<Time>,
    reserved: int, action: Option<ActionSnapshot>, request: Option<RequestSnapshot>, decision: Option<DecisionSnapshot>,
    executionOwner: string, executionKey: string)

  datatype Purpose = DecisionPurpose | ReconciliationPurpose

  /** The words an attestation signs for: a decision either way, or a reconciliation outcome. */
  datatype Signed = SignedApproved | SignedRejected | SignedOutcome(outcome: Outcome)

  datatype Attestation = Attestation(
    approvalId: string, actionId: string, requestId: string, authorizationHash: Hash, purpose: Purpose, outcome: Signed,
    operator: string, note: string, signedAt: Time, keyId: Hash, signature: Hash)

  datatype Approval = Approval(
    id: string, binding: Binding, status: Status,
    decidedBy: string, decidedAt: Option<Time>, note: string, decisionAttestation: Option<Attestation>,
    executionRecord: string, consumedAt: Option<Time>,
    outcome: Outcome, reconciledBy: string, reconciliationNote: string, startedAt: Option<Time>,
    reconciliationAttestation: Option<Attestation>, completedAt: Option<Time>)

  // ---------------------------------------------------------------------------
  // The validator
  // ---------------------------------------------------------------------------

  predicate HasText(s: string) {
    exists i :: 0 <= i < |s| && !IsSpace(s[i])
  }

  predicate BindingOk(b: Binding) {
    && b.actionId != "" && b.requestId != "" && b.toolName != ""
    && (forall i :: 0 <= i < |b.policyIds| ==> b.policyIds[i] != "")
    && (b.executionOwner != "" <==> b.executionKey != "")
    && (b.action.Some? ==>
          var a := b.action.value;
          && a.actionId == b.actionId && a.requestId == b.requestId && a.toolName == b.toolName && a.target == b.target
          && a.payloadHash == b.payloadHash && a.authorizationHash == b.authorizationHash)
    && (b.request.Some? ==> b.request.value.requestId == b.requestId)
    && (b.decision.Some? ==>
          var d := b.decision.value;
          d.reason == b.reason && d.scope == b.scope && d.policyIds == b.policyIds)
  }

  predicate AnyIntent(a: Approval) {
    !a.outcome.Unset? || a.reconciledBy != "" || a.reconciliationNote != "" || a.startedAt.Some?
  }

  predicate FullIntent(a: Approval) {
    !a.outcome.Unset? && a.reconciledBy != "" && a.reconciliationNote != "" && a.startedAt.Some?
  }

  /** `PendingApproval._from_snapshot` accepts the record. */
  predicate RecordOk(a: Approval) {
    && a.id != "" && BindingOk(a.binding)
    && (a.status in {Approved, Executing, Consumed, Rejected} ==> a.decidedBy != "" && a.decidedAt.Some?)
    && (a.status in {Consumed, Rejected, Expired} ==> a.consumedAt.Some?)
    && (a.status.Consumed? ==> a.executionRecord != "")
    && (AnyIntent(a) ==>
          && a.outcome in {Succeeded, Failed, NotExecuted} && HasText(a.reconciledBy) && HasText(a.reconciliationNote)
          && a.startedAt.Some? && (a.status.Executing? || a.status.Consumed?))
    && (if a.completedAt.Some? then FullIntent(a) && a.status.Consumed? && a.executionRecord != ""
        else a.status.Consumed? ==> a.outcome.Unset?)
  }

  type Store = map<string, Approval>

  /** `_read_all` accepts the file. */
  predicate StoreOk(s: Store) {
    forall id :: id in s ==> s[id].id == id && RecordOk(s[id])
  }

  predicate IsExpired(a: Approval, now: Time) {
    a.binding.expiresAt.Some? && now >= a.binding.expiresAt.value
  }

  predicate Active(a: Approval) {
    a.status.Pending? || a.status.Approved? || a.status.Executing?
  }

  predicate Terminal(a: Approval) {
    a.status.Rejected? || a.status.Expired? || a.status.Consumed?
  }

  // ---------------------------------------------------------------------------
  // Operators
  // ---------------------------------------------------------------------------

  function LStrip(s: string): string {
    if s != "" && IsSpace(s[0]) then LStrip(s[1..]) else s
  }

  function RStrip(s: string): string {
    if s != "" && IsSpace(s[|s| - 1]) then RStrip(s[..|s| - 1]) else s
  }

  /** `str.strip`. */
  function Strip(s: string): string {
    RStrip(LStrip(s))
  }

  /** Which attestations carry a valid signature of a key trusted for their operator. */
  type Policy = Attestation -> bool

  /** `_validate_binding`. */
  predicate Bound(att: Attestation, a: Approval, now: Time) {
    && att.approvalId == a.id && att.actionId == a.binding.actionId && att.requestId == a.binding.requestId
    && att.authorizationHash == a.binding.authorizationHash
    && a.binding.createdAt <= att.signedAt <= now + CLOCK_SKEW
    && (att.purpose.DecisionPurpose? && a.binding.expiresAt.Some? ==> att.signedAt < a.binding.expiresAt.value)
    && (att.purpose.ReconciliationPurpose? && a.decidedAt.Some? ==> a.decidedAt.value <= att.signedAt)
  }

  /** `OperatorTrustPolicy.require`. */
  predicate Require(policy: Policy, att: Option<Attestation>, a: Approval, purpose: Purpose, outcome: Signed,
                    operator: string, note: string, now: Time) {
    && att.Some? && policy(att.value) && Bound(att.value, a, now)
    && att.value.purpose == purpose && att.value.outcome == outcome
    && att.value.operator == Strip(operator) && att.value.note == Strip(note)
  }

  /** `_require_decision_identity`. */
  predicate DecisionIdentity(policy: Option<Policy>, a: Approval, now: Time) {
    policy.None? ||
    Require(policy.value, a.decisionAttestation, a, DecisionPurpose,
            if a.status.Rejected? then SignedRejected else SignedApproved, a.decidedBy, a.note, now)
  }

  predicate ReconciliationIdentity(policy: Option<Policy>, a: Approval, now: Time) {
    policy.None? ||
    Require(policy.value, a.reconciliationAttestation, a, ReconciliationPurpose, SignedOutcome(a.outcome),
            a.reconciledBy, a.reconciliationNote, now)
  }

  /** An attestation is only stored under trusted keys, and then it must be one they vouch for. */
  predicate Vouched(policy: Option<Policy>, att: Option<Attestation>, a: Approval, purpose: Purpose, outcome: Signed,
                    operator: string, note: string, now: Time) {
    if policy.None? then att.None? else Require(policy.value, att, a, purpose, outcome, operator, note, now)
  }

  // ---------------------------------------------------------------------------
  // Operations
  // ---------------------------------------------------------------------------

  /** The store afterwards, and the record returned; `None` where an error is raised. */
  datatype Effect = Effect(store: Store, result: Option<Approval>)

  function Refuse(s: Store): Effect {
    Effect(s, None)
  }

  /** `with_updates` and `_write_all`: the changed record is validated before anything is written. */
  function Put(s: Store, a: Approval): Effect {
    if RecordOk(a) then Effect(s[a.id := a], Some(a)) else Refuse(s)
  }

  predicate ActionIsActive(s: Store, actionId: string) {
    exists id :: id in s && s[id].binding.actionId == actionId && Active(s[id])
  }

  function CreatePrepared(s: Store, pending: Approval): Effect {
    if !RecordOk(pending) then Refuse(s)
    else if pending.id in s then if s[pending.id] == pending then Effect(s, Some(pending)) else Refuse(s)
    else if ActionIsActive(s, pending.binding.actionId) then Refuse(s)
    else Effect(s[pending.id := pending], Some(pending))
  }

  function Expire(a: Approval, now: Time): Approval {
    a.(status := Status.Expired, consumedAt := Some(now))
  }

  predicate Due(a: Approval, now: Time) {
    (a.status.Pending? || a.status.Approved?) && IsExpired(a, now)
  }

  function ExpiredAll(s: Store, now: Time): Store {
    map id | id in s :: if Due(s[id], now) then Expire(s[id], now) else s[id]
  }

  lemma ExpiredAllIs(s: Store, t: Store, now: Time)
    requires t.Keys == s.Keys && forall id :: id in s ==> t[id] == if Due(s[id], now) then Expire(s[id], now) else s[id]
    ensures t == ExpiredAll(s, now)
  {
  }

  function ExpireOne(s: Store, id: string, now: Time): Effect {
    if id !in s then Refuse(s)
    else if s[id].status.Expired? then Effect(s, Some(s[id]))
    else if !Due(s[id], now) then Refuse(s)
    else Put(s, Expire(s[id], now))
  }

  function Decided(a: Approval, approved: bool, decidedBy: string, note: string, att: Option<Attestation>, now: Time): Approval {
    var at := if att.Some? then att.value.signedAt else now;
    a.(status := if approved then Approved else Rejected, decidedBy := Strip(decidedBy), decidedAt := Some(at),
       note := Strip(note), decisionAttestation := att, consumedAt := if approved then None else Some(at))
  }

  function Decide(s: Store, policy: Option<Policy>, id: string, approved: bool, decidedBy: string, note: string,
                  att: Option<Attestation>, now: Time): Effect {
    if id !in s || !s[id].status.Pending? || IsExpired(s[id], now) || Strip(decidedBy) == "" then Refuse(s)
    else if !Vouched(policy, att, s[id], DecisionPurpose, if approved then SignedApproved else SignedRejected,
                     Strip(decidedBy), Strip(note), now) then Refuse(s)
    else Put(s, Decided(s[id], approved, decidedBy, note, att, now))
  }

  function EnsureRejected(s: Store, policy: Option<Policy>, id: string, decidedBy: string, note: string,
                          att: Option<Attestation>, now: Time): Effect {
    if id !in s then Refuse(s)
    else if s[id].status.Pending? then Decide(s, policy, id, false, decidedBy, note, att, now)
    else if s[id].status.Rejected? && s[id].decidedBy == Strip(decidedBy) && s[id].note == Strip(note)
            && s[id].decisionAttestation == att && DecisionIdentity(policy, s[id], now)
    then Effect(s, Some(s[id]))
    else Refuse(s)
  }

  /** An approval found expired here is stored as expired, and the call still fails. */
  function BeginExecution(s: Store, policy: Option<Policy>, id: string, actionId: string, authorizationHash: Hash, now: Time): Effect {
    if id !in s || !s[id].status.Approved? then Refuse(s)
    else if IsExpired(s[id], now) then Effect(Put(s, Expire(s[id], now)).store, None)
    else if s[id].binding.actionId != actionId || s[id].binding.authorizationHash != authorizationHash then Refuse(s)
    else if !DecisionIdentity(policy, s[id], now) then Refuse(s)
    else Put(s, s[id].(status := Executing))
  }

  function Consume(a: Approval, record: string, now: Time): Approval {
    a.(status := Consumed, executionRecord := record, consumedAt := Some(now))
  }

  function MarkConsumed(s: Store, id: string, record: string, now: Time): Effect {
    if id !in s || !s[id].status.Executing? || !s[id].outcome.Unset? then Refuse(s)
    else Put(s, Consume(s[id], record, now))
  }

  function EnsureConsumed(s: Store, id: string, record: string, now: Time): Effect {
    if record == "" || id !in s then Refuse(s)
    else if s[id].status.Consumed? then if s[id].executionRecord == record then Effect(s, Some(s[id])) else Refuse(s)
    else MarkConsumed(s, id, record, now)
  }

  function WithIntent(a: Approval, outcome: Outcome, reconciledBy: string, note: string, att: Option<Attestation>, now: Time)
    : Approval
  {
    a.(outcome := outcome, reconciledBy := Strip(reconciledBy), reconciliationNote := Strip(note),
       startedAt := Some(if att.Some? then att.value.signedAt else now), reconciliationAttestation := att)
  }

  function BeginReconciliation(s: Store, policy: Option<Policy>, id: string, outcome: Outcome, reconciledBy: string,
                               note: string, att: Option<Attestation>, now: Time): Effect {
    if outcome !in {Succeeded, Failed, NotExecuted} || Strip(reconciledBy) == "" || Strip(note) == "" || id !in s then Refuse(s)
    else if !s[id].outcome.Unset? then
      if s[id].outcome != outcome || s[id].reconciledBy != Strip(reconciledBy) || s[id].reconciliationNote != Strip(note)
         || !(s[id].status.Executing? || s[id].status.Consumed?) || !ReconciliationIdentity(policy, s[id], now)
      then Refuse(s)
      else Effect(s, Some(s[id]))
    else if !s[id].status.Executing? then Refuse(s)
    else if !Vouched(policy, att, s[id], ReconciliationPurpose, SignedOutcome(outcome), Strip(reconciledBy), Strip(note), now)
    then Refuse(s)
    else Put(s, WithIntent(s[id], outcome, reconciledBy, note, att, now))
  }

  function MarkReconciled(s: Store, id: string, record: string, now: Time): Effect {
    if record == "" || id !in s || s[id].outcome.Unset? then Refuse(s)
    else if s[id].status.Consumed? then if s[id].executionRecord == record then Effect(s, Some(s[id])) else Refuse(s)
    else if !s[id].status.Executing? then Refuse(s)
    else Put(s, Consume(s[id], record, now).(completedAt := Some(now)))
  }

  // ---------------------------------------------------------------------------
  // The store
  // ---------------------------------------------------------------------------

  /** `ApprovalStore`: one file, read and validated by every call and rewritten whole. */
  class ApprovalStore {
    const policy: Option<Policy>
    var data: Store

    constructor (policy: Option<Policy>)
      ensures this.policy == policy && data == map[]
    {
      this.policy := policy;
      data := map[];
    }

    method Create(pending: Approval) returns (result: Option<Approval>)
      requires StoreOk(data)
      modifies this
      ensures Effect(data, result) == CreatePrepared(old(data), pending)
    {
      if !RecordOk(pending) {
        return None;
      }
      if pending.id in data {
        return if data[pending.id] == pending then Some(pending) else None;
      }
      if ActionIsActive(data, pending.binding.actionId) {
        return None;
      }
      data := data[pending.id := pending];
      return Some(pending);
    }

    /** Every due approval is expired in one write; all others are left alone. */
    method ExpireDue(now: Time) returns (expired: set<string>)
      requires StoreOk(data)
      modifies this
      ensures data == ExpiredAll(old(data), now)
      ensures forall id :: id in expired <==> id in old(data) && Due(old(data)[id], now)
    {
      hide RecordOk, StoreOk, Due, Expire, ExpiredAll;
      expired := {};
      var before := data;
      var updated := data;
      var remaining := data.Keys;
      while remaining != {}
        invariant remaining <= before.Keys && updated.Keys == before.Keys
        invariant forall id :: id in remaining ==> updated[id] == before[id]
        invariant forall id :: id in before && id !in remaining ==>
                    updated[id] == if Due(before[id], now) then Expire(before[id], now) else before[id]
        invariant forall id :: id in expired <==> id in before && id !in remaining && Due(before[id], now)
        decreases |remaining|
      {
        var id :| id in remaining;
        remaining := remaining - {id};
        if Due(before[id], now) {
          updated := updated[id := Expire(before[id], now)];
          expired := expired + {id};
        }
      }
      ExpiredAllIs(before, updated, now);
      if expired == {} {
        assert updated == before;
      } else {
        data := updated;
      }
    }

    method ExpireApproval(id: string, now: Time) returns (result: Option<Approval>)
      requires StoreOk(data)
      modifies this
      ensures Effect(data, result) == ExpireOne(old(data), id, now)
    {
      if id !in data {
        return None;
      }
      var approval := data[id];
      if approval.status.Expired? {
        return Some(approval);
      }
      if !Due(approval, now) {
        return None;
      }
      result := Update(Expire(approval, now));
    }

    /** `with_updates`, then the whole file rewritten. */
    method Update(approval: Approval) returns (result: Option<Approval>)
      modifies this
      ensures Effect(data, result) == Put(old(data), approval)
    {
      if !RecordOk(approval) {
        return None;
      }
      data := data[approval.id := approval];
      return Some(approval);
    }

    method DecideApproval(id: string, approved: bool, decidedBy: string, note: string, att: Option<Attestation>, now: Time)
      returns (result: Option<Approval>)
      requires StoreOk(data)
      modifies this
      ensures Effect(data, result) == Decide(old(data), policy, id, approved, decidedBy, note, att, now)
    {
      if id !in data {
        return None;
      }
      var approval := data[id];
      if !approval.status.Pending? || IsExpired(approval, now) || Strip(decidedBy) == "" {
        return None;
      }
      if att.Some? && policy.None? {
        return None;
      }
      if policy.Some? && !Require(policy.value, att, approval, DecisionPurpose,
                                  if approved then SignedApproved else SignedRejected, Strip(decidedBy), Strip(note), now) {
        return None;
      }
      result := Update(Decided(approval, approved, decidedBy, note, att, now));
    }

    method EnsureApprovalRejected(id: string, decidedBy: string, note: string, att: Option<Attestation>, now: Time)
      returns (result: Option<Approval>)
      requires StoreOk(data)
      modifies this
      ensures Effect(data, result) == EnsureRejected(old(data), policy, id, decidedBy, note, att, now)
    {
      if id !in data {
        return None;
      }
      var current := data[id];
      if current.status.Pending? {
        result := DecideApproval(id, false, decidedBy, note, att, now);
        return;
      }
      if current.status.Rejected? && current.decidedBy == Strip(decidedBy) && current.note == Strip(note)
         && current.decisionAttestation == att && DecisionIdentity(policy, current, now) {
        return Some(current);
      }
      return None;
    }

    method Begin(id: string, actionId: string, authorizationHash: Hash, now: Time) returns (result: Option<Approval>)
      requires StoreOk(data)
      modifies this
      ensures Effect(data, result) == BeginExecution(old(data), policy, id, actionId, authorizationHash, now)
    {
      if id !in data || !data[id].status.Approved? {
        return None;
      }
      var approval := data[id];
      if IsExpired(approval, now) {
        var _ := Update(Expire(approval, now));
        return None;
      }
      if approval.binding.actionId != actionId || approval.binding.authorizationHash != authorizationHash
         || !DecisionIdentity(policy, approval, now) {
        return None;
      }
      result := Update(approval.(status := Executing));
    }

    method MarkApprovalConsumed(id: string, record: string, now: Time) returns (result: Option<Approval>)
      requires StoreOk(data)
      modifies this
      ensures Effect(data, result) == MarkConsumed(old(data), id, record, now)
    {
      if id !in data || !data[id].status.Executing? || !data[id].outcome.Unset? {
        return None;
      }
      result := Update(Consume(data[id], record, now));
    }

    method EnsureApprovalConsumed(id: string, record: string, now: Time) returns (result: Option<Approval>)
      requires StoreOk(data)
      modifies this
      ensures Effect(data, result) == EnsureConsumed(old(data), id, record, now)
    {
      if record == "" || id !in data {
        return None;
      }
      var approval := data[id];
      if approval.status.Consumed? {
        return if approval.executionRecord == record then Some(approval) else None;
      }
      if !approval.status.Executing? || !approval.outcome.Unset? {
        return None;
      }
      result := Update(Consume(approval, record, now));
    }

    method BeginApprovalReconciliation(id: string, outcome: Outcome, reconciledBy: string, note: string,
                                       att: Option<Attestation>, now: Time) returns (result: Option<Approval>)
      requires StoreOk(data)
      modifies this
      ensures Effect(data, result) == BeginReconciliation(old(data), policy, id, outcome, reconciledBy, note, att, now)
    {
      if outcome !in {Succeeded, Failed, NotExecuted} || Strip(reconciledBy) == "" || Strip(note) == "" || id !in data {
        return None;
      }
      var approval := data[id];
      if !approval.outcome.Unset? {
        if approval.outcome != outcome || approval.reconciledBy != Strip(reconciledBy)
           || approval.reconciliationNote != Strip(note) {
          return None;
        }
        if !approval.status.Executing? && !approval.status.Consumed? {
          return None;
        }
        return if ReconciliationIdentity(policy, approval, now) then Some(approval) else None;
      }
      if !approval.status.Executing? || (att.Some? && policy.None?) {
        return None;
      }
      if policy.Some? && !Require(policy.value, att, approval, ReconciliationPurpose, SignedOutcome(outcome),
                                  Strip(reconciledBy), Strip(note), now) {
        return None;
      }
      result := Update(WithIntent(approval, outcome, reconciledBy, note, att, now));
    }

    method MarkApprovalReconciled(id: string, record: string, now: Time) returns (result: Option<Approval>)
      requires StoreOk(data)
      modifies this
      ensures Effect(data, result) == MarkReconciled(old(data), id, record, now)
    {
      if record == "" || id !in data || data[id].outcome.Unset? {
        return None;
      }
      var approval := data[id];
      if approval.status.Consumed? {
        return if approval.executionRecord == record then Some(approval) else None;
      }
      if !approval.status.Executing? {
        return None;
      }
      result := Update(Consume(approval, record, now).(completedAt := Some(now)));
    }
  }
}
