/**
 The cross-store audit (`_audit_cross_store` in `state_integrity.py`): loops over evidence, approvals, budget
 reservations, settlements and reconciliation markers that append issues to a report.
 */
module CrossStoreAudit {
  import opened Approvals
  import opened Wrappers

  datatype ResultStatus = DidSucceed | DidFail | WasBlocked | Skipped | AwaitsApproval | DidExpire | WasRejected | WasNotExecuted

  predicate IsTerminal(r: ResultStatus) {
    r in {DidSucceed, DidFail, WasBlocked, WasRejected, DidExpire, WasNotExecuted}
  }

  /**
   The fields of an evidence record that the audit compares. `bounded` says that the texts which identify it are
   acceptable to `AuthorizationReconciliationSubject`.
   */
  datatype Evidence = Evidence(
    id: string, hash: Hash, actionId: string, requestId: string, authorizationHash: Hash, allowed: bool, bounded: bool,
    status: ResultStatus, cost: int, budgetRemaining: int, outcome: Outcome, reconciledBy: string, note: string)

  datatype Reservation = Reservation(requestId: string, amount: int)

  datatype Kind = Reserve | Debit | ReleaseEntry | Reconcile | OtherKind

  /** A budget entry; a settlement of a known result names the evidence that completed it. */
  datatype Entry = Entry(kind: Kind, actionId: string, requestId: string, amount: int, balanceAfter: int, completion: string)

  /**
   A reconciliation marker of the budget: made for an approval, or for the sealed authorization that it names. `vouched`
   says that the trusted keys, if there are any, accept its attestation for that authorization.
   */
  datatype Marker = Marker(
    requestId: string, outcome: Outcome, reconciledBy: string, note: string, expected: int,
    byAuthorization: bool, authorityId: string, authorityHash: Hash, vouched: bool)

  /** The operation in the journal, as far as the audit looks at it. */
  datatype Journal =
    | Empty
    | Creates(actionId: string, requestId: string, reserved: int)
    | Terminates(approvalId: string, actionId: string, requestId: string, reserved: int)
    | Completes(authorityId: string, authorityHash: Hash, actionId: string, requestId: string, authorizationHash: Hash,
                evidence: Evidence)
    | Reconciles(authorityId: string)

  /** What the audit is given. */
  datatype Stores = Stores(
    evidence: seq<Evidence>, trusted: bool, approvals: seq<Approval>, reservations: map<string, Reservation>,
    markers: map<string, Marker>, entries: seq<Entry>, journal: Journal)

  datatype Code =
    | SettlementDuplicate | SettlementEvidenceMissing | SettlementMismatch
    | ReservationMismatch | OrphanReservation
    | AuthorizationWithoutApproval | AuthorizationToReconcile
    | ActiveReservationMissing | ExecutingUnaccounted | TerminalHasReservation
    | ConsumedEvidenceMissing | ConsumedEvidenceMismatch | ReconciliationMarkerMissing
    | EvidenceMarkerMissing
    | MarkerReservationConflict | OrphanMarker | MarkerMismatch
    | AuthorityMissing | AuthorityInvalid | AuthorityMismatch | EstimateMismatch | IdentityInvalid | OutcomeMissing | OutcomeMismatch

  datatype Issue = Issue(code: Code, critical: bool, subject: string)

  // ---------------------------------------------------------------------------
  // Lookups
  // ---------------------------------------------------------------------------

  /** `records_by_id`: a later record of the same id replaces an earlier one. */
  function ById(evidence: seq<Evidence>, id: string): Option<Evidence> {
    if evidence == [] then None
    else if evidence[|evidence| - 1].id == id then Some(evidence[|evidence| - 1])
    else ById(evidence[..|evidence| - 1], id)
  }

  /** `records_by_action`. */
  function OfAction(evidence: seq<Evidence>, actionId: string): seq<Evidence> {
    if evidence == [] then []
    else
      var most := OfAction(evidence[..|evidence| - 1], actionId);
      if evidence[|evidence| - 1].actionId == actionId then most + [evidence[|evidence| - 1]] else most
  }

  predicate TerminalFor(evidence: seq<Evidence>, authorizationHash: Hash) {
    exists j :: 0 <= j < |evidence| && evidence[j].authorizationHash == authorizationHash && IsTerminal(evidence[j].status)
  }

  /** The authorization at a place in the evidence has no terminal outcome anywhere in it. */
  predicate OpenAt(evidence: seq<Evidence>, i: nat)
    requires i < |evidence|
  {
    evidence[i].status.Skipped? && !TerminalFor(evidence, evidence[i].authorizationHash)
  }

  /** `_has_open_authorization` over some records. */
  predicate HasOpen(records: seq<Evidence>, requestId: string) {
    exists i :: 0 <= i < |records| && records[i].requestId == requestId && OpenAt(records, i)
  }

  /** The loop of `_has_open_authorization`, latest authorization first. */
  method FindOpen(records: seq<Evidence>, requestId: string) returns (found: bool)
    ensures found <==> HasOpen(records, requestId)
  {
    var i := |records|;
    while i > 0
      invariant 0 <= i <= |records|
      invariant forall j :: i <= j < |records| && records[j].requestId == requestId ==> !OpenAt(records, j)
    {
      i := i - 1;
      if records[i].requestId == requestId && records[i].status.Skipped? {
        var terminal := TerminalFor(records, records[i].authorizationHash);
        if !terminal {
          assert OpenAt(records, i);
          return true;
        }
      }
    }
    return false;
  }

  predicate HasApproval(d: Stores, actionId: string) {
    exists k :: 0 <= k < |d.approvals| && d.approvals[k].binding.actionId == actionId
  }

  predicate HasActiveApproval(d: Stores, actionId: string) {
    exists k :: 0 <= k < |d.approvals| && d.approvals[k].binding.actionId == actionId && Active(d.approvals[k])
  }

  // ---------------------------------------------------------------------------
  // What the journal explains
  // ---------------------------------------------------------------------------

  predicate ExpectsUnbound(j: Journal, actionId: string, r: Reservation) {
    j.Creates? && j.actionId == actionId && j.requestId == r.requestId && j.reserved == r.amount
  }

  predicate ExpectsTerminal(j: Journal, a: Approval, r: Reservation) {
    && j.Terminates? && j.approvalId == a.id && j.actionId == a.binding.actionId && j.requestId == a.binding.requestId
    && r.requestId == a.binding.requestId && j.reserved == a.binding.reserved == r.amount
  }

  predicate ExpectsTerminalOfAction(d: Stores, actionId: string, r: Reservation) {
    exists k :: 0 <= k < |d.approvals| && d.approvals[k].binding.actionId == actionId && ExpectsTerminal(d.journal, d.approvals[k], r)
  }

  predicate CompletesAuthorization(j: Journal, e: Evidence) {
    && j.Completes? && j.authorityId == e.id && j.authorityHash == e.hash && j.actionId == e.actionId
    && j.requestId == e.requestId && j.authorizationHash == e.authorizationHash
  }

  predicate Settles(e: Evidence, entry: Entry) {
    && e.requestId == entry.requestId && e.actionId == entry.actionId && e.cost == entry.amount
    && e.budgetRemaining == entry.balanceAfter
  }

  predicate PreparedBy(j: Journal, entry: Entry) {
    j.Completes? && j.evidence.id == entry.completion && Settles(j.evidence, entry)
  }

  // ---------------------------------------------------------------------------
  // The report and the loops
  // ---------------------------------------------------------------------------

  /** An earlier settlement names the same completion. */
  predicate SettledBefore(d: Stores, k: nat)
    requires k < |d.entries|
  {
    exists j :: 0 <= j < k && d.entries[j].completion == d.entries[k].completion
  }

  function EntryIssues(d: Stores, k: nat): seq<Issue>
    requires k < |d.entries|
  {
    var entry := d.entries[k];
    var record := ById(d.evidence, entry.completion);
    if entry.completion == "" then []
    else if SettledBefore(d, k) then [Issue(SettlementDuplicate, true, entry.completion)]
    else if record.None? then
      if PreparedBy(d.journal, entry) then [] else [Issue(SettlementEvidenceMissing, true, entry.completion)]
    else if !entry.kind.Debit? || !(record.value.status.DidSucceed? || record.value.status.DidFail?) || !Settles(record.value, entry)
    then [Issue(SettlementMismatch, true, entry.completion)]
    else []
  }

  /** The issues of the active approvals of an action whose reservation differs from theirs. */
  function MismatchIssues(d: Stores, actionId: string, n: nat): seq<Issue>
    requires n <= |d.approvals| && actionId in d.reservations
  {
    if n == 0 then []
    else
      var a := d.approvals[n - 1];
      MismatchIssues(d, actionId, n - 1) +
      if a.binding.actionId == actionId && Active(a)
         && (d.reservations[actionId].requestId != a.binding.requestId || d.reservations[actionId].amount != a.binding.reserved)
      then [Issue(ReservationMismatch, true, a.id)] else []
  }

  function ReservationIssues(d: Stores, actionId: string): seq<Issue>
    requires actionId in d.reservations
  {
    var r := d.reservations[actionId];
    if HasActiveApproval(d, actionId) then MismatchIssues(d, actionId, |d.approvals|)
    else if d.trusted && HasOpen(OfAction(d.evidence, actionId), r.requestId) then []
    else if ExpectsUnbound(d.journal, actionId, r) || ExpectsTerminalOfAction(d, actionId, r) then []
    else [Issue(OrphanReservation, true, actionId)]
  }

  function AuthorizationIssues(d: Stores, i: nat): seq<Issue>
    requires i < |d.evidence|
  {
    var e := d.evidence[i];
    if !OpenAt(d.evidence, i) || CompletesAuthorization(d.journal, e) || HasApproval(d, e.actionId) then []
    else if !e.allowed then [Issue(AuthorizationWithoutApproval, true, e.id)]
    else [Issue(AuthorizationToReconcile, false, e.id)]
  }

  /** `_executing_budget_accounted`. */
  predicate Accounted(d: Stores, a: Approval) {
    || a.binding.actionId in d.reservations || a.binding.actionId in d.markers
    || (exists k :: 0 <= k < |d.entries| && d.entries[k].actionId == a.binding.actionId
                    && d.entries[k].requestId == a.binding.requestId && d.entries[k].kind in {Debit, ReleaseEntry, Reconcile})
    || TerminalFor(OfAction(d.evidence, a.binding.actionId), a.binding.authorizationHash)
  }

  /** `_check_consumed_evidence`. */
  function ConsumedIssues(d: Stores, a: Approval): seq<Issue> {
    var record := ById(d.evidence, a.executionRecord);
    if a.executionRecord == "" then []
    else if record.None? then [Issue(ConsumedEvidenceMissing, true, a.id)]
    else if record.value.actionId != a.binding.actionId || record.value.requestId != a.binding.requestId
            || record.value.authorizationHash != a.binding.authorizationHash || !IsTerminal(record.value.status)
    then [Issue(ConsumedEvidenceMismatch, true, a.id)]
    else []
  }

  /** The journal explains why this terminal approval still holds its reservation: its later checks are skipped. */
  predicate Excused(d: Stores, a: Approval) {
    Terminal(a) && a.binding.actionId in d.reservations && ExpectsTerminal(d.journal, a, d.reservations[a.binding.actionId])
  }

  function ApprovalIssues(d: Stores, a: Approval): seq<Issue> {
    var held := a.binding.actionId in d.reservations;
    (if (a.status.Pending? || a.status.Approved?) && a.binding.reserved > 0 && !held
     then [Issue(ActiveReservationMissing, true, a.id)] else [])
    + (if a.status.Executing? && a.binding.reserved > 0 && !Accounted(d, a) then [Issue(ExecutingUnaccounted, true, a.id)] else [])
    + if Excused(d, a) then []
      else
        (if Terminal(a) && held then [Issue(TerminalHasReservation, true, a.id)] else [])
        + (if a.status.Consumed? && d.trusted then ConsumedIssues(d, a) else [])
        + (if !a.outcome.Unset? && a.binding.actionId !in d.markers
           then [Issue(ReconciliationMarkerMissing, a.status.Consumed?, a.id)] else [])
  }

  /** How many of the first so many authorizations are reported as still to be reconciled. */
  function ToReconcile(d: Stores, n: nat): nat
    requires n <= |d.evidence|
  {
    if n == 0 then 0
    else ToReconcile(d, n - 1) + if AuthorizationIssues(d, n - 1) == [Issue(AuthorizationToReconcile, false, d.evidence[n - 1].id)] then 1 else 0
  }

  function EvidenceIssues(d: Stores, i: nat): seq<Issue>
    requires i < |d.evidence|
  {
    var e := d.evidence[i];
    if !e.outcome.Unset? && e.actionId !in d.markers && !HasApproval(d, e.actionId) then [Issue(EvidenceMarkerMissing, true, e.id)] else []
  }

  /** The first approval of an action, among the first so many, that carries a reconciliation intent. */
  function FirstIntent(approvals: seq<Approval>, actionId: string): Option<Approval> {
    if approvals == [] then None
    else if approvals[0].binding.actionId == actionId && !approvals[0].outcome.Unset? then Some(approvals[0])
    else FirstIntent(approvals[1..], actionId)
  }

  predicate MarkerMatches(m: Marker, a: Approval) {
    && m.requestId == a.binding.requestId && m.outcome == a.outcome && m.reconciledBy == a.reconciledBy
    && m.note == a.reconciliationNote && m.expected == a.binding.reserved
  }

  /** The amount of the last entry of a kind for a request and an action. */
  function LastAmount(entries: seq<Entry>, kind: Kind, requestId: string, actionId: string): Option<int> {
    if entries == [] then None
    else
      var last := entries[|entries| - 1];
      if last.kind == kind && last.requestId == requestId && last.actionId == actionId then Some(last.amount)
      else LastAmount(entries[..|entries| - 1], kind, requestId, actionId)
  }

  /** What was reserved for an authorization. */
  function Exposure(d: Stores, authority: Evidence): int {
    var reserved := LastAmount(d.entries, Reserve, authority.requestId, authority.actionId);
    if reserved.Some? then reserved.value else 0
  }

  /** What reconciling an authorization must have cost. */
  function ReconciledCost(d: Stores, authority: Evidence, status: ResultStatus): int {
    var debited := LastAmount(d.entries, Debit, authority.requestId, authority.actionId);
    if debited.Some? then debited.value else if status.WasNotExecuted? then 0 else Exposure(d, authority)
  }

  /** The last terminal record of an authorization. */
  function LastOutcome(records: seq<Evidence>, authorizationHash: Hash): Option<Evidence> {
    if records == [] then None
    else
      var last := records[|records| - 1];
      if last.authorizationHash == authorizationHash && IsTerminal(last.status) then Some(last)
      else LastOutcome(records[..|records| - 1], authorizationHash)
  }

  /** The reconciliation outcome that a result stands for. */
  function Observed(status: ResultStatus): Outcome {
    match status
    case DidSucceed => Succeeded
    case DidFail => Failed
    case WasNotExecuted => NotExecuted
    case _ => Unset
  }

  /** The terminal record says what the marker says, at the cost the budget shows. */
  predicate OutcomeMatches(d: Stores, m: Marker, authority: Evidence, terminal: Evidence) {
    && !Observed(terminal.status).Unset? && Observed(terminal.status) == m.outcome == terminal.outcome
    && terminal.reconciledBy == m.reconciledBy && terminal.note == m.note
    && terminal.cost == ReconciledCost(d, authority, terminal.status)
  }

  predicate OpenId(evidence: seq<Evidence>, id: string) {
    exists i :: 0 <= i < |evidence| && evidence[i].id == id && OpenAt(evidence, i)
  }

  /** `_audit_authorization_reconciliation_marker`: the first check that fails. */
  function AuthorityFault(d: Stores, actionId: string, m: Marker): Option<Code> {
    var found := ById(d.evidence, m.authorityId);
    if found.None? then Some(AuthorityMissing)
    else
      var authority := found.value;
      if !authority.status.Skipped? || !authority.allowed || !authority.bounded then Some(AuthorityInvalid)
      else if actionId != authority.actionId || m.requestId != authority.requestId || m.authorityHash != authority.hash
      then Some(AuthorityMismatch)
      else if m.expected != Exposure(d, authority) then Some(EstimateMismatch)
      else if !m.vouched then Some(IdentityInvalid)
      else
        var terminal := LastOutcome(OfAction(d.evidence, actionId), authority.authorizationHash);
        if terminal.None? then
          if d.journal.Reconciles? && d.journal.authorityId == m.authorityId && OpenId(d.evidence, m.authorityId) then None
          else Some(OutcomeMissing)
        else if !OutcomeMatches(d, m, authority, terminal.value) then Some(OutcomeMismatch)
        else None
  }

  function MarkerIssues(d: Stores, actionId: string): seq<Issue>
    requires actionId in d.markers
  {
    var approval := FirstIntent(d.approvals, actionId);
    (if actionId in d.reservations then [Issue(MarkerReservationConflict, true, actionId)] else [])
    + if approval.None? then
        if d.markers[actionId].byAuthorization then
          var fault := AuthorityFault(d, actionId, d.markers[actionId]);
          if fault.Some? then [Issue(fault.value, true, actionId)] else []
        else [Issue(OrphanMarker, true, actionId)]
      else if !MarkerMatches(d.markers[actionId], approval.value) then [Issue(MarkerMismatch, true, actionId)]
      else []
  }

  /** Found among the first so many, or among the actions already visited. */
  ghost predicate FoundInEntries(d: Stores, n: nat, i: Issue)
    requires n <= |d.entries|
  {
    exists k :: 0 <= k < n && i in EntryIssues(d, k)
  }

  ghost predicate FoundInReservations(d: Stores, visited: set<string>, i: Issue) {
    exists a :: a in visited && a in d.reservations && i in ReservationIssues(d, a)
  }

  ghost predicate FoundInAuthorizations(d: Stores, n: nat, i: Issue)
    requires n <= |d.evidence|
  {
    exists k :: 0 <= k < n && i in AuthorizationIssues(d, k)
  }

  ghost predicate FoundInApprovals(d: Stores, n: nat, i: Issue)
    requires n <= |d.approvals|
  {
    exists k :: 0 <= k < n && i in ApprovalIssues(d, d.approvals[k])
  }

  ghost predicate FoundInEvidence(d: Stores, n: nat, i: Issue)
    requires n <= |d.evidence|
  {
    exists k :: 0 <= k < n && i in EvidenceIssues(d, k)
  }

  ghost predicate FoundInMarkers(d: Stores, visited: set<string>, i: Issue) {
    exists a :: a in visited && a in d.markers && i in MarkerIssues(d, a)
  }

  /** The audit of these stores reports the issue. */
  ghost predicate Finding(d: Stores, i: Issue) {
    || (d.trusted && FoundInEntries(d, |d.entries|, i))
    || FoundInReservations(d, d.reservations.Keys, i)
    || (d.trusted && FoundInAuthorizations(d, |d.evidence|, i))
    || FoundInApprovals(d, |d.approvals|, i)
    || (d.trusted && FoundInEvidence(d, |d.evidence|, i))
    || FoundInMarkers(d, d.markers.Keys, i)
  }

  /** `StateIntegrityReport`, as far as this audit appends to it. */
  class Report {
    var issues: seq<Issue>
    var toReconcile: nat

    constructor ()
      ensures issues == [] && toReconcile == 0
    {
      issues, toReconcile := [], 0;
    }

    method Add(code: Code, critical: bool, subject: string)
      modifies this
      ensures issues == old(issues) + [Issue(code, critical, subject)] && toReconcile == old(toReconcile)
    {
      issues := issues + [Issue(code, critical, subject)];
    }

    /** `_audit_known_result_settlements`. */
    method AuditSettlements(d: Stores)
      modifies this
      ensures forall i :: i in issues <==> i in old(issues) || FoundInEntries(d, |d.entries|, i)
      ensures toReconcile == old(toReconcile)
    {
      var seen: set<string> := {};
      for k := 0 to |d.entries|
        invariant forall c :: c in seen <==> c != "" && exists j :: 0 <= j < k && d.entries[j].completion == c
        invariant forall i :: i in issues <==> i in old(issues) || FoundInEntries(d, k, i)
        invariant toReconcile == old(toReconcile)
      {
        ghost var before := issues;
        var entry := d.entries[k];
        if entry.completion != "" {
          if entry.completion in seen {
            Add(SettlementDuplicate, true, entry.completion);
          } else {
            seen := seen + {entry.completion};
            var record := ById(d.evidence, entry.completion);
            if record.None? {
              if !PreparedBy(d.journal, entry) {
                Add(SettlementEvidenceMissing, true, entry.completion);
              }
            } else if !entry.kind.Debit? || !(record.value.status.DidSucceed? || record.value.status.DidFail?)
                      || !Settles(record.value, entry) {
              Add(SettlementMismatch, true, entry.completion);
            }
          }
        }
        assert issues == before + EntryIssues(d, k);
      }
    }

    method AuditReservation(d: Stores, actionId: string)
      requires actionId in d.reservations
      modifies this
      ensures issues == old(issues) + ReservationIssues(d, actionId) && toReconcile == old(toReconcile)
    {
      var reservation := d.reservations[actionId];
      if HasActiveApproval(d, actionId) {
        for n := 0 to |d.approvals|
          invariant issues == old(issues) + MismatchIssues(d, actionId, n) && toReconcile == old(toReconcile)
        {
          var approval := d.approvals[n];
          if approval.binding.actionId == actionId && Active(approval)
             && (reservation.requestId != approval.binding.requestId || reservation.amount != approval.binding.reserved) {
            Add(ReservationMismatch, true, approval.id);
          }
        }
        return;
      }
      var open := false;
      if d.trusted {
        open := FindOpen(OfAction(d.evidence, actionId), reservation.requestId);
      }
      if open || ExpectsUnbound(d.journal, actionId, reservation) || ExpectsTerminalOfAction(d, actionId, reservation) {
        return;
      }
      Add(OrphanReservation, true, actionId);
    }

    method AuditReservations(d: Stores)
      modifies this
      ensures forall i :: i in issues <==> i in old(issues) || FoundInReservations(d, d.reservations.Keys, i)
      ensures toReconcile == old(toReconcile)
    {
      hide ReservationIssues;
      var remaining := d.reservations.Keys;
      while remaining != {}
        invariant remaining <= d.reservations.Keys && toReconcile == old(toReconcile)
        invariant forall i :: i in issues <==> i in old(issues) || FoundInReservations(d, d.reservations.Keys - remaining, i)
        decreases |remaining|
      {
        var actionId :| actionId in remaining;
        remaining := remaining - {actionId};
        AuditReservation(d, actionId);
      }
    }

    method AuditAuthorizations(d: Stores)
      modifies this
      ensures forall i :: i in issues <==> i in old(issues) || FoundInAuthorizations(d, |d.evidence|, i)
      ensures toReconcile == old(toReconcile) + ToReconcile(d, |d.evidence|)
    {
      hide OpenAt, CompletesAuthorization, HasApproval;
      for k := 0 to |d.evidence|
        invariant forall i :: i in issues <==> i in old(issues) || FoundInAuthorizations(d, k, i)
        invariant toReconcile == old(toReconcile) + ToReconcile(d, k)
      {
        ghost var before := issues;
        var authorization := d.evidence[k];
        if OpenAt(d.evidence, k) && !CompletesAuthorization(d.journal, authorization) && !HasApproval(d, authorization.actionId) {
          if !authorization.allowed {
            Add(AuthorizationWithoutApproval, true, authorization.id);
          } else {
            toReconcile := toReconcile + 1;
            Add(AuthorizationToReconcile, false, authorization.id);
          }
        }
        assert issues == before + AuthorizationIssues(d, k);
      }
    }

    method AuditApproval(d: Stores, approval: Approval)
      modifies this
      ensures issues == old(issues) + ApprovalIssues(d, approval)
      ensures toReconcile == old(toReconcile)
    {
      var held := approval.binding.actionId in d.reservations;
      if (approval.status.Pending? || approval.status.Approved?) && approval.binding.reserved > 0 && !held {
        Add(ActiveReservationMissing, true, approval.id);
      }
      if approval.status.Executing? && approval.binding.reserved > 0 && !Accounted(d, approval) {
        Add(ExecutingUnaccounted, true, approval.id);
      }
      if Terminal(approval) && held {
        if ExpectsTerminal(d.journal, approval, d.reservations[approval.binding.actionId]) {
          return;
        }
        Add(TerminalHasReservation, true, approval.id);
      }
      if approval.status.Consumed? && d.trusted {
        issues := issues + ConsumedIssues(d, approval);
      }
      if !approval.outcome.Unset? && approval.binding.actionId !in d.markers {
        Add(ReconciliationMarkerMissing, approval.status.Consumed?, approval.id);
      }
    }

    method AuditApprovals(d: Stores)
      modifies this
      ensures forall i :: i in issues <==> i in old(issues) || FoundInApprovals(d, |d.approvals|, i)
      ensures toReconcile == old(toReconcile)
    {
      hide ApprovalIssues;
      for k := 0 to |d.approvals|
        invariant forall i :: i in issues <==> i in old(issues) || FoundInApprovals(d, k, i)
        invariant toReconcile == old(toReconcile)
      {
        AuditApproval(d, d.approvals[k]);
      }
    }

    method AuditReconciledEvidence(d: Stores)
      modifies this
      ensures forall i :: i in issues <==> i in old(issues) || FoundInEvidence(d, |d.evidence|, i)
      ensures toReconcile == old(toReconcile)
    {
      for k := 0 to |d.evidence|
        invariant forall i :: i in issues <==> i in old(issues) || FoundInEvidence(d, k, i)
        invariant toReconcile == old(toReconcile)
      {
        ghost var before := issues;
        var record := d.evidence[k];
        if !record.outcome.Unset? && record.actionId !in d.markers && !HasApproval(d, record.actionId) {
          Add(EvidenceMarkerMissing, true, record.id);
        }
        assert issues == before + EvidenceIssues(d, k);
      }
    }

    method AuditAuthorizationMarker(d: Stores, actionId: string, m: Marker)
      modifies this
      ensures issues == old(issues) + match AuthorityFault(d, actionId, m)
                                      case None => [] case Some(code) => [Issue(code, true, actionId)]
      ensures toReconcile == old(toReconcile)
    {
      hide LastAmount, LastOutcome, OfAction, OpenAt, IsTerminal;
      var found := ById(d.evidence, m.authorityId);
      if found.None? {
        Add(AuthorityMissing, true, actionId);
        return;
      }
      var authority := found.value;
      if !authority.status.Skipped? || !authority.allowed || !authority.bounded {
        Add(AuthorityInvalid, true, actionId);
        return;
      }
      if actionId != authority.actionId || m.requestId != authority.requestId || m.authorityHash != authority.hash {
        Add(AuthorityMismatch, true, actionId);
        return;
      }
      var reserved := LastAmount(d.entries, Reserve, authority.requestId, authority.actionId);
      var expected := if reserved.Some? then reserved.value else 0;
      if m.expected != expected {
        Add(EstimateMismatch, true, actionId);
        return;
      }
      if !m.vouched {
        Add(IdentityInvalid, true, actionId);
        return;
      }
      var terminal := LastOutcome(OfAction(d.evidence, actionId), authority.authorizationHash);
      if terminal.None? {
        if !(d.journal.Reconciles? && d.journal.authorityId == m.authorityId && OpenId(d.evidence, m.authorityId)) {
          Add(OutcomeMissing, true, actionId);
        }
        return;
      }
      var debited := LastAmount(d.entries, Debit, authority.requestId, authority.actionId);
      var cost := expected;
      if debited.Some? {
        cost := debited.value;
      } else if terminal.value.status.WasNotExecuted? {
        cost := 0;
      }
      var observed := Observed(terminal.value.status);
      if observed.Unset? || observed != m.outcome || terminal.value.outcome != observed
         || terminal.value.reconciledBy != m.reconciledBy || terminal.value.note != m.note || terminal.value.cost != cost {
        Add(OutcomeMismatch, true, actionId);
      }
    }

    method AuditMarker(d: Stores, actionId: string)
      requires actionId in d.markers
      modifies this
      ensures issues == old(issues) + MarkerIssues(d, actionId)
      ensures toReconcile == old(toReconcile)
    {
      if actionId in d.reservations {
        Add(MarkerReservationConflict, true, actionId);
      }
      var approval := FirstIntent(d.approvals, actionId);
      if approval.None? {
        if d.markers[actionId].byAuthorization {
          AuditAuthorizationMarker(d, actionId, d.markers[actionId]);
          return;
        }
        Add(OrphanMarker, true, actionId);
        return;
      }
      if !MarkerMatches(d.markers[actionId], approval.value) {
        Add(MarkerMismatch, true, actionId);
      }
    }

    method AuditMarkers(d: Stores)
      modifies this
      ensures forall i :: i in issues <==> i in old(issues) || FoundInMarkers(d, d.markers.Keys, i)
      ensures toReconcile == old(toReconcile)
    {
      hide MarkerIssues;
      var remaining := d.markers.Keys;
      while remaining != {}
        invariant remaining <= d.markers.Keys
        invariant forall i :: i in issues <==> i in old(issues) || FoundInMarkers(d, d.markers.Keys - remaining, i)
        invariant toReconcile == old(toReconcile)
        decreases |remaining|
      {
        var actionId :| actionId in remaining;
        remaining := remaining - {actionId};
        AuditMarker(d, actionId);
      }
    }

    /** `_audit_cross_store`: exactly the findings are appended, and the authorizations to reconcile are counted. */
    method AuditCrossStore(d: Stores)
      modifies this
      ensures forall i :: i in issues <==> i in old(issues) || Finding(d, i)
      ensures toReconcile == old(toReconcile) + if d.trusted then ToReconcile(d, |d.evidence|) else 0
    {
      hide FoundInEntries, FoundInReservations, FoundInAuthorizations, FoundInApprovals, FoundInEvidence, FoundInMarkers;
      if d.trusted {
        AuditSettlements(d);
      }
      AuditReservations(d);
      if d.trusted {
        AuditAuthorizations(d);
      }
      AuditApprovals(d);
      if d.trusted {
        AuditReconciledEvidence(d);
      }
      AuditMarkers(d);
    }
  }
}
