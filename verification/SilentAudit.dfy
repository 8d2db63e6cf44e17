/**
 What the silence of the cross-store audit means: the conditions, stated over the stores themselves, that hold exactly
 when no critical issue is found.
 */
module SilentAudit {
  import opened Approvals
  import opened CrossStoreAudit
  import opened Wrappers

  /** No critical issue. */
  ghost predicate Silent(d: Stores) {
    forall i :: Finding(d, i) ==> !i.critical
  }

  // ---------------------------------------------------------------------------
  // Lookups
  // ---------------------------------------------------------------------------

  lemma {:induction false} ByIdFinds(evidence: seq<Evidence>, id: string)
    ensures ById(evidence, id).Some? ==> ById(evidence, id).value in evidence && ById(evidence, id).value.id == id
    ensures ById(evidence, id).None? ==> forall k :: 0 <= k < |evidence| ==> evidence[k].id != id
  {
    if evidence != [] && evidence[|evidence| - 1].id != id {
      var most := evidence[..|evidence| - 1];
      ByIdFinds(most, id);
      assert forall k :: 0 <= k < |most| ==> evidence[k] == most[k];
    }
  }

  lemma {:induction false} OfActionMembers(evidence: seq<Evidence>, actionId: string, e: Evidence)
    ensures e in OfAction(evidence, actionId) <==> e in evidence && e.actionId == actionId
  {
    if evidence != [] {
      var (most, last) := (evidence[..|evidence| - 1], evidence[|evidence| - 1]);
      OfActionMembers(most, actionId, e);
      assert evidence == most + [last];
    }
  }

  lemma TerminalMembers(evidence: seq<Evidence>, hash: Hash)
    ensures TerminalFor(evidence, hash) <==> exists e :: e in evidence && e.authorizationHash == hash && IsTerminal(e.status)
  {
  }

  // ---------------------------------------------------------------------------
  // Open authorizations
  // ---------------------------------------------------------------------------

  /** `_open_authorizations` holds an authorization of this action and request. */
  ghost predicate OpenSomewhere(evidence: seq<Evidence>, actionId: string, requestId: string) {
    exists e :: e in evidence && e.actionId == actionId && e.requestId == requestId && IsOpen(evidence, e)
  }

  ghost predicate IsOpen(evidence: seq<Evidence>, e: Evidence) {
    e.status.Skipped? && !TerminalFor(evidence, e.authorizationHash)
  }

  ghost predicate HashDeterminesAction(evidence: seq<Evidence>) {
    forall x, y :: x in evidence && y in evidence && x.authorizationHash == y.authorizationHash ==> x.actionId == y.actionId
  }

  lemma HasOpenMembers(records: seq<Evidence>, requestId: string)
    ensures HasOpen(records, requestId) <==> exists e :: e in records && e.requestId == requestId && IsOpen(records, e)
  {
  }

  /** The authorization has an outcome under its own action, or under another one. */
  ghost predicate OutcomeWithin(evidence: seq<Evidence>, e: Evidence) {
    exists t :: t in evidence && t.authorizationHash == e.authorizationHash && IsTerminal(t.status) && t.actionId == e.actionId
  }

  ghost predicate OutcomeElsewhere(evidence: seq<Evidence>, e: Evidence) {
    exists t :: t in evidence && t.authorizationHash == e.authorizationHash && IsTerminal(t.status) && t.actionId != e.actionId
  }

  /** An authorization of the action and request that has no outcome within the action. */
  ghost predicate Unfinished(evidence: seq<Evidence>, e: Evidence, actionId: string, requestId: string) {
    e in evidence && e.actionId == actionId && e.requestId == requestId && e.status.Skipped? && !OutcomeWithin(evidence, e)
  }

  lemma OutcomesOf(evidence: seq<Evidence>, e: Evidence)
    ensures TerminalFor(OfAction(evidence, e.actionId), e.authorizationHash) <==> OutcomeWithin(evidence, e)
    ensures TerminalFor(evidence, e.authorizationHash) <==> OutcomeWithin(evidence, e) || OutcomeElsewhere(evidence, e)
  {
    var records := OfAction(evidence, e.actionId);
    TerminalMembers(records, e.authorizationHash);
    TerminalMembers(evidence, e.authorizationHash);
    hide TerminalFor, OfAction;
    forall t
      ensures t in records <==> t in evidence && t.actionId == e.actionId
    {
      OfActionMembers(evidence, e.actionId, t);
    }
  }

  lemma OpenTestsAre(evidence: seq<Evidence>, actionId: string, requestId: string)
    ensures HasOpen(OfAction(evidence, actionId), requestId) <==> exists e :: Unfinished(evidence, e, actionId, requestId)
    ensures OpenSomewhere(evidence, actionId, requestId) <==>
            exists e :: Unfinished(evidence, e, actionId, requestId) && !OutcomeElsewhere(evidence, e)
  {
    hide TerminalFor, OfAction, HasOpen, OutcomeWithin, OutcomeElsewhere;
    var records := OfAction(evidence, actionId);
    HasOpenMembers(records, requestId);
    forall e
      ensures e in records && e.requestId == requestId && IsOpen(records, e) <==> Unfinished(evidence, e, actionId, requestId)
      ensures e in evidence && e.actionId == actionId && e.requestId == requestId && IsOpen(evidence, e) <==>
              Unfinished(evidence, e, actionId, requestId) && !OutcomeElsewhere(evidence, e)
    {
      OfActionMembers(evidence, actionId, e);
      OutcomesOf(evidence, e);
    }
  }

  /**
   The test on one action's records differs from the global one exactly when some authorization of the action and request
   has no outcome within the action, and every such one has an outcome under another action. Then it finds one open.
   */
  lemma OpenTestsDifferExactly(evidence: seq<Evidence>, actionId: string, requestId: string)
    ensures OpenSomewhere(evidence, actionId, requestId) ==> HasOpen(OfAction(evidence, actionId), requestId)
    ensures (HasOpen(OfAction(evidence, actionId), requestId) <==> OpenSomewhere(evidence, actionId, requestId)) <==>
            !(&& (exists e :: Unfinished(evidence, e, actionId, requestId))
              && (forall e :: Unfinished(evidence, e, actionId, requestId) ==> OutcomeElsewhere(evidence, e)))
  {
    hide HasOpen, OpenSomewhere, Unfinished, OutcomeElsewhere;
    OpenTestsAre(evidence, actionId, requestId);
  }

  /** In particular they agree where an authorization hash determines its action. */
  lemma OpenTestsAgree(evidence: seq<Evidence>, actionId: string, requestId: string)
    requires HashDeterminesAction(evidence)
    ensures HasOpen(OfAction(evidence, actionId), requestId) <==> OpenSomewhere(evidence, actionId, requestId)
  {
    hide HasOpen, OpenSomewhere, OfAction;
    OpenTestsDifferExactly(evidence, actionId, requestId);
  }

  /** Otherwise they may differ: an outcome under another action closes the authorization globally but not for its own action. */
  lemma OpenTestsCanDiffer(open: Evidence, other: Evidence)
    requires open.status.Skipped? && IsTerminal(other.status) && open.authorizationHash == other.authorizationHash
    requires open.actionId != other.actionId
    ensures HasOpen(OfAction([open, other], open.actionId), open.requestId)
    ensures !OpenSomewhere([open, other], open.actionId, open.requestId)
  {
    var both := [open, other];
    assert both[..1] == [open] && both[..1][..0] == [];
    assert OfAction(both[..1], open.actionId) == OfAction([], open.actionId) + [open];
    assert OfAction(both, open.actionId) == [open];
    assert OpenAt([open], 0);
    TerminalMembers(both, open.authorizationHash);
    assert other in both;
    forall e | e in both && e.actionId == open.actionId
      ensures !IsOpen(both, e)
    {
      assert e == open;
    }
  }

  // ---------------------------------------------------------------------------
  // The conditions
  // ---------------------------------------------------------------------------

  predicate MatchesReservation(a: Approval, r: Reservation) {
    r.requestId == a.binding.requestId && r.amount == a.binding.reserved
  }

  ghost predicate OfActive(d: Stores, k: int, actionId: string) {
    0 <= k < |d.approvals| && d.approvals[k].binding.actionId == actionId && Active(d.approvals[k])
  }

  /** A live reservation agrees with every active approval of its action, or else something else accounts for it. */
  ghost predicate Explained(d: Stores, actionId: string)
    requires actionId in d.reservations
  {
    var r := d.reservations[actionId];
    if HasActiveApproval(d, actionId) then forall k :: OfActive(d, k, actionId) ==> MatchesReservation(d.approvals[k], r)
    else (d.trusted && HasOpen(OfAction(d.evidence, actionId), r.requestId))
         || ExpectsUnbound(d.journal, actionId, r) || ExpectsTerminalOfAction(d, actionId, r)
  }

  /** The settlement names a completion no earlier one names, and evidence of a tool result that agrees with it. */
  ghost predicate SettledOnce(d: Stores, k: nat)
    requires k < |d.entries|
  {
    var entry := d.entries[k];
    entry.completion != "" ==>
      && (forall j :: 0 <= j < k ==> d.entries[j].completion != entry.completion)
      && match ById(d.evidence, entry.completion)
         case None => PreparedBy(d.journal, entry)
         case Some(e) => entry.kind.Debit? && (e.status.DidSucceed? || e.status.DidFail?) && Settles(e, entry)
  }

  /** The evidence of a consumed approval is a terminal record with the approval's own binding. */
  ghost predicate ProvenBy(d: Stores, a: Approval) {
    exists e :: e in d.evidence && ById(d.evidence, a.executionRecord) == Some(e)
                && e.actionId == a.binding.actionId && e.requestId == a.binding.requestId
                && e.authorizationHash == a.binding.authorizationHash && IsTerminal(e.status)
  }

  ghost predicate ApprovalSettled(d: Stores, a: Approval) {
    var held := a.binding.actionId in d.reservations;
    && ((a.status.Pending? || a.status.Approved?) && a.binding.reserved > 0 ==> held)
    && (a.status.Executing? && a.binding.reserved > 0 ==> Accounted(d, a))
    && (Excused(d, a) ||
        (&& (Terminal(a) ==> !held)
         && (a.status.Consumed? && d.trusted && a.executionRecord != "" ==> ProvenBy(d, a))
         && (a.status.Consumed? && !a.outcome.Unset? ==> a.binding.actionId in d.markers)))
  }

  ghost predicate AuthorizationClosed(d: Stores, i: nat)
    requires i < |d.evidence|
  {
    OpenAt(d.evidence, i) ==>
      d.evidence[i].allowed || CompletesAuthorization(d.journal, d.evidence[i]) || HasApproval(d, d.evidence[i].actionId)
  }

  ghost predicate ReconciledEvidenceMarked(d: Stores, i: nat)
    requires i < |d.evidence|
  {
    !d.evidence[i].outcome.Unset? ==> d.evidence[i].actionId in d.markers || HasApproval(d, d.evidence[i].actionId)
  }

  /** The marker names an approval-free authorization of its action, and repeats its binding and exposure. */
  ghost predicate NamesAuthority(d: Stores, actionId: string, m: Marker, authority: Evidence) {
    && authority in d.evidence && ById(d.evidence, m.authorityId) == Some(authority)
    && authority.status.Skipped? && authority.allowed && authority.bounded
    && authority.actionId == actionId && authority.requestId == m.requestId && authority.hash == m.authorityHash
    && m.expected == Exposure(d, authority) && m.vouched
  }

  /** The authorization's last outcome is the marker's, or it has none yet and the journal is about to seal it. */
  ghost predicate AuthorityAgrees(d: Stores, actionId: string, m: Marker) {
    exists authority ::
      && NamesAuthority(d, actionId, m, authority)
      && match LastOutcome(OfAction(d.evidence, actionId), authority.authorizationHash)
         case Some(t) => OutcomeMatches(d, m, authority, t)
         case None => d.journal.Reconciles? && d.journal.authorityId == m.authorityId && OpenId(d.evidence, m.authorityId)
  }

  ghost predicate MarkerSound(d: Stores, actionId: string)
    requires actionId in d.markers
  {
    && actionId !in d.reservations
    && match FirstIntent(d.approvals, actionId)
       case None => d.markers[actionId].byAuthorization && AuthorityAgrees(d, actionId, d.markers[actionId])
       case Some(a) => MarkerMatches(d.markers[actionId], a)
  }

  ghost predicate Consistent(d: Stores) {
    && (d.trusted ==> forall k :: 0 <= k < |d.entries| ==> SettledOnce(d, k))
    && (forall a :: a in d.reservations ==> Explained(d, a))
    && (d.trusted ==> forall i :: 0 <= i < |d.evidence| ==> AuthorizationClosed(d, i) && ReconciledEvidenceMarked(d, i))
    && (forall k :: 0 <= k < |d.approvals| ==> ApprovalSettled(d, d.approvals[k]))
    && (forall a :: a in d.markers ==> MarkerSound(d, a))
  }

  // ---------------------------------------------------------------------------
  // Silence is consistency
  // ---------------------------------------------------------------------------

  ghost predicate Harmless(issues: seq<Issue>) {
    forall i :: i in issues ==> !i.critical
  }

  lemma HarmlessParts(a: seq<Issue>, b: seq<Issue>)
    ensures Harmless(a + b) <==> Harmless(a) && Harmless(b)
  {
  }

  lemma HarmlessOne(i: Issue)
    ensures Harmless([i]) <==> !i.critical
  {
  }

  lemma EntryHarmless(d: Stores, k: nat)
    requires k < |d.entries|
    ensures Harmless(EntryIssues(d, k)) <==> SettledOnce(d, k)
  {
  }

  lemma {:induction false} MismatchHarmless(d: Stores, actionId: string, n: nat)
    requires n <= |d.approvals| && actionId in d.reservations
    ensures Harmless(MismatchIssues(d, actionId, n)) <==>
            forall k :: OfActive(d, k, actionId) && k < n ==> MatchesReservation(d.approvals[k], d.reservations[actionId])
  {
    hide Harmless, Active;
    if n > 0 {
      var a := d.approvals[n - 1];
      MismatchHarmless(d, actionId, n - 1);
      HarmlessOne(Issue(ReservationMismatch, true, a.id));
      HarmlessNone();
      HarmlessParts(MismatchIssues(d, actionId, n - 1),
        if OfActive(d, n - 1, actionId) && !MatchesReservation(a, d.reservations[actionId])
        then [Issue(ReservationMismatch, true, a.id)] else []);
    } else {
      HarmlessNone();
    }
  }

  lemma HarmlessNone()
    ensures Harmless([])
  {
  }

  lemma ReservationHarmless(d: Stores, actionId: string)
    requires actionId in d.reservations
    ensures Harmless(ReservationIssues(d, actionId)) <==> Explained(d, actionId)
  {
    hide HasOpen, OfAction, ExpectsUnbound, ExpectsTerminalOfAction, HasActiveApproval, Harmless, MismatchIssues;
    HarmlessNone();
    HarmlessOne(Issue(OrphanReservation, true, actionId));
    MismatchHarmless(d, actionId, |d.approvals|);
  }

  lemma AuthorizationHarmless(d: Stores, i: nat)
    requires i < |d.evidence|
    ensures Harmless(AuthorizationIssues(d, i)) <==> AuthorizationClosed(d, i)
    ensures Harmless(EvidenceIssues(d, i)) <==> ReconciledEvidenceMarked(d, i)
  {
  }

  lemma ConsumedHarmless(d: Stores, a: Approval)
    ensures Harmless(ConsumedIssues(d, a)) <==> (a.executionRecord != "" ==> ProvenBy(d, a))
  {
    hide ById, Harmless;
    HarmlessNone();
    HarmlessOne(Issue(ConsumedEvidenceMissing, true, a.id));
    HarmlessOne(Issue(ConsumedEvidenceMismatch, true, a.id));
    ByIdFinds(d.evidence, a.executionRecord);
  }

  lemma ApprovalHarmless(d: Stores, a: Approval)
    ensures Harmless(ApprovalIssues(d, a)) <==> ApprovalSettled(d, a)
  {
    hide Harmless, Accounted, Excused, ConsumedIssues, ProvenBy;
    var held := a.binding.actionId in d.reservations;
    var funded := if (a.status.Pending? || a.status.Approved?) && a.binding.reserved > 0 && !held
                  then [Issue(ActiveReservationMissing, true, a.id)] else [];
    var executing := if a.status.Executing? && a.binding.reserved > 0 && !Accounted(d, a)
                     then [Issue(ExecutingUnaccounted, true, a.id)] else [];
    var terminal := if Terminal(a) && held then [Issue(TerminalHasReservation, true, a.id)] else [];
    var consumed := if a.status.Consumed? && d.trusted then ConsumedIssues(d, a) else [];
    var marked := if !a.outcome.Unset? && a.binding.actionId !in d.markers
                  then [Issue(ReconciliationMarkerMissing, a.status.Consumed?, a.id)] else [];
    var rest := if Excused(d, a) then [] else terminal + consumed + marked;
    assert ApprovalIssues(d, a) == funded + executing + rest;
    HarmlessNone();
    HarmlessOne(Issue(ActiveReservationMissing, true, a.id));
    HarmlessOne(Issue(ExecutingUnaccounted, true, a.id));
    HarmlessOne(Issue(TerminalHasReservation, true, a.id));
    HarmlessOne(Issue(ReconciliationMarkerMissing, a.status.Consumed?, a.id));
    ConsumedHarmless(d, a);
    HarmlessParts(terminal, consumed);
    HarmlessParts(terminal + consumed, marked);
    HarmlessParts(funded, executing);
    HarmlessParts(funded + executing, rest);
  }

  lemma AuthorityFaultless(d: Stores, actionId: string, m: Marker)
    ensures AuthorityFault(d, actionId, m).None? <==> AuthorityAgrees(d, actionId, m)
  {
    hide ById, LastOutcome, OfAction, OutcomeMatches, OpenId, Exposure;
    ByIdFinds(d.evidence, m.authorityId);
    if AuthorityFault(d, actionId, m).None? {
      assert NamesAuthority(d, actionId, m, ById(d.evidence, m.authorityId).value);
    }
  }

  lemma MarkerHarmless(d: Stores, actionId: string)
    requires actionId in d.markers
    ensures Harmless(MarkerIssues(d, actionId)) <==> MarkerSound(d, actionId)
  {
    hide Harmless, FirstIntent, MarkerMatches, AuthorityFault, AuthorityAgrees;
    var approval := FirstIntent(d.approvals, actionId);
    var conflict := if actionId in d.reservations then [Issue(MarkerReservationConflict, true, actionId)] else [];
    var fault := AuthorityFault(d, actionId, d.markers[actionId]);
    var rest :=
      if approval.None? then
        if d.markers[actionId].byAuthorization then
          if fault.Some? then [Issue(fault.value, true, actionId)] else []
        else [Issue(OrphanMarker, true, actionId)]
      else if !MarkerMatches(d.markers[actionId], approval.value) then [Issue(MarkerMismatch, true, actionId)]
      else [];
    assert MarkerIssues(d, actionId) == conflict + rest;
    HarmlessNone();
    HarmlessOne(Issue(MarkerReservationConflict, true, actionId));
    if fault.Some? {
      HarmlessOne(Issue(fault.value, true, actionId));
    }
    AuthorityFaultless(d, actionId, d.markers[actionId]);
    HarmlessOne(Issue(OrphanMarker, true, actionId));
    HarmlessOne(Issue(MarkerMismatch, true, actionId));
    HarmlessParts(conflict, rest);
  }

  /** The audit adds no critical issue exactly when the stores are consistent. */
  lemma SilentIffConsistent(d: Stores)
    ensures Silent(d) <==> Consistent(d)
  {
    hide EntryIssues, ReservationIssues, AuthorizationIssues, ApprovalIssues, EvidenceIssues, MarkerIssues,
      SettledOnce, Explained, AuthorizationClosed, ReconciledEvidenceMarked, ApprovalSettled, MarkerSound;
    forall k | 0 <= k < |d.entries|
      ensures Harmless(EntryIssues(d, k)) <==> SettledOnce(d, k)
    {
      EntryHarmless(d, k);
    }
    forall a | a in d.reservations
      ensures Harmless(ReservationIssues(d, a)) <==> Explained(d, a)
    {
      ReservationHarmless(d, a);
    }
    forall i | 0 <= i < |d.evidence|
      ensures Harmless(AuthorizationIssues(d, i)) <==> AuthorizationClosed(d, i)
      ensures Harmless(EvidenceIssues(d, i)) <==> ReconciledEvidenceMarked(d, i)
    {
      AuthorizationHarmless(d, i);
    }
    forall k | 0 <= k < |d.approvals|
      ensures Harmless(ApprovalIssues(d, d.approvals[k])) <==> ApprovalSettled(d, d.approvals[k])
    {
      ApprovalHarmless(d, d.approvals[k]);
    }
    forall a | a in d.markers
      ensures Harmless(MarkerIssues(d, a)) <==> MarkerSound(d, a)
    {
      MarkerHarmless(d, a);
    }
    if Silent(d) {
      SilentParts(d);
    }
    if Consistent(d) {
      ConsistentParts(d);
    }
  }

  ghost predicate AllHarmless(d: Stores) {
    && (d.trusted ==> forall k :: 0 <= k < |d.entries| ==> Harmless(EntryIssues(d, k)))
    && (forall a :: a in d.reservations ==> Harmless(ReservationIssues(d, a)))
    && (d.trusted ==> forall i :: 0 <= i < |d.evidence| ==> Harmless(AuthorizationIssues(d, i)))
    && (d.trusted ==> forall i :: 0 <= i < |d.evidence| ==> Harmless(EvidenceIssues(d, i)))
    && (forall k :: 0 <= k < |d.approvals| ==> Harmless(ApprovalIssues(d, d.approvals[k])))
    && (forall a :: a in d.markers ==> Harmless(MarkerIssues(d, a)))
  }

  lemma SilentParts(d: Stores)
    requires Silent(d)
    ensures AllHarmless(d)
  {
    hide EntryIssues, ReservationIssues, AuthorizationIssues, ApprovalIssues, EvidenceIssues, MarkerIssues, Finding;
    forall k | d.trusted && 0 <= k < |d.entries|
      ensures Harmless(EntryIssues(d, k))
    {
      forall i | i in EntryIssues(d, k) ensures Finding(d, i) { EntryFinding(d, k, i); }
    }
    forall a | a in d.reservations
      ensures Harmless(ReservationIssues(d, a))
    {
      forall i | i in ReservationIssues(d, a) ensures Finding(d, i) { ReservationFinding(d, a, i); }
    }
    forall k | d.trusted && 0 <= k < |d.evidence|
      ensures Harmless(AuthorizationIssues(d, k)) && Harmless(EvidenceIssues(d, k))
    {
      forall i | i in AuthorizationIssues(d, k) || i in EvidenceIssues(d, k) ensures Finding(d, i) { EvidenceFinding(d, k, i); }
    }
    forall k | 0 <= k < |d.approvals|
      ensures Harmless(ApprovalIssues(d, d.approvals[k]))
    {
      forall i | i in ApprovalIssues(d, d.approvals[k]) ensures Finding(d, i) { ApprovalFinding(d, k, i); }
    }
    forall a | a in d.markers
      ensures Harmless(MarkerIssues(d, a))
    {
      forall i | i in MarkerIssues(d, a) ensures Finding(d, i) { MarkerFinding(d, a, i); }
    }
  }

  lemma EntryFinding(d: Stores, k: nat, i: Issue)
    requires d.trusted && k < |d.entries| && i in EntryIssues(d, k)
    ensures Finding(d, i)
  {
    assert FoundInEntries(d, |d.entries|, i);
  }

  lemma ReservationFinding(d: Stores, a: string, i: Issue)
    requires a in d.reservations && i in ReservationIssues(d, a)
    ensures Finding(d, i)
  {
    assert FoundInReservations(d, d.reservations.Keys, i);
  }

  lemma EvidenceFinding(d: Stores, k: nat, i: Issue)
    requires d.trusted && k < |d.evidence| && (i in AuthorizationIssues(d, k) || i in EvidenceIssues(d, k))
    ensures Finding(d, i)
  {
    assert FoundInAuthorizations(d, |d.evidence|, i) || FoundInEvidence(d, |d.evidence|, i);
  }

  lemma ApprovalFinding(d: Stores, k: nat, i: Issue)
    requires k < |d.approvals| && i in ApprovalIssues(d, d.approvals[k])
    ensures Finding(d, i)
  {
    assert FoundInApprovals(d, |d.approvals|, i);
  }

  lemma MarkerFinding(d: Stores, a: string, i: Issue)
    requires a in d.markers && i in MarkerIssues(d, a)
    ensures Finding(d, i)
  {
    assert FoundInMarkers(d, d.markers.Keys, i);
  }

  lemma ConsistentParts(d: Stores)
    requires AllHarmless(d)
    ensures Silent(d)
  {
    hide EntryIssues, ReservationIssues, AuthorizationIssues, ApprovalIssues, EvidenceIssues, MarkerIssues;
  }

  // ---------------------------------------------------------------------------
  // What a silent audit guarantees
  // ---------------------------------------------------------------------------

  /** Budget side: every reservation is explained, none is left on a reconciled action, and every funded approval holds its own. */
  lemma SilentBudget(d: Stores, actionId: string)
    requires Silent(d) && HashDeterminesAction(d.evidence)
    ensures actionId in d.reservations ==> actionId !in d.markers
    ensures actionId in d.reservations && !HasActiveApproval(d, actionId) ==>
              var r := d.reservations[actionId];
              || (d.trusted && OpenSomewhere(d.evidence, actionId, r.requestId))
              || ExpectsUnbound(d.journal, actionId, r) || ExpectsTerminalOfAction(d, actionId, r)
    ensures forall k :: OfActive(d, k, actionId) && actionId in d.reservations ==>
              MatchesReservation(d.approvals[k], d.reservations[actionId])
    ensures forall k :: OfActive(d, k, actionId) && !d.approvals[k].status.Executing? && d.approvals[k].binding.reserved > 0 ==>
              actionId in d.reservations
  {
    SilentIffConsistent(d);
    hide HasOpen, OfAction, ExpectsUnbound, ExpectsTerminalOfAction, SettledOnce, AuthorizationClosed, Accounted, ProvenBy,
      HashDeterminesAction, OpenSomewhere, Silent;
    if actionId in d.reservations {
      assert Explained(d, actionId);
      OpenTestsAgree(d.evidence, actionId, d.reservations[actionId].requestId);
      assert actionId in d.markers ==> MarkerSound(d, actionId);
    }
    forall k | OfActive(d, k, actionId)
      ensures actionId in d.reservations ==> MatchesReservation(d.approvals[k], d.reservations[actionId])
      ensures !d.approvals[k].status.Executing? && d.approvals[k].binding.reserved > 0 ==> actionId in d.reservations
    {
      assert ApprovalSettled(d, d.approvals[k]);
      assert HasActiveApproval(d, actionId);
    }
  }

  /**
   Evidence side: every consumed approval names terminal evidence with its own binding, unless the journal still
   explains a reservation it holds, and no completion is settled twice.
   */
  lemma SilentEvidence(d: Stores, k: nat)
    requires Silent(d) && d.trusted && k < |d.approvals|
    requires RecordOk(d.approvals[k]) && d.approvals[k].status.Consumed?
    ensures Excused(d, d.approvals[k]) ||
            exists e :: e in d.evidence && e.id == d.approvals[k].executionRecord && IsTerminal(e.status)
                        && e.actionId == d.approvals[k].binding.actionId && e.requestId == d.approvals[k].binding.requestId
                        && e.authorizationHash == d.approvals[k].binding.authorizationHash
  {
    SilentIffConsistent(d);
    hide HasOpen, OfAction, SettledOnce, AuthorizationClosed, Accounted, Silent, Explained;
    assert ApprovalSettled(d, d.approvals[k]);
    ByIdFinds(d.evidence, d.approvals[k].executionRecord);
  }

  /** The last outcome is one of the terminal records of the authorization, and none is found only where there is none. */
  lemma {:induction false} LastOutcomeFinds(records: seq<Evidence>, hash: Hash)
    ensures LastOutcome(records, hash).Some? <==> TerminalFor(records, hash)
    ensures LastOutcome(records, hash).Some? ==>
              var t := LastOutcome(records, hash).value;
              t in records && t.authorizationHash == hash && IsTerminal(t.status)
  {
    if records != [] {
      var (most, last) := (records[..|records| - 1], records[|records| - 1]);
      LastOutcomeFinds(most, hash);
      assert records == most + [last];
      assert forall j :: 0 <= j < |most| ==> records[j] == most[j];
    }
  }

  /**
   Operator side: a reconciliation that no approval carries is one of a sealed, approval-free authorization of the same
   action, request and exposure. Either some terminal evidence of that authorization records the same outcome, operator
   and note, or the authorization is still open and the journal holds the operation that will close it.
   */
  lemma SilentReconciliation(d: Stores, actionId: string)
    requires Silent(d) && actionId in d.markers && FirstIntent(d.approvals, actionId).None?
    ensures var m := d.markers[actionId];
            exists authority ::
              && NamesAuthority(d, actionId, m, authority)
              && (|| (exists t :: t in d.evidence && t.actionId == actionId && t.authorizationHash == authority.authorizationHash
                                  && OutcomeMatches(d, m, authority, t))
                  || (&& !TerminalFor(OfAction(d.evidence, actionId), authority.authorizationHash)
                      && OpenId(d.evidence, m.authorityId) && d.journal == Reconciles(m.authorityId)))
  {
    SilentIffConsistent(d);
    hide Silent, SettledOnce, Explained, AuthorizationClosed, ReconciledEvidenceMarked, ApprovalSettled, FirstIntent,
      MarkerMatches, OutcomeMatches, NamesAuthority, OpenId, TerminalFor, LastOutcome, OfAction;
    var m := d.markers[actionId];
    assert MarkerSound(d, actionId);
    var authority :|
      && NamesAuthority(d, actionId, m, authority)
      && match LastOutcome(OfAction(d.evidence, actionId), authority.authorizationHash)
         case Some(t) => OutcomeMatches(d, m, authority, t)
         case None => d.journal.Reconciles? && d.journal.authorityId == m.authorityId && OpenId(d.evidence, m.authorityId);
    LastOutcomeFinds(OfAction(d.evidence, actionId), authority.authorizationHash);
    var last := LastOutcome(OfAction(d.evidence, actionId), authority.authorizationHash);
    if last.Some? {
      OfActionMembers(d.evidence, actionId, last.value);
    }
  }

  /** Stores with one approval that holds its reservation, no evidence, and a journal that is about to terminate it. */
  function Excusing(a: Approval): Stores {
    Stores([], true, [a], map[a.binding.actionId := Reservation(a.binding.requestId, a.binding.reserved)], map[], [],
           Terminates(a.id, a.binding.actionId, a.binding.requestId, a.binding.reserved))
  }

  /** The exception is real: any consumed approval can stand there without its evidence, and the audit is silent. */
  lemma ExcusedNeedsNoEvidence(a: Approval)
    requires RecordOk(a) && a.status.Consumed?
    ensures Silent(Excusing(a)) && Excusing(a).trusted && Excused(Excusing(a), a)
    ensures a.executionRecord != "" && !exists e :: e in Excusing(a).evidence && e.id == a.executionRecord
  {
    var d := Excusing(a);
    SilentIffConsistent(d);
    hide Silent, BindingOk;
    assert d.approvals[0] == a;
    assert ExpectsTerminal(d.journal, a, d.reservations[a.binding.actionId]);
    assert ApprovalSettled(d, a);
    assert ExpectsTerminalOfAction(d, a.binding.actionId, d.reservations[a.binding.actionId]);
    assert Explained(d, a.binding.actionId);
  }

  /** No terminal evidence is settled by two budget entries, and each settlement agrees with what it names. */
  lemma SettledAtMostOnce(d: Stores, j: nat, k: nat)
    requires Silent(d) && d.trusted && j < k < |d.entries|
    ensures d.entries[j].completion == d.entries[k].completion ==> d.entries[k].completion == ""
    ensures var entry := d.entries[k];
            entry.completion != "" ==>
              PreparedBy(d.journal, entry)
              || exists e :: e in d.evidence && e.id == entry.completion && (e.status.DidSucceed? || e.status.DidFail?)
                             && Settles(e, entry) && entry.kind.Debit?
  {
    SilentIffConsistent(d);
    hide HasOpen, OfAction, ApprovalSettled, AuthorizationClosed, Accounted, Silent, Explained;
    assert SettledOnce(d, k);
    ByIdFinds(d.evidence, d.entries[k].completion);
  }
}
