/**
 The coordinated publication of authority stores (`authority_publication.py`) and its ratchet
 (`authority_publication_continuity.py`): a write-ahead intent, a sealed checkpoint, and an anchor in a second file.
 Each file is an optional value and each atomic write one step; a crash stops between two steps.
 */
module AuthorityPublication {
  import opened Wrappers

  type Hash = int
  type Time = int

  datatype StoreName =
    | StateStorage | ControlPlaneIsolation | WorkspaceIntegrity | EvidenceWitnessPolicy
    | RuntimeArtifacts | LaunchEnvelope | EvidenceHead

  /** One hash for each store; only the runtime artifacts and the launch envelope may be absent. */
  type Commitments = map<StoreName, Option<Hash>>

  predicate CommitmentsOk(m: Commitments) {
    && m.Keys == {StateStorage, ControlPlaneIsolation, WorkspaceIntegrity, EvidenceWitnessPolicy,
                  RuntimeArtifacts, LaunchEnvelope, EvidenceHead}
    && forall name :: name in m && m[name].None? ==> name.RuntimeArtifacts? || name.LaunchEnvelope?
  }

  /** The checkpoint before a record: none, or one named by its record hash. */
  datatype Link = Genesis | To(hash: Hash)

  /** `0.1.0` to `0.6.0`: stores are committed from V2, checkpoint stores from V3, records sealed from V4, linked from V5. */
  datatype Version = V1 | V2 | V3 | V4 | V5 | V6

  predicate Linked(v: Version) { v.V5? || v.V6? }

  predicate Sealed(v: Version) { v.V4? || Linked(v) }

  datatype Intent = Intent(
    profile: Hash, generation: int, manifest: Hash, preparedAt: Time,
    stores: Option<Commitments>, prior: Option<Link>, record: Option<Hash>)

  datatype Checkpoint = Checkpoint(
    profile: Hash, generation: int, manifest: Hash, completedAt: Time,
    stores: Option<Commitments>, preparedAt: Option<Time>, prior: Option<Link>, intentRecord: Option<Hash>,
    record: Option<Hash>)

  datatype State = State(active: Option<Intent>, completed: Option<Checkpoint>, version: Version, sequence: Option<int>)

  datatype Anchor = Anchor(sequence: int, checkpoint: Hash, prior: Link, anchoredAt: Time, record: Hash)

  /** The fields a linked record is hashed with, beyond those of the versions before. */
  datatype Transition = NoTransition | Transition(preparedAt: Option<Time>, prior: Option<Link>, intentRecord: Option<Hash>)

  /** What `sha256_of` is applied to. */
  datatype Body =
    | IntentBody(profile: Hash, generation: int, manifest: Hash, preparedAt: Time, stores: Option<Commitments>,
                 transition: Transition)
    | CheckpointBody(profile: Hash, generation: int, manifest: Hash, completedAt: Time, stores: Option<Commitments>,
                     transition: Transition)
    | AnchorBody(sequence: int, checkpoint: Hash, prior: Link, anchoredAt: Time)

  // ---------------------------------------------------------------------------
  // Records
  // ---------------------------------------------------------------------------

  function IntentHash(sha: Body -> Hash, i: Intent, v: Version): Hash {
    sha(IntentBody(i.profile, i.generation, i.manifest, i.preparedAt, i.stores,
                   if Linked(v) then Transition(None, i.prior, None) else NoTransition))
  }

  function CheckpointHash(sha: Body -> Hash, c: Checkpoint, v: Version): Hash {
    sha(CheckpointBody(c.profile, c.generation, c.manifest, c.completedAt, c.stores,
                       if Linked(v) then Transition(c.preparedAt, c.prior, c.intentRecord) else NoTransition))
  }

  /** `AuthorityPublicationIntent.from_dict` accepts the record. */
  predicate IntentOk(sha: Body -> Hash, i: Intent, v: Version) {
    && i.generation >= 1
    && (if v.V1? then i.stores.None? else i.stores.Some? && CommitmentsOk(i.stores.value))
    && (i.prior.Some? <==> Linked(v))
    && (if Sealed(v) then i.record == Some(IntentHash(sha, i, v)) else i.record.None?)
  }

  /** `AuthorityPublicationCheckpoint.from_dict` accepts the record. */
  predicate CheckpointOk(sha: Body -> Hash, c: Checkpoint, v: Version) {
    && c.generation >= 1
    && (c.stores.Some? ==> CommitmentsOk(c.stores.value) && !v.V1? && !v.V2?)
    && (Linked(v) || (c.preparedAt.None? && c.prior.None? && c.intentRecord.None?))
    && (c.preparedAt.Some? <==> c.prior.Some?) && (c.prior.Some? <==> c.intentRecord.Some?)
    && (if Sealed(v) then c.record == Some(CheckpointHash(sha, c, v)) else c.record.None?)
    && (c.intentRecord.Some? ==> c.stores.Some? && c.intentRecord == Some(OriginatingIntent(sha, c)))
  }

  /** `expected_intent_record_hash`. */
  function OriginatingIntent(sha: Body -> Hash, c: Checkpoint): Hash
    requires c.preparedAt.Some?
  {
    IntentHash(sha, Intent(c.profile, c.generation, c.manifest, c.preparedAt.value, c.stores, c.prior, None), V6)
  }

  /** `AuthorityPublicationIntent.matches`. */
  predicate Matches(i: Intent, profile: Hash, generation: int, manifest: Hash, stores: Option<Commitments>) {
    && i.profile == profile && i.generation == generation && i.manifest == manifest
    && (stores.None? || i.stores.None? || i.stores == stores)
  }

  function PriorOf(completed: Option<Checkpoint>): Option<Link> {
    match completed
    case None => Some(Genesis)
    case Some(c) => if c.record.Some? then Some(To(c.record.value)) else None
  }

  /** `AuthorityPublicationState.from_dict` accepts the state. */
  predicate StateOk(sha: Body -> Hash, s: State) {
    && (s.sequence.Some? <==> s.version.V6?) && (s.sequence.Some? ==> s.sequence.value >= 0)
    && (s.active.Some? ==> IntentOk(sha, s.active.value, s.version))
    && (s.completed.Some? ==> CheckpointOk(sha, s.completed.value, s.version))
    && (s.active.Some? || s.completed.Some?)
    && (!s.version.V1? && !s.version.V2? && s.active.None? ==> s.completed.value.stores.Some?)
    && (Linked(s.version) && s.active.Some? ==> s.active.value.prior == PriorOf(s.completed))
    && (s.active.Some? && s.completed.Some? ==>
          var (i, c) := (s.active.value, s.completed.value);
          || i.generation == c.generation + 1
          || (i.generation == c.generation && Matches(i, c.profile, c.generation, c.manifest, c.stores)))
    && (s.sequence.Some? && s.sequence.value > 0 ==> s.completed.Some?)
    && (s.sequence == Some(0) && s.completed.Some? ==> s.completed.value.intentRecord.None?)
  }

  function SealIntent(sha: Body -> Hash, i: Intent): Intent {
    i.(record := Some(IntentHash(sha, i, V6)))
  }

  function SealCheckpoint(sha: Body -> Hash, c: Checkpoint): Checkpoint {
    c.(record := Some(CheckpointHash(sha, c, V6)))
  }

  function AnchorHash(sha: Body -> Hash, a: Anchor): Hash {
    sha(AnchorBody(a.sequence, a.checkpoint, a.prior, a.anchoredAt))
  }

  predicate AnchorOk(sha: Body -> Hash, a: Anchor) {
    a.sequence >= 1 && a.record == AnchorHash(sha, a)
  }

  // ---------------------------------------------------------------------------
  // The ratchet
  // ---------------------------------------------------------------------------

  datatype Verdict = NotRecorded | LegacyUnavailable | Verified | ForwardRecovery | Missing | Rollback | Diverged

  /** `assess_authority_publication_continuity`. */
  function Assess(state: Option<State>, anchor: Option<Anchor>): Verdict {
    if state.None? then if anchor.None? then NotRecorded else Diverged
    else if state.value.sequence.None? then if anchor.None? then LegacyUnavailable else Diverged
    else
      var sequence := state.value.sequence.value;
      if sequence == 0 then
        if anchor.Some? then Diverged else if state.value.completed.None? then Verified else LegacyUnavailable
      else if state.value.completed.None? || state.value.completed.value.record.None? || state.value.completed.value.prior.None?
      then Diverged
      else
        var (record, prior) := (state.value.completed.value.record.value, state.value.completed.value.prior.value);
        if anchor.None? then if sequence == 1 then ForwardRecovery else Missing
        else if sequence == anchor.value.sequence then
          if record == anchor.value.checkpoint && prior == anchor.value.prior then Verified else Diverged
        else if sequence == anchor.value.sequence + 1 && prior == To(anchor.value.checkpoint) then ForwardRecovery
        else if sequence < anchor.value.sequence then Rollback
        else Diverged
  }

  /** `AuthorityPublicationContinuityStore.advance`: the anchor afterwards, written only if it differs. */
  function Advance(sha: Body -> Hash, anchor: Option<Anchor>, sequence: int, checkpoint: Hash, prior: Link, now: Time)
    : Option<Anchor>
  {
    var bare := Anchor(sequence, checkpoint, prior, now, 0);
    var candidate := bare.(record := AnchorHash(sha, bare));
    match anchor
    case None => if sequence == 1 then Some(candidate) else None
    case Some(current) =>
      if !AnchorOk(sha, current) || sequence < 1 then None
      else if current.sequence == sequence && current.checkpoint == checkpoint && current.prior == prior then Some(current)
      else if sequence == current.sequence + 1 && prior == To(current.checkpoint) then Some(candidate)
      else None
  }

  /** `_advance_continuity`. */
  function AdvanceTo(sha: Body -> Hash, anchor: Option<Anchor>, c: Checkpoint, sequence: int, now: Time): Option<Anchor> {
    if c.record.None? || c.prior.None? then None else Advance(sha, anchor, sequence, c.record.value, c.prior.value, now)
  }

  // ---------------------------------------------------------------------------
  // Operations, as the durable states they pass through
  // ---------------------------------------------------------------------------

  datatype Disk = Disk(publication: Option<State>, anchor: Option<Anchor>)

  datatype Outcome<+T> = Done(value: T) | Refused | Crashed

  /** The disk after each write in turn, and how the call ends if nothing stops it. */
  datatype Attempt<+T> = Attempt(writes: seq<Disk>, outcome: Outcome<T>)

  /** What a call leaves behind when it may make only so many writes. */
  function Survives<T>(disk: Disk, attempt: Attempt<T>, fuse: nat): Disk {
    if attempt.writes == [] || fuse == 0 then disk
    else attempt.writes[(if fuse < |attempt.writes| then fuse else |attempt.writes|) - 1]
  }

  /** Both files hold records that their readers accept. */
  predicate Readable(sha: Body -> Hash, d: Disk) {
    (d.publication.Some? ==> StateOk(sha, d.publication.value)) && (d.anchor.Some? ==> AnchorOk(sha, d.anchor.value))
  }

  const EMPTY := State(None, None, V6, Some(0))

  /** `_recover_continuity_if_required`: the anchor it leaves, or a refusal. */
  function Recover(sha: Body -> Hash, state: State, anchor: Option<Anchor>, now: Time): Result<Option<Anchor>, Verdict> {
    match Assess(Some(state), anchor)
    case ForwardRecovery =>
      (match AdvanceTo(sha, anchor, state.completed.value, state.sequence.value, now)
       case None => Err(Diverged)
       case Some(a) => Ok(Some(a)))
    case Verified => Ok(anchor)
    case LegacyUnavailable => Ok(anchor)
    case verdict => Err(verdict)
  }

  datatype Request = Request(profile: Hash, generation: int, manifest: Hash, stores: Commitments)

  /** The sequence a new intent is written with, and whether an anchor must be started for it. */
  function StartingSequence(state: State, completed: Option<Checkpoint>): (int, bool) {
    if state.sequence.Some? then (state.sequence.value, false)
    else if completed.Some? && completed.value.record.Some? && completed.value.prior.Some? then (1, true)
    else (0, false)
  }

  function PrepareAttempt(sha: Body -> Hash, disk: Disk, request: Request, now: Time): Attempt<Intent> {
    if request.generation < 1 || !CommitmentsOk(request.stores) || !Readable(sha, disk) then Attempt([], Refused)
    else
      var state := if disk.publication.Some? then disk.publication.value else EMPTY;
      match Recover(sha, state, disk.anchor, now)
      case Err(_) => Attempt([], Refused)
      case Ok(anchor) =>
        var recovered := disk.(anchor := anchor);
        var writes := if anchor == disk.anchor then [] else [recovered];
        if state.active.Some? then
          Attempt(writes,
            if Matches(state.active.value, request.profile, request.generation, request.manifest, Some(request.stores))
            then Done(state.active.value) else Refused)
        else
          var completed := if state.completed.None? then None else Some(SealCheckpoint(sha, state.completed.value));
          var (sequence, initialize) := StartingSequence(state, completed);
          var intent := SealIntent(sha, Intent(request.profile, request.generation, request.manifest, now,
                                               Some(request.stores), PriorOf(completed), None));
          var next := State(Some(intent), completed, V6, Some(sequence));
          if !StateOk(sha, next) then Attempt(writes, Refused)
          else
            var written := writes + [recovered.(publication := Some(next))];
            if !initialize then Attempt(written, Done(intent))
            else
              match AdvanceTo(sha, anchor, completed.value, sequence, now)
              case None => Attempt(written, Refused)
              case Some(a) => Attempt(written + [Disk(Some(next), Some(a))], Done(intent))
  }

  /** The version whose rules a caller's intent is checked by. */
  function IntentVersion(i: Intent): Version {
    if i.prior.Some? then V6 else if i.record.Some? then V4 else if i.stores.Some? then V3 else V1
  }

  predicate CompletionMatches(active: Intent, expected: Intent) {
    && active.profile == expected.profile && active.generation == expected.generation
    && active.manifest == expected.manifest && active.preparedAt == expected.preparedAt
    && (active.stores.Some? ==> active.stores == expected.stores)
    && (active.record.Some? ==> active.record == expected.record)
    && (active.prior.Some? ==> active.prior == expected.prior)
  }

  function CheckpointFor(sha: Body -> Hash, expected: Intent, now: Time): Checkpoint {
    var linked := expected.prior.Some?;
    SealCheckpoint(sha, Checkpoint(
      expected.profile, expected.generation, expected.manifest, now, expected.stores,
      if linked then Some(expected.preparedAt) else None, expected.prior,
      if linked then expected.record else None, None))
  }

  function CompleteAttempt(sha: Body -> Hash, disk: Disk, expected: Intent, now: Time): Attempt<State> {
    if !IntentOk(sha, expected, IntentVersion(expected)) || !Readable(sha, disk) then Attempt([], Refused)
    else if disk.publication.None? || disk.publication.value.active.None? then Attempt([], Refused)
    else
      var state := disk.publication.value;
      match Recover(sha, state, disk.anchor, now)
      case Err(_) => Attempt([], Refused)
      case Ok(anchor) =>
        var recovered := disk.(anchor := anchor);
        var writes := if anchor == disk.anchor then [] else [recovered];
        if !CompletionMatches(state.active.value, expected) || expected.stores.None? then Attempt(writes, Refused)
        else
          var checkpoint := CheckpointFor(sha, expected, now);
          var sequence := if checkpoint.prior.Some? then (if state.sequence.Some? then state.sequence.value else 0) + 1 else 0;
          var next := State(None, Some(checkpoint), V6, Some(sequence));
          if !StateOk(sha, next) then Attempt(writes, Refused)
          else
            var written := writes + [recovered.(publication := Some(next))];
            if sequence <= 0 then Attempt(written, Done(next))
            else
              match AdvanceTo(sha, anchor, checkpoint, sequence, now)
              case None => Attempt(written, Refused)
              case Some(a) => Attempt(written + [Disk(Some(next), Some(a))], Done(next))
  }

  // ---------------------------------------------------------------------------
  // The store
  // ---------------------------------------------------------------------------

  /** `AuthorityPublicationStore` over its two files; `fuse` is how many writes happen before a crash. */
  class PublicationStore {
    const sha: Body -> Hash
    var publication: Option<State>
    var anchor: Option<Anchor>

    constructor (digest: Body -> Hash, publication: Option<State>, anchor: Option<Anchor>)
      ensures sha == digest && Files() == Disk(publication, anchor)
    {
      sha := digest;
      this.publication := publication;
      this.anchor := anchor;
    }

    function Files(): Disk
      reads this
    {
      Disk(publication, anchor)
    }

    method RecoverContinuity(state: State, now: Time, fuse: nat) returns (outcome: Outcome<()>, left: nat)
      requires Readable(sha, Files())
      modifies this`anchor
      ensures var r := Recover(sha, state, old(anchor), now);
              var wrote := r.Ok? && r.value != old(anchor);
              && (outcome.Refused? <==> r.Err?)
              && (outcome.Crashed? <==> wrote && fuse == 0)
              && anchor == (if wrote && fuse > 0 then r.value else old(anchor))
              && left == (if wrote && fuse > 0 then fuse - 1 else fuse)
    {
      left := fuse;
      var verification := Assess(Some(state), anchor);
      if verification.ForwardRecovery? {
        var advanced := AdvanceTo(sha, anchor, state.completed.value, state.sequence.value, now);
        if advanced.None? {
          return Refused, left;
        }
        if advanced != anchor {
          if fuse == 0 {
            return Crashed, left;
          }
          anchor := advanced;
          left := fuse - 1;
        }
        return Done(()), left;
      }
      if !verification.Verified? && !verification.LegacyUnavailable? {
        return Refused, left;
      }
      return Done(()), left;
    }

    method Prepare(request: Request, now: Time, fuse: nat) returns (outcome: Outcome<Intent>)
      modifies this
      ensures var attempt := PrepareAttempt(sha, old(Files()), request, now);
              && Files() == Survives(old(Files()), attempt, fuse)
              && outcome == if fuse < |attempt.writes| then Crashed else attempt.outcome
    {
      hide StateOk, IntentOk, CheckpointOk, Assess, AdvanceTo, CommitmentsOk, SealCheckpoint, SealIntent, CheckpointFor, Matches,
        CompletionMatches, PriorOf;
      if request.generation < 1 || !CommitmentsOk(request.stores) || !Readable(sha, Files()) {
        return Refused;
      }
      var state := if publication.Some? then publication.value else EMPTY;
      var recovery, left := RecoverContinuity(state, now, fuse);
      if !recovery.Done? {
        return if recovery.Crashed? then Crashed else Refused;
      }
      if state.active.Some? {
        return if Matches(state.active.value, request.profile, request.generation, request.manifest, Some(request.stores))
               then Done(state.active.value) else Refused;
      }
      var completed := if state.completed.None? then None else Some(SealCheckpoint(sha, state.completed.value));
      var (sequence, initialize) := StartingSequence(state, completed);
      var intent := SealIntent(sha, Intent(request.profile, request.generation, request.manifest, now,
                                           Some(request.stores), PriorOf(completed), None));
      var next := State(Some(intent), completed, V6, Some(sequence));
      if !StateOk(sha, next) {
        return Refused;
      }
      if left == 0 {
        return Crashed;
      }
      publication := Some(next);
      if initialize {
        var advanced := AdvanceTo(sha, anchor, completed.value, sequence, now);
        if advanced.None? {
          return Refused;
        }
        if left == 1 {
          return Crashed;
        }
        anchor := advanced;
      }
      return Done(intent);
    }

    method Complete(expected: Intent, now: Time, fuse: nat) returns (outcome: Outcome<State>)
      modifies this
      ensures var attempt := CompleteAttempt(sha, old(Files()), expected, now);
              && Files() == Survives(old(Files()), attempt, fuse)
              && outcome == if fuse < |attempt.writes| then Crashed else attempt.outcome
    {
      hide StateOk, IntentOk, CheckpointOk, Assess, AdvanceTo, CommitmentsOk, SealCheckpoint, SealIntent, CheckpointFor, Matches,
        CompletionMatches;
      if !IntentOk(sha, expected, IntentVersion(expected)) || !Readable(sha, Files()) {
        return Refused;
      }
      if publication.None? || publication.value.active.None? {
        return Refused;
      }
      var state := publication.value;
      var recovery, left := RecoverContinuity(state, now, fuse);
      if !recovery.Done? {
        return if recovery.Crashed? then Crashed else Refused;
      }
      if !CompletionMatches(state.active.value, expected) || expected.stores.None? {
        return Refused;
      }
      var checkpoint := CheckpointFor(sha, expected, now);
      var sequence := if checkpoint.prior.Some? then (if state.sequence.Some? then state.sequence.value else 0) + 1 else 0;
      var next := State(None, Some(checkpoint), V6, Some(sequence));
      if !StateOk(sha, next) {
        return Refused;
      }
      if left == 0 {
        return Crashed;
      }
      publication := Some(next);
      if sequence > 0 {
        var advanced := AdvanceTo(sha, anchor, checkpoint, sequence, now);
        if advanced.None? {
          return Refused;
        }
        if left == 1 {
          return Crashed;
        }
        anchor := advanced;
      }
      return Done(next);
    }
  }
}
