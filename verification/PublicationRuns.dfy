/**
 Safety of publication over whole runs: every interleaving of `prepare` and `complete` with crashes between the two
 file writes, what the ratchet says of any two files of a run, and of files from two runs that have forked.
 */
module PublicationRuns {
  import opened AuthorityPublication
  import opened Wrappers

  // ---------------------------------------------------------------------------
  // The crash invariant
  // ---------------------------------------------------------------------------

  /** The files can be read and the ratchet finds nothing it would refuse. */
  predicate Sound(sha: Body -> Hash, d: Disk) {
    Readable(sha, d) && Assess(d.publication, d.anchor) in {NotRecorded, LegacyUnavailable, Verified, ForwardRecovery}
  }

  /** An empty store, or a valid state of an earlier version, without an anchor. */
  predicate Initial(sha: Body -> Hash, d: Disk) {
    d.anchor.None? && Readable(sha, d) && (d.publication.Some? ==> d.publication.value.sequence.None?)
  }

  /** A call to the store, and how many writes it may make before the process dies. */
  datatype Call =
    | Preparing(request: Request, now: Time, fuse: nat)
    | Completing(expected: Intent, now: Time, fuse: nat)

  function Writes(sha: Body -> Hash, d: Disk, call: Call): seq<Disk> {
    match call
    case Preparing(request, now, _) => PrepareAttempt(sha, d, request, now).writes
    case Completing(expected, now, _) => CompleteAttempt(sha, d, expected, now).writes
  }

  /** The disk after a call, as the methods of the store leave it. */
  function After(sha: Body -> Hash, d: Disk, call: Call): Disk {
    match call
    case Preparing(request, now, fuse) => Survives(d, PrepareAttempt(sha, d, request, now), fuse)
    case Completing(expected, now, fuse) => Survives(d, CompleteAttempt(sha, d, expected, now), fuse)
  }

  lemma AfterIsWritten(sha: Body -> Hash, d: Disk, call: Call)
    ensures After(sha, d, call) == d || After(sha, d, call) in Writes(sha, d, call)
  {
  }

  /** The continuity sequence, zero where none is recorded. */
  function SequenceOf(d: Disk): int {
    if d.publication.Some? && d.publication.value.sequence.Some? then d.publication.value.sequence.value else 0
  }

  /** What anchors and linked checkpoints say of a position in the chain. */
  datatype Mark = Mark(record: Hash, prior: Link)

  function MarkOf(d: Disk): Option<Mark> {
    if SequenceOf(d) > 0 && d.publication.value.completed.Some? && d.publication.value.completed.value.record.Some?
       && d.publication.value.completed.value.prior.Some?
    then Some(Mark(d.publication.value.completed.value.record.value, d.publication.value.completed.value.prior.value))
    else None
  }

  /** Some writes later: the same position, or one further linked to the last, and an anchor at one of the two. */
  predicate Step(d: Disk, next: Disk) {
    && (|| (SequenceOf(next) == SequenceOf(d) && (SequenceOf(d) > 0 ==> MarkOf(next) == MarkOf(d)))
        || (SequenceOf(next) == SequenceOf(d) + 1 && MarkOf(next).Some?
            && (SequenceOf(d) > 0 ==> MarkOf(d).Some? && MarkOf(next).value.prior == To(MarkOf(d).value.record))))
    && (next.anchor == d.anchor || AnchorsAt(next.anchor, d) || AnchorsAt(next.anchor, next))
  }

  /** The anchor names the position of the disk. */
  predicate AnchorsAt(anchor: Option<Anchor>, d: Disk) {
    anchor.Some? && anchor.value.sequence == SequenceOf(d) && MarkOf(d) == Some(Mark(anchor.value.checkpoint, anchor.value.prior))
  }

  lemma RecoverySound(sha: Body -> Hash, d: Disk, now: Time)
    requires Sound(sha, d) && d.publication.Some?
    ensures var r := Recover(sha, d.publication.value, d.anchor, now);
            && r.Ok? && Sound(sha, d.(anchor := r.value))
            && Assess(d.publication, r.value) in {LegacyUnavailable, Verified}
            && (Assess(d.publication, d.anchor) == ForwardRecovery <==> r.value != d.anchor)
  {
    hide IntentOk, CheckpointOk;
  }

  /** Every state that `prepare` makes durable is sound, one position further at most, and never back. */
  lemma PrepareKeepsSound(sha: Body -> Hash, d: Disk, request: Request, now: Time)
    requires Sound(sha, d)
    ensures forall w :: w in PrepareAttempt(sha, d, request, now).writes ==> Sound(sha, w) && Step(d, w)
  {
    hide IntentOk, CommitmentsOk, Matches, CheckpointOk, SealCheckpoint, SealIntent;
    if d.publication.Some? {
      RecoverySound(sha, d, now);
      if d.publication.value.completed.Some? {
        SealedAgain(sha, d.publication.value.completed.value, d.publication.value.version);
      }
    }
  }

  /** Sealing an accepted checkpoint again changes nothing if it was linked, and never links it. */
  lemma SealedAgain(sha: Body -> Hash, c: Checkpoint, v: Version)
    requires CheckpointOk(sha, c, v)
    ensures Linked(v) ==> SealCheckpoint(sha, c) == c
    ensures SealCheckpoint(sha, c).prior == c.prior && SealCheckpoint(sha, c).record.Some?
    ensures Linked(v) ==> c.record.Some?
    ensures c.prior.Some? ==> Linked(v)
  {
  }

  lemma CompleteKeepsSound(sha: Body -> Hash, d: Disk, expected: Intent, now: Time)
    requires Sound(sha, d)
    ensures forall w :: w in CompleteAttempt(sha, d, expected, now).writes ==> Sound(sha, w) && Step(d, w)
  {
    hide IntentOk, CommitmentsOk, CheckpointOk, CheckpointHash, CompletionMatches, StateOk, AnchorOk, AdvanceTo, Assess,
      CheckpointFor, Step, Sound;
    if d.publication.Some? {
      RecoverySound(sha, d, now);
      var recovered := d.(anchor := Recover(sha, d.publication.value, d.anchor, now).value);
      RecoveryStep(sha, d, now);
      if d.publication.value.active.Some? && CompletionMatches(d.publication.value.active.value, expected)
         && IntentOk(sha, expected, IntentVersion(expected)) && Readable(sha, d) {
        CompletionSound(sha, recovered, expected, now);
        StepAfterRecovery(sha, d, now);
      }
    }
  }

  /** Recovery moves only the anchor, to where the publication already is. */
  lemma RecoveryStep(sha: Body -> Hash, d: Disk, now: Time)
    requires Sound(sha, d) && d.publication.Some?
    ensures var a := Recover(sha, d.publication.value, d.anchor, now).value;
            && Step(d, d.(anchor := a)) && (a == d.anchor || AnchorsAt(a, d))
  {
    hide StateOk;
  }

  lemma StepAfterRecovery(sha: Body -> Hash, d: Disk, now: Time)
    requires Sound(sha, d) && d.publication.Some?
    ensures var recovered := d.(anchor := Recover(sha, d.publication.value, d.anchor, now).value);
            forall w :: Step(recovered, w) ==> Step(d, w)
  {
    RecoveryStep(sha, d, now);
    hide Sound, Recover;
  }

  /** What completing adds to files whose ratchet is already verified or not yet started. */
  lemma CompletionSound(sha: Body -> Hash, d: Disk, expected: Intent, now: Time)
    requires Sound(sha, d) && d.publication.Some? && d.publication.value.active.Some?
    requires Assess(d.publication, d.anchor) in {LegacyUnavailable, Verified}
    requires CompletionMatches(d.publication.value.active.value, expected)
    ensures var checkpoint := CheckpointFor(sha, expected, now);
            var state := d.publication.value;
            var sequence := if checkpoint.prior.Some? then (if state.sequence.Some? then state.sequence.value else 0) + 1 else 0;
            var next := State(None, Some(checkpoint), V6, Some(sequence));
            StateOk(sha, next) ==>
              && Sound(sha, d.(publication := Some(next))) && Step(d, d.(publication := Some(next)))
              && (sequence > 0 ==>
                    var anchor := AdvanceTo(sha, d.anchor, checkpoint, sequence, now);
                    anchor.Some? ==> Sound(sha, Disk(Some(next), anchor)) && Step(d, Disk(Some(next), anchor)))
  {
    hide CommitmentsOk, CheckpointOk, Matches, CheckpointHash;
    LinkedState(sha, d.publication.value);
  }

  /** From V5 on, an active intent is linked to the checkpoint stored beside it. */
  lemma LinkedState(sha: Body -> Hash, s: State)
    requires StateOk(sha, s) && s.active.Some?
    ensures s.sequence.Some? ==> s.version.V6? && s.active.value.prior == PriorOf(s.completed) && s.active.value.prior.Some?
  {
  }

  lemma CallKeepsSound(sha: Body -> Hash, d: Disk, call: Call)
    requires Sound(sha, d)
    ensures Sound(sha, After(sha, d, call)) && Step(d, After(sha, d, call))
  {
    AfterIsWritten(sha, d, call);
    match call
    case Preparing(request, now, _) => PrepareKeepsSound(sha, d, request, now);
    case Completing(expected, now, _) => CompleteKeepsSound(sha, d, expected, now);
  }

  /** The disks of a run, the first included. */
  function Trace(sha: Body -> Hash, d: Disk, calls: seq<Call>): (t: seq<Disk>)
    ensures |t| == |calls| + 1
    decreases |calls|
  {
    [d] + if calls == [] then [] else Trace(sha, After(sha, d, calls[0]), calls[1..])
  }

  /**
   From an empty store or a state of an earlier version, no sequence of calls and crashes leads to files that the
   ratchet reports as missing, rolled back or diverged, and the sequence never decreases once it is positive.
   */
  lemma {:induction false} RunsStaySound(sha: Body -> Hash, d: Disk, calls: seq<Call>, i: nat, j: nat)
    requires Sound(sha, d) && i <= j <= |calls|
    ensures var t := Trace(sha, d, calls);
            && Sound(sha, t[i]) && Sound(sha, t[j])
            && (SequenceOf(t[i]) > 0 ==> SequenceOf(t[i]) <= SequenceOf(t[j]))
    decreases |calls|
  {
    hide Sound, After;
    if j > 0 {
      CallKeepsSound(sha, d, calls[0]);
      if i > 0 {
        RunsStaySound(sha, After(sha, d, calls[0]), calls[1..], i - 1, j - 1);
      } else {
        RunsStaySound(sha, After(sha, d, calls[0]), calls[1..], 0, j - 1);
      }
    }
  }

  /** A well-formed `prepare` clears a forward recovery with its first write, before it writes its own intent. */
  lemma PrepareRecoversFirst(sha: Body -> Hash, d: Disk, request: Request, now: Time)
    requires Sound(sha, d) && Assess(d.publication, d.anchor) == ForwardRecovery
    requires request.generation >= 1 && CommitmentsOk(request.stores)
    ensures var writes := PrepareAttempt(sha, d, request, now).writes;
            && writes != [] && writes[0].publication == d.publication
            && Assess(writes[0].publication, writes[0].anchor) == Verified
  {
    hide IntentOk, CheckpointOk, CommitmentsOk, Matches;
    RecoverySound(sha, d, now);
    RecoveryVerifies(sha, d, now);
  }

  lemma RecoveryVerifies(sha: Body -> Hash, d: Disk, now: Time)
    requires Sound(sha, d) && Assess(d.publication, d.anchor) == ForwardRecovery
    ensures Assess(d.publication, Recover(sha, d.publication.value, d.anchor, now).value) == Verified
  {
    hide IntentOk, CheckpointOk;
  }

  /**
   `complete` does the same exactly when an intent is active: without one it refuses before it looks at the ratchet,
   and the forward recovery waits for a `prepare`.
   */
  lemma CompleteRecoversFirst(sha: Body -> Hash, d: Disk, expected: Intent, now: Time)
    requires Sound(sha, d) && Assess(d.publication, d.anchor) == ForwardRecovery
    requires IntentOk(sha, expected, IntentVersion(expected))
    ensures var writes := CompleteAttempt(sha, d, expected, now).writes;
            && (writes != [] <==> d.publication.value.active.Some?)
            && (writes != [] ==> writes[0].publication == d.publication
                                 && Assess(writes[0].publication, writes[0].anchor) == Verified)
  {
    hide IntentOk, CheckpointOk, CommitmentsOk, Matches, CompletionMatches;
    RecoverySound(sha, d, now);
    RecoveryVerifies(sha, d, now);
  }

  /**
   It can happen: the first publication of an empty store, prepared, completed and cut off before the anchor is written,
   needs a recovery that no `complete` will do.
   */
  lemma CompleteCanLeaveRecovery(sha: Body -> Hash, request: Request, now: Time, expected: Intent, later: Time)
    requires request.generation >= 1 && CommitmentsOk(request.stores)
    ensures var prepared := After(sha, Disk(None, None), Preparing(request, now, 1));
            && prepared.publication.Some? && prepared.publication.value.active.Some?
            && var d := After(sha, prepared, Completing(prepared.publication.value.active.value, now, 1));
               && Assess(d.publication, d.anchor) == ForwardRecovery
               && CompleteAttempt(sha, d, expected, later).writes == []
  {
    hide CommitmentsOk;
    var empty := Disk(None, None);
    var attempt := PrepareAttempt(sha, empty, request, now);
    PrepareExact(sha, empty, request, now);
    assert |attempt.writes| == 1;
    var prepared := After(sha, empty, Preparing(request, now, 1));
    CallKeepsSound(sha, empty, Preparing(request, now, 1));
    CompleteExact(sha, prepared, now);
  }

  // ---------------------------------------------------------------------------
  // Progress
  // ---------------------------------------------------------------------------

  /** A publication may follow the checkpoint: the next generation, or the same one asked for again. */
  predicate MayFollow(request: Request, completed: Option<Checkpoint>) {
    completed.None? ||
    (var c := completed.value;
     || request.generation == c.generation + 1
     || (request.generation == c.generation && request.profile == c.profile && request.manifest == c.manifest
         && (c.stores.None? || c.stores == Some(request.stores))))
  }

  /**
   Where no publication is active, `prepare` succeeds exactly when the request is well formed and may follow the
   checkpoint, and then records what was asked for, linked to that checkpoint.
   */
  lemma PrepareExact(sha: Body -> Hash, d: Disk, request: Request, now: Time)
    requires Sound(sha, d) && (d.publication.Some? ==> d.publication.value.active.None?)
    ensures var attempt := PrepareAttempt(sha, d, request, now);
            var completed := if d.publication.Some? then d.publication.value.completed else None;
            && (attempt.outcome.Done? <==>
                request.generation >= 1 && CommitmentsOk(request.stores) && MayFollow(request, completed))
            && (attempt.outcome.Done? ==>
                  var (i, last) := (attempt.outcome.value, attempt.writes[|attempt.writes| - 1]);
                  && attempt.writes != []
                  && i.profile == request.profile && i.generation == request.generation && i.manifest == request.manifest
                  && i.stores == Some(request.stores) && i.preparedAt == now
                  && last.publication.Some? && last.publication.value.active == Some(i)
                  && i.prior == PriorOf(last.publication.value.completed))
  {
  }

  /** The checkpoint is the intent, completed. */
  predicate Completes(c: Checkpoint, i: Intent) {
    c.profile == i.profile && c.generation == i.generation && c.manifest == i.manifest && c.stores == i.stores && c.prior == i.prior
  }

  /**
   An active publication can always be completed by its own intent, unless it predates store commitments. The checkpoint
   records the intent, the chain has grown by at most one, and the ratchet is satisfied without recovery.
   */
  lemma CompleteExact(sha: Body -> Hash, d: Disk, now: Time)
    requires Sound(sha, d) && d.publication.Some? && d.publication.value.active.Some?
    ensures var i := d.publication.value.active.value;
            var attempt := CompleteAttempt(sha, d, i, now);
            && (attempt.outcome.Done? <==> i.stores.Some?)
            && (attempt.outcome.Done? ==>
                  var last := attempt.writes[|attempt.writes| - 1];
                  && attempt.writes != [] && last.publication == Some(attempt.outcome.value)
                  && last.publication.value.active.None? && last.publication.value.completed.Some?
                  && var c := last.publication.value.completed.value;
                     && Completes(c, i) && c.completedAt == now
                     && SequenceOf(last) == (if i.prior.Some? then SequenceOf(d) + 1 else 0)
                     && Assess(last.publication, last.anchor) in {Verified, LegacyUnavailable})
  {
  }

  /** Wherever a `prepare` that would succeed dies, the same request succeeds again, with the intent of the first if it was stored. */
  lemma CrashedPreparationResumes(sha: Body -> Hash, d: Disk, request: Request, now: Time, fuse: nat, later: Time)
    requires Sound(sha, d) && (d.publication.Some? ==> d.publication.value.active.None?)
    requires PrepareAttempt(sha, d, request, now).outcome.Done?
    ensures var (first, crashed) := (PrepareAttempt(sha, d, request, now), After(sha, d, Preparing(request, now, fuse)));
            var again := PrepareAttempt(sha, crashed, request, later);
            && again.outcome.Done?
            && (crashed.publication != d.publication ==> crashed.publication.Some? && again.outcome == first.outcome)
  {
    var crashed := After(sha, d, Preparing(request, now, fuse));
    CallKeepsSound(sha, d, Preparing(request, now, fuse));
    CrashedPreparation(sha, d, request, now, fuse);
    PrepareExact(sha, d, request, now);
    if crashed.publication == d.publication {
      hide PrepareAttempt, After, Sound;
      PrepareExact(sha, crashed, request, later);
    } else {
      RecoverySound(sha, crashed, later);
      hide After, Sound, Recover, Assess, CommitmentsOk, StateOk, AnchorOk;
    }
  }

  lemma CrashedPreparation(sha: Body -> Hash, d: Disk, request: Request, now: Time, fuse: nat)
    requires d.publication.Some? ==> d.publication.value.active.None?
    ensures var (first, crashed) := (PrepareAttempt(sha, d, request, now), After(sha, d, Preparing(request, now, fuse)));
            crashed.publication == d.publication
            || (crashed.publication.Some? && crashed.publication.value.active.Some?
                && (first.outcome.Done? ==> crashed.publication.value.active == Some(first.outcome.value)))
  {
    hide Assess, StateOk, IntentOk, CommitmentsOk, AdvanceTo, CheckpointHash, AnchorOk, Matches;
  }

  /**
   No crash loses a publication: wherever `complete` dies, either the intent is still active as it was and completing it
   again succeeds, or the checkpoint that completes it is already stored.
   */
  lemma CrashedCompletionResumes(sha: Body -> Hash, d: Disk, now: Time, fuse: nat, later: Time)
    requires Sound(sha, d) && d.publication.Some? && d.publication.value.active.Some? && d.publication.value.active.value.stores.Some?
    ensures var i := d.publication.value.active.value;
            var crashed := After(sha, d, Completing(i, now, fuse));
            && Sound(sha, crashed) && crashed.publication.Some?
            && if crashed.publication.value.active.Some? then
                 crashed.publication == d.publication && CompleteAttempt(sha, crashed, i, later).outcome.Done?
               else
                 crashed.publication.value.completed.Some? && Completes(crashed.publication.value.completed.value, i)
  {
    var i := d.publication.value.active.value;
    var crashed := After(sha, d, Completing(i, now, fuse));
    CallKeepsSound(sha, d, Completing(i, now, fuse));
    CrashedCompletion(sha, d, now, fuse);
    hide CompleteAttempt, After, Sound;
    if crashed.publication.value.active.Some? {
      CompleteExact(sha, crashed, later);
    }
  }

  lemma CrashedCompletion(sha: Body -> Hash, d: Disk, now: Time, fuse: nat)
    requires d.publication.Some? && d.publication.value.active.Some?
    ensures var i := d.publication.value.active.value;
            var crashed := After(sha, d, Completing(i, now, fuse));
            && crashed.publication.Some?
            && (crashed.publication == d.publication
                || (crashed.publication.value.active.None? && crashed.publication.value.completed.Some?
                    && Completes(crashed.publication.value.completed.value, i)))
  {
    hide Assess, StateOk, IntentOk, CommitmentsOk, AdvanceTo, CompletionMatches, CheckpointHash, AnchorOk;
  }

  // ---------------------------------------------------------------------------
  // The chain behind a run
  // ---------------------------------------------------------------------------

  /** Each mark names the one before it. */
  ghost predicate Chain(h: seq<Mark>) {
    forall i :: 0 < i < |h| ==> h[i].prior == To(h[i - 1].record)
  }

  /** Each mark is a sealed, linked checkpoint. */
  ghost predicate SealedMarks(sha: Body -> Hash, h: seq<Mark>) {
    forall i :: 0 <= i < |h| ==> SealedMark(sha, h[i])
  }

  ghost predicate SealedMark(sha: Body -> Hash, m: Mark) {
    exists c: Checkpoint :: c.prior == Some(m.prior) && m.record == CheckpointHash(sha, c, V6)
  }

  /** The history grows by the checkpoint that a call completes. */
  function Grow(h: seq<Mark>, d: Disk): seq<Mark> {
    if SequenceOf(d) == |h| + 1 && MarkOf(d).Some? then h + [MarkOf(d).value] else h
  }

  /** The disk holds the last mark of the history, and the anchor one of its marks. */
  ghost predicate Placed(d: Disk, h: seq<Mark>) {
    && SequenceOf(d) == |h|
    && (|h| > 0 ==> MarkOf(d) == Some(h[|h| - 1]))
    && (d.anchor.Some? ==> AnchoredIn(d.anchor.value, h))
  }

  predicate AnchoredIn(a: Anchor, h: seq<Mark>) {
    1 <= a.sequence <= |h| && Mark(a.checkpoint, a.prior) == h[a.sequence - 1]
  }

  lemma SoundMark(sha: Body -> Hash, d: Disk)
    requires Sound(sha, d)
    ensures SequenceOf(d) >= 0 && (SequenceOf(d) > 0 ==> MarkOf(d).Some?)
    ensures MarkOf(d).Some? ==> SealedMark(sha, MarkOf(d).value)
  {
  }

  lemma StepPlaces(sha: Body -> Hash, d: Disk, next: Disk, h: seq<Mark>)
    requires Sound(sha, d) && Sound(sha, next) && Step(d, next) && Placed(d, h) && Chain(h) && SealedMarks(sha, h)
    ensures Placed(next, Grow(h, next)) && Chain(Grow(h, next)) && SealedMarks(sha, Grow(h, next)) && h <= Grow(h, next)
  {
    SoundMark(sha, d);
    SoundMark(sha, next);
    hide Sound, SealedMark, MarkOf, SequenceOf;
  }

  /** The history after so many calls. */
  function HistoryAt(sha: Body -> Hash, d: Disk, h: seq<Mark>, calls: seq<Call>, i: nat): seq<Mark>
    requires i <= |calls|
    decreases i
  {
    if i == 0 then h else HistoryAt(sha, After(sha, d, calls[0]), Grow(h, After(sha, d, calls[0])), calls[1..], i - 1)
  }

  lemma {:induction false} RunIsPlaced(sha: Body -> Hash, d: Disk, h: seq<Mark>, calls: seq<Call>, i: nat, j: nat)
    requires Sound(sha, d) && Placed(d, h) && Chain(h) && SealedMarks(sha, h) && i <= j <= |calls|
    ensures var (t, a, b) := (Trace(sha, d, calls), HistoryAt(sha, d, h, calls, i), HistoryAt(sha, d, h, calls, j));
            && Placed(t[i], a) && Placed(t[j], b) && h <= a <= b && Chain(b) && SealedMarks(sha, b)
            && Sound(sha, t[i]) && Sound(sha, t[j])
    decreases |calls|
  {
    hide Sound, After, Placed, Chain, SealedMarks;
    if j > 0 {
      var next := After(sha, d, calls[0]);
      CallKeepsSound(sha, d, calls[0]);
      StepPlaces(sha, d, next, h);
      RunIsPlaced(sha, next, Grow(h, next), calls[1..], if i > 0 then i - 1 else 0, j - 1);
    }
  }

  lemma InitialIsPlaced(sha: Body -> Hash, d: Disk)
    requires Initial(sha, d)
    ensures Sound(sha, d) && Placed(d, []) && Chain([]) && SealedMarks(sha, [])
  {
  }

  // ---------------------------------------------------------------------------
  // What the ratchet says
  // ---------------------------------------------------------------------------

  /** The verdict on two positions of one chain. */
  function ByNumbers(sequence: int, anchored: int): Verdict {
    if sequence == anchored then Verified
    else if sequence == anchored + 1 then ForwardRecovery
    else if sequence < anchored then Rollback
    else Diverged
  }

  /** A publication placed in one history against an anchor placed in another that agrees with it so far. */
  lemma AssessPlaced(d: Disk, h: seq<Mark>, a: Anchor, k: seq<Mark>)
    requires Placed(d, h) && h != [] && Chain(h) && AnchoredIn(a, k) && (h <= k || k <= h)
    ensures Assess(d.publication, Some(a)) == ByNumbers(|h|, a.sequence)
  {
  }

  /**
   Within a run the ratchet depends only on the two sequences, whichever moments the publication file and the anchor
   are taken from: equal is verified, one ahead is a recovery, behind is a rollback, further ahead is refused.
   */
  lemma OneRunRatchet(sha: Body -> Hash, d: Disk, calls: seq<Call>, i: nat, j: nat)
    requires Initial(sha, d) && i <= |calls| && j <= |calls|
    ensures var (state, files) := (Trace(sha, d, calls)[i], Trace(sha, d, calls)[j]);
            SequenceOf(state) >= 1 && files.anchor.Some? ==>
              Assess(state.publication, files.anchor) == ByNumbers(SequenceOf(state), files.anchor.value.sequence)
  {
    hide Sound, Trace, Initial;
    InitialIsPlaced(sha, d);
    var (state, files) := (Trace(sha, d, calls)[i], Trace(sha, d, calls)[j]);
    if i <= j {
      RunIsPlaced(sha, d, [], calls, i, j);
    } else {
      RunIsPlaced(sha, d, [], calls, j, i);
    }
    RunIsPlaced(sha, d, [], calls, i, i);
    if SequenceOf(state) >= 1 && files.anchor.Some? {
      AssessPlaced(state, HistoryAt(sha, d, [], calls, i), files.anchor.value, HistoryAt(sha, d, [], calls, j));
    }
  }

  // ---------------------------------------------------------------------------
  // Forks
  // ---------------------------------------------------------------------------

  ghost predicate Injective(sha: Body -> Hash) {
    forall x: Body, y: Body :: sha(x) == sha(y) ==> x == y
  }

  lemma SameRecordSameMark(sha: Body -> Hash, m: Mark, n: Mark)
    requires Injective(sha) && SealedMark(sha, m) && SealedMark(sha, n) && m.record == n.record
    ensures m == n
  {
  }

  /** Chains that share a record share everything before it. */
  lemma {:induction false} SharedPast(sha: Body -> Hash, h: seq<Mark>, k: seq<Mark>, n: nat)
    requires Injective(sha) && SealedMarks(sha, h) && SealedMarks(sha, k) && Chain(h) && Chain(k)
    requires 0 < n <= |h| && n <= |k| && h[n - 1].record == k[n - 1].record
    ensures h[..n] == k[..n]
  {
    hide SealedMark, Injective;
    SameRecordSameMark(sha, h[n - 1], k[n - 1]);
    if n > 1 {
      SharedPast(sha, h, k, n - 1);
      assert h[..n] == h[..n - 1] + [h[n - 1]] && k[..n] == k[..n - 1] + [k[n - 1]];
    }
  }

  /**
   A publication from one history against an anchor from another: accepted as current, or as one ahead, only if the
   two histories are the same up to the anchor. After a fork nothing of one side passes for the other.
   */
  lemma ForkIsRefused(sha: Body -> Hash, d: Disk, h: seq<Mark>, a: Anchor, k: seq<Mark>)
    requires Injective(sha) && Chain(h) && Chain(k) && SealedMarks(sha, h) && SealedMarks(sha, k)
    requires Placed(d, h) && h != [] && AnchoredIn(a, k)
    ensures Assess(d.publication, Some(a)) == Verified <==> |h| == a.sequence && h == k[..a.sequence]
    ensures Assess(d.publication, Some(a)) == ForwardRecovery <==>
            |h| == a.sequence + 1 && h[..a.sequence] == k[..a.sequence]
  {
    hide Injective, SealedMark;
    var n := a.sequence;
    var last := h[|h| - 1];
    if |h| == n && last.record == a.checkpoint {
      SharedPast(sha, h, k, n);
      assert h[..n] == h;
    }
    if |h| == n + 1 && last.prior == To(a.checkpoint) {
      SharedPast(sha, h, k, n);
    }
    if |h| == n + 1 && h[..n] == k[..n] {
      assert h[n - 1] == h[..n][n - 1] == k[n - 1];
    }
    if |h| == n && h == k[..n] {
      assert h[n - 1] == k[n - 1];
    }
  }

  /** Two runs: what one recorded and what the other anchored agree only on the history they share. */
  lemma ForkedRuns(sha: Body -> Hash, d: Disk, calls: seq<Call>, i: nat, e: Disk, others: seq<Call>, j: nat)
    requires Injective(sha) && Initial(sha, d) && Initial(sha, e) && i <= |calls| && j <= |others|
    ensures var (state, files) := (Trace(sha, d, calls)[i], Trace(sha, e, others)[j]);
            var (h, k) := (HistoryAt(sha, d, [], calls, i), HistoryAt(sha, e, [], others, j));
            SequenceOf(state) >= 1 && files.anchor.Some? ==>
              var n := files.anchor.value.sequence;
              && 1 <= n <= |k| && |h| == SequenceOf(state)
              && (Assess(state.publication, files.anchor) in {Verified, ForwardRecovery} <==>
                  n <= |h| <= n + 1 && h[..n] == k[..n])
  {
    hide Sound, Trace, Initial, Injective, SealedMark, Chain, SealedMarks;
    InitialIsPlaced(sha, d);
    InitialIsPlaced(sha, e);
    RunIsPlaced(sha, d, [], calls, i, i);
    RunIsPlaced(sha, e, [], others, j, j);
    var (state, files) := (Trace(sha, d, calls)[i], Trace(sha, e, others)[j]);
    var h := HistoryAt(sha, d, [], calls, i);
    if SequenceOf(state) >= 1 && files.anchor.Some? {
      ForkIsRefused(sha, state, h, files.anchor.value, HistoryAt(sha, e, [], others, j));
      assert h[..|h|] == h;
    }
  }
}
