/**
 The external publication witness (`authority_publication_witness.py`): a signed note of one position of the chain,
 kept outside the state it describes, against which restored files are judged.
 */
module PublicationWitness {
  import opened AuthorityPublication
  import P = AuthorityProfile
  import opened PublicationRuns
  import opened Wrappers

  /** The signed payload. */
  datatype Witness = Witness(root: Hash, generation: int, profile: Hash, sequence: int, checkpoint: Hash)

  datatype Position = Current | OneAhead | Behind | Elsewhere | BeyondWindow | NotVerifiedLocally

  /** The sequence window of `assess_witness`. */
  function Window(w: Witness, publication: State, anchor: Anchor): Position {
    if !Assess(Some(publication), Some(anchor)).Verified? then NotVerifiedLocally
    else if w.sequence > anchor.sequence then Behind
    else if w.sequence == anchor.sequence then if w.checkpoint == anchor.checkpoint then Current else Elsewhere
    else if w.sequence + 1 == anchor.sequence then if To(w.checkpoint) == anchor.prior then OneAhead else Elsewhere
    else BeyondWindow
  }

  /** `assess_witness`, for a document whose signature has been checked. */
  predicate Accepts(w: Witness, root: Hash, profile: P.Profile, publication: State, anchor: Anchor) {
    && w.root == root && P.HashAt(profile, w.generation) == Some(w.profile)
    && (Window(w, publication, anchor).Current? || Window(w, publication, anchor).OneAhead?)
  }

  /** `build_witness_payload`: the position of a completed publication of the active profile. */
  function Taken(root: Hash, profile: P.Profile, d: Disk): Option<Witness> {
    if d.publication.None? || d.anchor.None? || d.publication.value.active.Some? || d.publication.value.completed.None?
       || d.publication.value.completed.value.profile != profile.hash
       || d.publication.value.completed.value.generation != profile.generation
       || !Assess(d.publication, d.anchor).Verified?
    then None
    else Some(Witness(root, profile.generation, profile.hash, d.anchor.value.sequence, d.anchor.value.checkpoint))
  }

  /** What the window says of the position with a given number. */
  function ByWindow(witnessed: int, sequence: int): Position {
    if sequence < witnessed then Behind
    else if sequence == witnessed then Current
    else if sequence == witnessed + 1 then OneAhead
    else BeyondWindow
  }

  /**
   A publication and an anchor restored together from any moment of the run at which they agreed satisfy the local
   ratchet, so it cannot see the rollback. The witness can: files from before it are behind, its own are current, the
   next are one ahead, and later ones are beyond its window.
   */
  lemma {:induction false} MatchedRollbackIsRefused(sha: Body -> Hash, d: Disk, calls: seq<Call>, root: Hash, profile: P.Profile, i: nat, j: nat)
    requires Initial(sha, d) && i <= |calls| && j <= |calls|
    requires Taken(root, profile, Trace(sha, d, calls)[i]).Some?
    requires var restored := Trace(sha, d, calls)[j];
             restored.publication.Some? && restored.anchor.Some? && Assess(restored.publication, restored.anchor).Verified?
    ensures var (w, restored) := (Taken(root, profile, Trace(sha, d, calls)[i]).value, Trace(sha, d, calls)[j]);
            && w.sequence == SequenceOf(Trace(sha, d, calls)[i])
            && Window(w, restored.publication.value, restored.anchor.value) == ByWindow(w.sequence, SequenceOf(restored))
  {
    hide Sound, Trace, Initial;
    InitialIsPlaced(sha, d);
    RunIsPlaced(sha, d, [], calls, i, i);
    RunIsPlaced(sha, d, [], calls, j, j);
    if i <= j {
      RunIsPlaced(sha, d, [], calls, i, j);
    } else {
      RunIsPlaced(sha, d, [], calls, j, i);
    }
    var (h, k) := (HistoryAt(sha, d, [], calls, i), HistoryAt(sha, d, [], calls, j));
    VerifiedIsLast(Trace(sha, d, calls)[i], h);
    VerifiedIsLast(Trace(sha, d, calls)[j], k);
  }

  /** A verified pair of files is at the end of its history. */
  lemma VerifiedIsLast(d: Disk, h: seq<Mark>)
    requires Placed(d, h) && d.publication.Some? && d.anchor.Some? && Assess(d.publication, d.anchor).Verified?
    ensures h != [] && d.anchor.value.sequence == |h| == SequenceOf(d)
    ensures Mark(d.anchor.value.checkpoint, d.anchor.value.prior) == h[|h| - 1]
  {
  }

  /** Whether a history is another, or another and one mark more, shows in its last mark. */
  lemma SameByRecords(sha: Body -> Hash, h: seq<Mark>, k: seq<Mark>)
    requires Injective(sha) && SealedMarks(sha, h) && SealedMarks(sha, k) && Chain(h) && Chain(k) && h != [] && k != []
    ensures |k| == |h| && k[|k| - 1].record == h[|h| - 1].record <==> k == h
    ensures |k| == |h| + 1 && k[|k| - 1].prior == To(h[|h| - 1].record) <==> |k| == |h| + 1 && k[..|h|] == h
  {
    hide Injective, SealedMarks;
    var n := |h|;
    assert h[..n] == h && k[..|k|] == k;
    if |k| == n && k[n - 1].record == h[n - 1].record {
      SharedPast(sha, h, k, n);
    }
    if |k| == n + 1 && k[n].prior == To(h[n - 1].record) {
      assert k[n].prior == To(k[n - 1].record);
      SharedPast(sha, h, k, n);
    }
    if |k| == n + 1 && k[..n] == h {
      assert k[n - 1] == k[..n][n - 1];
    }
  }

  /** Files of another run are accepted exactly when they are at, or one past, the witnessed position of the same history. */
  lemma OnlySharedHistoryIsAccepted(sha: Body -> Hash, d: Disk, calls: seq<Call>, i: nat, e: Disk, others: seq<Call>, j: nat,
                                    root: Hash, profile: P.Profile)
    requires Injective(sha) && Initial(sha, d) && Initial(sha, e) && i <= |calls| && j <= |others|
    requires Taken(root, profile, Trace(sha, d, calls)[i]).Some?
    requires var restored := Trace(sha, e, others)[j];
             restored.publication.Some? && restored.anchor.Some? && Assess(restored.publication, restored.anchor).Verified?
    ensures var (w, restored) := (Taken(root, profile, Trace(sha, d, calls)[i]).value, Trace(sha, e, others)[j]);
            var (h, k) := (HistoryAt(sha, d, [], calls, i), HistoryAt(sha, e, [], others, j));
            var position := Window(w, restored.publication.value, restored.anchor.value);
            && w.sequence == |h|
            && (position.Current? <==> k == h)
            && (position.OneAhead? <==> |k| == |h| + 1 && k[..|h|] == h)
  {
    hide Sound, Trace, Initial, Injective, SealedMark, HistoryAt;
    InitialIsPlaced(sha, d);
    InitialIsPlaced(sha, e);
    RunIsPlaced(sha, d, [], calls, i, i);
    RunIsPlaced(sha, e, [], others, j, j);
    var (h, k) := (HistoryAt(sha, d, [], calls, i), HistoryAt(sha, e, [], others, j));
    VerifiedIsLast(Trace(sha, d, calls)[i], h);
    VerifiedIsLast(Trace(sha, e, others)[j], k);
    hide Placed, Assess, Chain, SealedMarks;
    SameByRecords(sha, h, k);
  }

  /** The profile a witness names is found in every later state of the profile's history. */
  lemma WitnessedProfileStays(fits: P.Ceiling, state: Option<P.Profile>, calls: seq<P.Call>, i: nat, j: nat, root: Hash, d: Disk)
    requires i <= j <= |calls| && P.Trace(fits, state, calls)[i].Some?
    requires Taken(root, P.Trace(fits, state, calls)[i].value, d).Some?
    requires exists now :: P.ProfileOk(P.Trace(fits, state, calls)[i].value, now)
    ensures P.Trace(fits, state, calls)[j].Some?
    ensures var w := Taken(root, P.Trace(fits, state, calls)[i].value, d).value;
            P.HashAt(P.Trace(fits, state, calls)[j].value, w.generation) == Some(w.profile)
  {
    hide P.Trace;
    var p := P.Trace(fits, state, calls)[i].value;
    P.HashAtIsStable(fits, state, calls, i, j, p.generation);
  }
}
