/**
 Classifying an interrupted publication from what the stores hold (`_verify_active_authority_publication` and
 `_verify_active_target_dependencies` in `state_integrity.py`): the stores move one by one from the checkpoint's profile
 and values to the target's, the evidence head last. The auditor has an entry for each store in its report, and reads the
 store files themselves where it compares values.
 */
module ActivePublication {
  import opened AuthorityPublication
  import P = AuthorityProfile
  import opened Wrappers

  /** What a store says of its authority, before hashing. */
  type Authority = int

  datatype Hashed =
    | StoreBody(value: Authority)
    | ManifestBody(profile: Hash, generation: int, values: map<StoreName, Option<Authority>>, policyValue: Option<Authority>)

  /** The stores the report covers: the seven dependencies and the publication witness policy. */
  datatype Reported = Dependency(name: StoreName) | WitnessPolicy

  /** What an entry says of its store; only the two witness policies can be not configured. */
  datatype Condition = Invalid | NotRecorded | NotConfigured | Recorded

  datatype Check = OtherCheck | ProfileMismatch | PublicationRecovery

  /**
   What a store's file gives: an error, nothing, or a record under a profile with its part of the manifest. A recorded
   publication witness policy that is not configured has no part in the manifest.
   */
  datatype File = Unreadable | Absent | Holds(profile: Hash, authority: Option<Authority>)

  /** A store's entry in the report, and its file. */
  datatype View = View(state: Condition, profile: Option<Hash>, check: Check, file: File)

  type Views = map<Reported, View>

  datatype Issue =
    | StoreMismatch(store: Reported)
    | ActiveProfileMismatch | ActiveDependencyInvalid | ActiveStoreMismatch | ActiveCheckpointMismatch | ActiveManifestMismatch
    | OtherIssue(code: int)

  /** `AUTHORITY_PUBLICATION_STORE_NAMES`. */
  const STORE_NAMES: seq<StoreName> :=
    [StateStorage, ControlPlaneIsolation, WorkspaceIntegrity, EvidenceWitnessPolicy, RuntimeArtifacts, LaunchEnvelope, EvidenceHead]

  predicate Optional(name: StoreName) {
    name.RuntimeArtifacts? || name.LaunchEnvelope?
  }

  /**
   An entry follows from its file, except that it may be invalid for reasons outside the file. A missing file is not
   recorded, or not configured where the store is a witness policy.
   */
  predicate EntryOk(s: Reported, v: View) {
    var policy := s == WitnessPolicy || s == Dependency(EvidenceWitnessPolicy);
    && (s.Dependency? && v.file.Holds? ==> v.file.authority.Some?)
    && match v.state
       case Invalid => v.profile.None?
       case NotRecorded => v.file.Absent? && v.profile.None? && !policy
       case NotConfigured => policy && !v.file.Unreadable? && v.profile == ProfileIn(v.file)
       case Recorded => v.file.Holds? && v.profile == ProfileIn(v.file)
  }

  function ProfileIn(f: File): Option<Hash> {
    if f.Holds? then Some(f.profile) else None
  }

  function AuthorityIn(f: File): Option<Authority> {
    if f.Holds? then f.authority else None
  }

  /** The report has an entry for every store. */
  predicate ViewsOk(views: Views) {
    && (forall n: StoreName :: Dependency(n) in views) && WitnessPolicy in views
    && forall s :: s in views ==> EntryOk(s, views[s])
  }

  function Dep(views: Views, n: StoreName): View
    requires ViewsOk(views)
  {
    views[Dependency(n)]
  }

  function Policy(views: Views): View
    requires ViewsOk(views)
  {
    views[WitnessPolicy]
  }

  ghost predicate Listed(n: StoreName) {
    exists i :: 0 <= i < |STORE_NAMES| && STORE_NAMES[i] == n
  }

  lemma EveryName(n: StoreName)
    ensures Listed(n)
  {
    assert STORE_NAMES[0] == StateStorage && STORE_NAMES[1] == ControlPlaneIsolation && STORE_NAMES[2] == WorkspaceIntegrity;
    assert STORE_NAMES[3] == EvidenceWitnessPolicy && STORE_NAMES[4] == RuntimeArtifacts && STORE_NAMES[5] == LaunchEnvelope;
    assert STORE_NAMES[6] == EvidenceHead;
  }

  function Names(): set<StoreName> {
    {StateStorage, ControlPlaneIsolation, WorkspaceIntegrity, EvidenceWitnessPolicy, RuntimeArtifacts, LaunchEnvelope, EvidenceHead}
  }

  lemma NamesAreAll(n: StoreName)
    ensures n in Names()
  {
  }

  /** An entry of a mapping over all store names. */
  function Of<T>(m: map<StoreName, T>, n: StoreName): T
    requires m.Keys == Names()
  {
    NamesAreAll(n);
    m[n]
  }

  function HashedValue(sha: Hashed -> Hash, value: Option<Authority>): Option<Hash> {
    if value.None? then None else Some(sha(StoreBody(value.value)))
  }

  /** The store is under this profile and differs from what was committed for it. */
  predicate OffCommitment(sha: Hashed -> Hash, views: Views, profile: Hash, stores: Commitments, n: StoreName)
    requires ViewsOk(views) && CommitmentsOk(stores)
  {
    Dep(views, n).profile == Some(profile) && HashedValue(sha, AuthorityIn(Dep(views, n).file)) != Of(stores, n)
  }

  /** The profile that a file holds is not the one asked for. */
  predicate Foreign(f: File, profile: Hash) {
    f.Holds? && f.profile != profile
  }

  /** What the files of the dependencies hold. */
  function RebuiltValues(views: Views): map<StoreName, Option<Authority>>
    requires ViewsOk(views)
  {
    map n: StoreName | n in Names() :: AuthorityIn(Dep(views, n).file)
  }

  /** `authority_manifest_commitments_from_state`: the manifest the files rebuild, or an error. */
  function Rebuild(sha: Hashed -> Hash, views: Views, profile: Hash, generation: int): Option<Hash>
    requires ViewsOk(views)
  {
    var policy := Policy(views).file;
    if policy.Unreadable? || (exists n: StoreName :: Dep(views, n).file.Unreadable?) then None
    else if exists n: StoreName :: !Optional(n) && Dep(views, n).file.Absent? then None
    else if exists n: StoreName :: Foreign(Dep(views, n).file, profile) then None
    else if Foreign(policy, profile) then None
    else Some(sha(ManifestBody(profile, generation, RebuiltValues(views), AuthorityIn(policy))))
  }

  // ---------------------------------------------------------------------------
  // The classification
  // ---------------------------------------------------------------------------

  datatype Class =
    | Prepared | Applying | ReadyToComplete
    | ProfileMismatched | DependencyInvalid | TargetStoreMismatch | CheckpointStoreMismatch | ManifestMismatch

  predicate Critical(c: Class) {
    !c.Prepared? && !c.Applying? && !c.ReadyToComplete?
  }

  function IssueOf(c: Class): Issue
    requires Critical(c)
  {
    match c
    case ProfileMismatched => ActiveProfileMismatch
    case DependencyInvalid => ActiveDependencyInvalid
    case TargetStoreMismatch => ActiveStoreMismatch
    case CheckpointStoreMismatch => ActiveCheckpointMismatch
    case ManifestMismatch => ActiveManifestMismatch
  }

  function Without(issues: seq<Issue>, removed: set<Reported>): seq<Issue> {
    if issues == [] then []
    else if issues[0].StoreMismatch? && issues[0].store in removed then Without(issues[1..], removed)
    else [issues[0]] + Without(issues[1..], removed)
  }

  /** A store that still names the checkpoint's profile, as it must while the publication is applied. */
  predicate ExpectedMismatch(v: View, prior: Hash) {
    v.profile == Some(prior) && v.check.ProfileMismatch?
  }

  function Downgraded(views: Views, prior: Hash): set<Reported> {
    set s | s in views && ExpectedMismatch(views[s], prior)
  }

  function Recovering(views: Views, prior: Hash): Views {
    map s | s in views :: if ExpectedMismatch(views[s], prior) then views[s].(check := PublicationRecovery) else views[s]
  }

  /** A report's class, entries and issues. */
  datatype Report = Report(class_: Class, views: Views, issues: seq<Issue>)

  function Refuse(views: Views, issues: seq<Issue>, c: Class): Report
    requires Critical(c)
  {
    Report(c, views, issues + [IssueOf(c)])
  }

  predicate Broken(views: Views, active: Intent, completed: Option<Checkpoint>)
    requires ViewsOk(views)
  {
    || (exists n: StoreName :: Dep(views, n).state.Invalid?)
    || (exists n: StoreName :: Dep(views, n).profile.Some? && Dep(views, n).profile.value != active.profile
                               && (completed.None? || Dep(views, n).profile.value != completed.value.profile))
    || (completed.Some? && exists n: StoreName :: !Optional(n) && Dep(views, n).state.NotRecorded?)
  }

  /** The last step: the evidence head is at the target, and the stores rebuild the intent's manifest or do not. */
  function ClassifyFinal(sha: Hashed -> Hash, views: Views, issues: seq<Issue>, active: Intent): Report
    requires ViewsOk(views)
  {
    match Rebuild(sha, views, active.profile, active.generation)
    case None => Refuse(views, issues, DependencyInvalid)
    case Some(manifest) =>
      if manifest != active.manifest then Refuse(views, issues, ManifestMismatch) else Report(ReadyToComplete, views, issues)
  }

  /** `_verify_active_target_dependencies`. */
  function ClassifyTarget(sha: Hashed -> Hash, views: Views, issues: seq<Issue>, active: Intent, completed: Option<Checkpoint>): Report
    requires ViewsOk(views) && (active.stores.Some? ==> CommitmentsOk(active.stores.value))
    requires completed.Some? && completed.value.stores.Some? ==> CommitmentsOk(completed.value.stores.value)
  {
    if Broken(views, active, completed) then Refuse(views, issues, DependencyInvalid)
    else if active.stores.Some? && exists n: StoreName :: OffCommitment(sha, views, active.profile, active.stores.value, n) then
      Refuse(views, issues, TargetStoreMismatch)
    else if completed.Some? && completed.value.stores.Some?
            && exists n: StoreName :: OffCommitment(sha, views, completed.value.profile, completed.value.stores.value, n) then
      Refuse(views, issues, CheckpointStoreMismatch)
    else
      var head := Dep(views, EvidenceHead).profile;
      if head.None? then Report(Applying, views, issues)
      else if head.value != active.profile && completed.Some? && head.value == completed.value.profile then
        Report(Applying, Recovering(views, completed.value.profile), Without(issues, Downgraded(views, completed.value.profile)))
      else ClassifyFinal(sha, views, issues, active)
  }

  /** `_verify_active_authority_publication`. */
  function Classify(sha: Hashed -> Hash, views: Views, issues: seq<Issue>, active: Intent, completed: Option<Checkpoint>,
                    profile: Option<P.Profile>): Report
    requires ViewsOk(views) && (active.stores.Some? ==> CommitmentsOk(active.stores.value))
    requires completed.Some? && completed.value.stores.Some? ==> CommitmentsOk(completed.value.stores.value)
  {
    if profile.None? then
      if completed.None? && active.generation == 1 then Report(Prepared, views, issues)
      else Refuse(views, issues, ProfileMismatched)
    else if profile.value.hash == active.profile && profile.value.generation == active.generation then
      ClassifyTarget(sha, views, issues, active, completed)
    else if completed.Some? && profile.value.hash == completed.value.profile && profile.value.generation == completed.value.generation
    then
      var pending := profile.value.pending;
      if active.generation != completed.value.generation + 1 || pending.None? || pending.value.toGeneration != active.generation
         || pending.value.toHash != active.profile
      then Refuse(views, issues, ProfileMismatched)
      else
        match Rebuild(sha, views, completed.value.profile, completed.value.generation)
        case None => Refuse(views, issues, DependencyInvalid)
        case Some(manifest) =>
          if manifest != completed.value.manifest then Refuse(views, issues, ManifestMismatch)
          else Report(Prepared, views, issues)
    else Refuse(views, issues, ProfileMismatched)
  }

  // ---------------------------------------------------------------------------
  // The auditor
  // ---------------------------------------------------------------------------

  /** The parts of the report that the verification changes. */
  class Auditor {
    const sha: Hashed -> Hash
    var views: Views
    var issues: seq<Issue>
    var verification: Class

    constructor (digest: Hashed -> Hash, views: Views, issues: seq<Issue>)
      ensures sha == digest && this.views == views && this.issues == issues
    {
      sha := digest;
      this.views := views;
      this.issues := issues;
      verification := Prepared;
    }

    function Whole(): Report
      reads this
    {
      Report(verification, views, issues)
    }

    method Fail(c: Class)
      requires Critical(c)
      modifies this`issues, this`verification
      ensures Whole() == Refuse(old(views), old(issues), c)
    {
      verification := c;
      issues := issues + [IssueOf(c)];
    }

    /** The searches over the dependencies: invalid, required but missing, or under neither profile. */
    method FindBroken(active: Intent, completed: Option<Checkpoint>) returns (broken: bool)
      requires ViewsOk(views)
      ensures broken <==> Broken(views, active, completed)
    {
      var invalid, missing, unexpected := false, false, false;
      for i := 0 to |STORE_NAMES|
        invariant invalid <==> exists j :: 0 <= j < i && Dep(views, STORE_NAMES[j]).state.Invalid?
        invariant missing <==> exists j :: 0 <= j < i && !Optional(STORE_NAMES[j]) && Dep(views, STORE_NAMES[j]).state.NotRecorded?
        invariant unexpected <==> exists j :: 0 <= j < i && Stray(views, active, completed, STORE_NAMES[j])
      {
        var view := Dep(views, STORE_NAMES[i]);
        invalid := invalid || view.state.Invalid?;
        missing := missing || (!Optional(STORE_NAMES[i]) && view.state.NotRecorded?);
        unexpected := unexpected || Stray(views, active, completed, STORE_NAMES[i]);
      }
      forall n: StoreName
        ensures Dep(views, n).state.Invalid? ==> invalid
        ensures !Optional(n) && Dep(views, n).state.NotRecorded? ==> missing
        ensures Stray(views, active, completed, n) ==> unexpected
      {
        EveryName(n);
        var j :| 0 <= j < |STORE_NAMES| && STORE_NAMES[j] == n;
      }
      return invalid || unexpected || (completed.Some? && missing);
    }

    /** `_active_target_store_mismatch` and `_checkpoint_store_mismatch`. */
    method FindOffCommitment(profile: Hash, stores: Commitments) returns (name: Option<StoreName>)
      requires ViewsOk(views) && CommitmentsOk(stores)
      ensures name.None? <==> forall n: StoreName :: !OffCommitment(sha, views, profile, stores, n)
      ensures name.Some? ==> OffCommitment(sha, views, profile, stores, name.value)
    {
      for i := 0 to |STORE_NAMES|
        invariant forall j :: 0 <= j < i ==> !OffCommitment(sha, views, profile, stores, STORE_NAMES[j])
      {
        if OffCommitment(sha, views, profile, stores, STORE_NAMES[i]) {
          return Some(STORE_NAMES[i]);
        }
      }
      forall n: StoreName
        ensures !OffCommitment(sha, views, profile, stores, n)
      {
        EveryName(n);
      }
      return None;
    }

    /** `_downgrade_expected_publication_profile_mismatches`. */
    method Downgrade(prior: Hash)
      modifies this`views, this`issues
      ensures views == Recovering(old(views), prior) && issues == Without(old(issues), Downgraded(old(views), prior))
    {
      var before := views;
      var updated, downgraded := views, {};
      var remaining := views.Keys;
      while remaining != {}
        invariant remaining <= before.Keys && updated.Keys == before.Keys
        invariant forall s :: s in before ==>
                    updated[s] == if s !in remaining && ExpectedMismatch(before[s], prior)
                                  then before[s].(check := PublicationRecovery) else before[s]
        invariant forall s :: s in downgraded <==> s in before && s !in remaining && ExpectedMismatch(before[s], prior)
        decreases |remaining|
      {
        var s :| s in remaining;
        remaining := remaining - {s};
        if ExpectedMismatch(before[s], prior) {
          updated := updated[s := before[s].(check := PublicationRecovery)];
          downgraded := downgraded + {s};
        }
      }
      assert updated == Recovering(before, prior) && downgraded == Downgraded(before, prior);
      views := updated;
      issues := Without(issues, downgraded);
    }

    method VerifyTarget(active: Intent, completed: Option<Checkpoint>)
      requires ViewsOk(views) && (active.stores.Some? ==> CommitmentsOk(active.stores.value))
      requires completed.Some? && completed.value.stores.Some? ==> CommitmentsOk(completed.value.stores.value)
      modifies this
      ensures Whole() == ClassifyTarget(sha, old(views), old(issues), active, completed)
    {
      hide OffCommitment, Broken, Rebuild;
      var broken := FindBroken(active, completed);
      if broken {
        Fail(DependencyInvalid);
        return;
      }
      if active.stores.Some? {
        var name := FindOffCommitment(active.profile, active.stores.value);
        if name.Some? {
          Fail(TargetStoreMismatch);
          return;
        }
      }
      if completed.Some? && completed.value.stores.Some? {
        var name := FindOffCommitment(completed.value.profile, completed.value.stores.value);
        if name.Some? {
          Fail(CheckpointStoreMismatch);
          return;
        }
      }
      var head := Dep(views, EvidenceHead).profile;
      if head.None? {
        verification := Applying;
        return;
      }
      if head.value != active.profile {
        if completed.Some? && head.value == completed.value.profile {
          verification := Applying;
          Downgrade(completed.value.profile);
          return;
        }
      }
      var observed := Rebuild(sha, views, active.profile, active.generation);
      if observed.None? {
        Fail(DependencyInvalid);
      } else if observed.value != active.manifest {
        Fail(ManifestMismatch);
      } else {
        verification := ReadyToComplete;
      }
    }

    method Verify(active: Intent, completed: Option<Checkpoint>, profile: Option<P.Profile>)
      requires ViewsOk(views) && (active.stores.Some? ==> CommitmentsOk(active.stores.value))
      requires completed.Some? && completed.value.stores.Some? ==> CommitmentsOk(completed.value.stores.value)
      modifies this
      ensures Whole() == Classify(sha, old(views), old(issues), active, completed, profile)
    {
      hide ClassifyTarget, Rebuild;
      if profile.None? {
        if completed.None? && active.generation == 1 {
          verification := Prepared;
          return;
        }
        Fail(ProfileMismatched);
        return;
      }
      if profile.value.hash == active.profile && profile.value.generation == active.generation {
        VerifyTarget(active, completed);
        return;
      }
      if completed.Some? && profile.value.hash == completed.value.profile
         && profile.value.generation == completed.value.generation {
        var pending := profile.value.pending;
        if active.generation != completed.value.generation + 1 || pending.None?
           || pending.value.toGeneration != active.generation || pending.value.toHash != active.profile {
          Fail(ProfileMismatched);
          return;
        }
        var observed := Rebuild(sha, views, completed.value.profile, completed.value.generation);
        if observed.None? {
          Fail(DependencyInvalid);
        } else if observed.value != completed.value.manifest {
          Fail(ManifestMismatch);
        } else {
          verification := Prepared;
        }
        return;
      }
      Fail(ProfileMismatched);
    }
  }

  predicate Stray(views: Views, active: Intent, completed: Option<Checkpoint>, n: StoreName)
    requires ViewsOk(views)
  {
    var profile := Dep(views, n).profile;
    profile.Some? && profile.value != active.profile && (completed.None? || profile.value != completed.value.profile)
  }
}
