/**
 What the classification of an interrupted publication means for the stores: which can be replayed, what goes unnoticed,
 when the publication has arrived and when it has not begun.
 */
module PublicationReplay {
  import opened ActivePublication
  import opened AuthorityPublication
  import opened Wrappers

  /** Two committed records of different profiles: the situation of a publication being applied. */
  predicate Applied(active: Intent, completed: Checkpoint) {
    && active.stores.Some? && CommitmentsOk(active.stores.value)
    && completed.stores.Some? && CommitmentsOk(completed.stores.value)
    && active.profile != completed.profile
  }

  /** The store holds exactly its checkpoint value under the checkpoint profile, or its target value under the target profile. */
  predicate Replayable(sha: Hashed -> Hash, v: View, n: StoreName, active: Intent, completed: Checkpoint)
    requires Applied(active, completed)
  {
    !v.state.Invalid? &&
    match v.file
    case Unreadable => false
    case Absent => Optional(n)
    case Holds(profile, authority) =>
      || (profile == active.profile && HashedValue(sha, authority) == Of(active.stores.value, n))
      || (profile == completed.profile && HashedValue(sha, authority) == Of(completed.stores.value, n))
  }

  /** The evidence witness policy is gone; the search for missing stores asks for another state than its entry then has. */
  predicate Unnoticed(v: View, n: StoreName) {
    n.EvidenceWitnessPolicy? && v.file.Absent? && !v.state.Invalid?
  }

  ghost predicate AllReplayable(sha: Hashed -> Hash, views: Views, active: Intent, completed: Checkpoint)
    requires ViewsOk(views) && Applied(active, completed)
  {
    forall n: StoreName :: Replayable(sha, Dep(views, n), n, active, completed)
  }

  ghost predicate AllPass(sha: Hashed -> Hash, views: Views, active: Intent, completed: Checkpoint)
    requires ViewsOk(views) && Applied(active, completed)
  {
    forall n: StoreName :: Replayable(sha, Dep(views, n), n, active, completed) || Unnoticed(Dep(views, n), n)
  }

  lemma EntryFollows(views: Views, n: StoreName)
    requires ViewsOk(views)
    ensures EntryOk(Dependency(n), Dep(views, n))
  {
  }

  /** The three tests together pass exactly the stores that can be replayed, and a missing evidence witness policy. */
  lemma TestsAreReplayable(sha: Hashed -> Hash, views: Views, active: Intent, completed: Checkpoint)
    requires ViewsOk(views) && Applied(active, completed)
    ensures AllPass(sha, views, active, completed) <==>
            && !Broken(views, active, Some(completed))
            && (forall n: StoreName :: !OffCommitment(sha, views, active.profile, active.stores.value, n))
            && (forall n: StoreName :: !OffCommitment(sha, views, completed.profile, completed.stores.value, n))
  {
    hide ViewsOk, CommitmentsOk;
    forall n: StoreName
      ensures Replayable(sha, Dep(views, n), n, active, completed) || Unnoticed(Dep(views, n), n) <==>
              && !Dep(views, n).state.Invalid? && !Stray(views, active, Some(completed), n)
              && !(!Optional(n) && Dep(views, n).state.NotRecorded?)
              && !OffCommitment(sha, views, active.profile, active.stores.value, n)
              && !OffCommitment(sha, views, completed.profile, completed.stores.value, n)
    {
      EntryFollows(views, n);
    }
  }

  /**
   With the target profile active over a committed checkpoint of another profile: the result is critical exactly when
   some dependency is invalid, missing, under a third profile or off its commitment, unless that is a missing evidence
   witness policy, or the head has arrived and the files do not rebuild the manifest. Otherwise it is applying while the
   head is at the checkpoint, and ready to complete once it is at the target, with every dependency in place.
   */
  lemma ClassificationIsSound(sha: Hashed -> Hash, views: Views, issues: seq<Issue>, active: Intent, completed: Checkpoint,
                              profile: P.Profile)
    requires ViewsOk(views) && Applied(active, completed)
    requires profile.hash == active.profile && profile.generation == active.generation
    ensures var report := Classify(sha, views, issues, active, Some(completed), Some(profile));
            var head := Dep(views, EvidenceHead).profile;
            var rebuilt := Rebuild(sha, views, active.profile, active.generation) == Some(active.manifest);
            && (Critical(report.class_) <==>
                !AllPass(sha, views, active, completed) || (head == Some(active.profile) && !rebuilt))
            && (report.class_.Applying? <==> AllPass(sha, views, active, completed) && head == Some(completed.profile))
            && (report.class_.ReadyToComplete? <==>
                AllReplayable(sha, views, active, completed) && head == Some(active.profile) && rebuilt)
            && (report.class_.Applying? ==>
                  report.views == Recovering(views, completed.profile)
                  && report.issues == Without(issues, Downgraded(views, completed.profile)))
            && (report.class_.ReadyToComplete? ==> report.views == views && report.issues == issues)
            && (Critical(report.class_) ==> report.views == views && report.issues == issues + [IssueOf(report.class_)])
  {
    hide Broken, OffCommitment, Rebuild, AllReplayable, AllPass, ViewsOk;
    TestsAreReplayable(sha, views, active, completed);
    if AllPass(sha, views, active, completed) {
      HeadIsSomewhere(sha, views, active, completed);
    }
    PassOrReplay(sha, views, active, completed);
  }

  lemma HeadIsSomewhere(sha: Hashed -> Hash, views: Views, active: Intent, completed: Checkpoint)
    requires ViewsOk(views) && Applied(active, completed) && AllPass(sha, views, active, completed)
    ensures Dep(views, EvidenceHead).profile in {Some(active.profile), Some(completed.profile)}
  {
    EntryFollows(views, EvidenceHead);
    assert Replayable(sha, Dep(views, EvidenceHead), EvidenceHead, active, completed);
  }

  /** What passes unnoticed does not rebuild a manifest. */
  lemma PassOrReplay(sha: Hashed -> Hash, views: Views, active: Intent, completed: Checkpoint)
    requires ViewsOk(views) && Applied(active, completed)
    ensures AllReplayable(sha, views, active, completed) ==> AllPass(sha, views, active, completed)
    ensures AllPass(sha, views, active, completed) && Rebuild(sha, views, active.profile, active.generation).Some? ==>
              AllReplayable(sha, views, active, completed)
  {
    hide ViewsOk, Replayable;
  }

  /**
   Where every other dependency can be replayed, a required one that is missing is critical exactly when it is not the
   evidence witness policy, or the head names the target profile, where rebuilding the manifest refuses it.
   */
  lemma MissingRequiredStore(sha: Hashed -> Hash, views: Views, issues: seq<Issue>, active: Intent, completed: Checkpoint,
                             profile: P.Profile, n: StoreName)
    requires ViewsOk(views) && Applied(active, completed)
    requires profile.hash == active.profile && profile.generation == active.generation
    requires !Optional(n) && Dep(views, n).file.Absent? && !Dep(views, n).state.Invalid?
    requires forall m: StoreName :: m != n ==> Replayable(sha, Dep(views, m), m, active, completed)
    ensures Critical(Classify(sha, views, issues, active, Some(completed), Some(profile)).class_) <==>
            !n.EvidenceWitnessPolicy? || Dep(views, EvidenceHead).profile == Some(active.profile)
  {
    ClassificationIsSound(sha, views, issues, active, completed, profile);
    hide Classify, ViewsOk;
    assert AllPass(sha, views, active, completed) <==> n.EvidenceWitnessPolicy? by {
      assert !Replayable(sha, Dep(views, n), n, active, completed);
    }
    assert n.EvidenceWitnessPolicy? ==> Rebuild(sha, views, active.profile, active.generation).None?;
  }

  /** A store that is still at the checkpoint, as it stands once the target profile is active. */
  function AtCheckpoint(profile: Hash, authority: Authority): View {
    View(Recorded, Some(profile), ProfileMismatch, Holds(profile, Some(authority)))
  }

  function AllButWitness(profile: Hash, authority: Authority): Views {
    var (here, gone) := (AtCheckpoint(profile, authority), View(NotConfigured, None, OtherCheck, Absent));
    map[Dependency(StateStorage) := here, Dependency(ControlPlaneIsolation) := here, Dependency(WorkspaceIntegrity) := here,
        Dependency(EvidenceWitnessPolicy) := gone, Dependency(RuntimeArtifacts) := here, Dependency(LaunchEnvelope) := here,
        Dependency(EvidenceHead) := here, WitnessPolicy := gone]
  }

  /**
   It can happen: six stores at the checkpoint of profile 1, the evidence witness policy gone, and the publication of
   profile 2 is reported as one that is being applied.
   */
  lemma MissingWitnessGoesUnnoticed(sha: Hashed -> Hash, profile: P.Profile)
    requires profile.hash == 2 && profile.generation == 2
    ensures var stores := map n | n in Names() :: Some(sha(StoreBody(0)));
            var active := Intent(2, 2, 7, 0, Some(stores), None, None);
            var completed := Checkpoint(1, 1, 5, 0, Some(stores), None, None, None, None);
            var views := AllButWitness(1, 0);
            && ViewsOk(views) && CommitmentsOk(stores)
            && Dep(views, EvidenceWitnessPolicy).file.Absent? && !Optional(EvidenceWitnessPolicy)
            && Classify(sha, views, [], active, Some(completed), Some(profile)).class_.Applying?
  {
    var stores: Commitments := map n | n in Names() :: Some(sha(StoreBody(0)));
    var active := Intent(2, 2, 7, 0, Some(stores), None, None);
    var completed := Checkpoint(1, 1, 5, 0, Some(stores), None, None, None, None);
    var views := AllButWitness(1, 0);
    forall n: StoreName
      ensures Dependency(n) in views && n in Names()
      ensures views[Dependency(n)] == if n.EvidenceWitnessPolicy? then View(NotConfigured, None, OtherCheck, Absent)
                                      else AtCheckpoint(1, 0)
    {
      NamesAreAll(n);
    }
    ViewsOfCheckpoint(1, 0);
    hide Classify, ViewsOk, AllButWitness;
    assert AllPass(sha, views, active, completed);
    hide AllPass;
    ClassificationIsSound(sha, views, [], active, completed, profile);
  }

  lemma ViewsOfCheckpoint(profile: Hash, authority: Authority)
    ensures ViewsOk(AllButWitness(profile, authority))
  {
    var views := AllButWitness(profile, authority);
    forall n: StoreName
      ensures Dependency(n) in views
    {
      NamesAreAll(n);
    }
  }

  /** The downgrade removes exactly the mismatch issues of the stores still at the checkpoint and keeps the order of the rest. */
  lemma {:induction false} DowngradeIsExact(issues: seq<Issue>, removed: set<Reported>, i: Issue)
    ensures i in Without(issues, removed) <==> i in issues && !(i.StoreMismatch? && i.store in removed)
  {
    if issues != [] {
      DowngradeIsExact(issues[1..], removed, i);
      assert issues == [issues[0]] + issues[1..];
    }
  }

  ghost predicate Injective(sha: Hashed -> Hash) {
    forall x: Hashed, y: Hashed :: sha(x) == sha(y) ==> x == y
  }

  /** What a manifest is made from: a value for each store, absent only where the store is optional, and a policy. */
  datatype Contents = Contents(values: map<StoreName, Option<Authority>>, policy: Option<Authority>)

  predicate ContentsOk(x: Contents) {
    x.values.Keys == Names() && forall n: StoreName :: n in x.values && x.values[n].None? ==> Optional(n)
  }

  function ManifestOf(sha: Hashed -> Hash, profile: Hash, generation: int, x: Contents): Hash {
    sha(ManifestBody(profile, generation, x.values, x.policy))
  }

  /** The file holds the value under the profile; a missing file holds no value. */
  predicate HoldsValue(f: File, profile: Hash, value: Option<Authority>) {
    !f.Unreadable? && !Foreign(f, profile) && AuthorityIn(f) == value
  }

  /** Every store, the publication witness policy included, holds its part of the manifest under the profile. */
  ghost predicate InPlace(views: Views, profile: Hash, x: Contents)
    requires ViewsOk(views) && ContentsOk(x)
  {
    && (forall n: StoreName :: HoldsValue(Dep(views, n).file, profile, Of(x.values, n)))
    && HoldsValue(Policy(views).file, profile, x.policy)
  }

  lemma RebuiltValuesAre(views: Views, x: Contents)
    requires ViewsOk(views) && ContentsOk(x)
    ensures RebuiltValues(views) == x.values <==> forall n: StoreName :: AuthorityIn(Dep(views, n).file) == Of(x.values, n)
  {
    hide ViewsOk;
    forall n: StoreName
      ensures n in Names() && n in RebuiltValues(views) && RebuiltValues(views)[n] == AuthorityIn(Dep(views, n).file)
    {
      NamesAreAll(n);
    }
    if forall n: StoreName :: AuthorityIn(Dep(views, n).file) == Of(x.values, n) {
      assert forall n: StoreName :: RebuiltValues(views)[n] == Of(x.values, n);
    }
  }

  /** By injectivity, the files rebuild a manifest exactly when they hold what it was made from. */
  lemma RebuildIsExact(sha: Hashed -> Hash, views: Views, profile: Hash, generation: int, x: Contents)
    requires Injective(sha) && ViewsOk(views) && ContentsOk(x)
    ensures Rebuild(sha, views, profile, generation) == Some(ManifestOf(sha, profile, generation, x)) <==> InPlace(views, profile, x)
  {
    RebuiltValuesAre(views, x);
    if InPlace(views, profile, x) {
      RequiredHolds(views, profile, x);
      assert forall n: StoreName :: HoldsValue(Dep(views, n).file, profile, Of(x.values, n));
    }
    hide ViewsOk, ContentsOk, RebuiltValues;
    var (a, b) := (ManifestBody(profile, generation, RebuiltValues(views), AuthorityIn(Policy(views).file)),
                   ManifestBody(profile, generation, x.values, x.policy));
    assert sha(a) == sha(b) ==> a == b;
  }

  /** A required store in place has a file. */
  lemma RequiredHolds(views: Views, profile: Hash, x: Contents)
    requires ViewsOk(views) && ContentsOk(x) && InPlace(views, profile, x)
    ensures forall n: StoreName :: Optional(n) || !Dep(views, n).file.Absent?
  {
    forall n: StoreName
      ensures Optional(n) || !Dep(views, n).file.Absent?
    {
      NamesAreAll(n);
      assert HoldsValue(Dep(views, n).file, profile, Of(x.values, n));
    }
  }

  /** The intent was prepared from these contents: its manifest and its commitments are theirs. */
  predicate PreparedFrom(sha: Hashed -> Hash, active: Intent, x: Contents) {
    && ContentsOk(x) && active.stores.Some? && CommitmentsOk(active.stores.value)
    && active.manifest == ManifestOf(sha, active.profile, active.generation, x)
    && forall n: StoreName :: Of(active.stores.value, n) == HashedValue(sha, Of(x.values, n))
  }

  /** Ready to complete means arrived: no entry is invalid and every store holds its target value under the target profile. */
  lemma ReadyMeansArrived(sha: Hashed -> Hash, views: Views, issues: seq<Issue>, active: Intent, completed: Checkpoint,
                          profile: P.Profile, x: Contents)
    requires Injective(sha) && ViewsOk(views) && Applied(active, completed) && PreparedFrom(sha, active, x)
    requires profile.hash == active.profile && profile.generation == active.generation
    ensures Classify(sha, views, issues, active, Some(completed), Some(profile)).class_.ReadyToComplete? <==>
            InPlace(views, active.profile, x) && forall n: StoreName :: !Dep(views, n).state.Invalid?
  {
    ClassificationIsSound(sha, views, issues, active, completed, profile);
    RebuildIsExact(sha, views, active.profile, active.generation, x);
    TargetIsReplayable(sha, views, active, completed, x);
    hide Classify, Rebuild, Broken, OffCommitment, Injective, PreparedFrom, AllReplayable, AllPass, ViewsOk, InPlace;
  }

  lemma TargetIsReplayable(sha: Hashed -> Hash, views: Views, active: Intent, completed: Checkpoint, x: Contents)
    requires ViewsOk(views) && Applied(active, completed) && PreparedFrom(sha, active, x)
    ensures InPlace(views, active.profile, x) && (forall n: StoreName :: !Dep(views, n).state.Invalid?) ==>
              AllReplayable(sha, views, active, completed) && Dep(views, EvidenceHead).profile == Some(active.profile)
    ensures AllReplayable(sha, views, active, completed) ==> forall n: StoreName :: !Dep(views, n).state.Invalid?
  {
    hide ViewsOk;
    forall n: StoreName
      ensures EntryOk(Dependency(n), Dep(views, n)) && n in Names()
    {
      NamesAreAll(n);
      EntryFollows(views, n);
    }
    if InPlace(views, active.profile, x) && (forall n: StoreName :: !Dep(views, n).state.Invalid?) {
      forall n: StoreName
        ensures Replayable(sha, Dep(views, n), n, active, completed)
      {
        assert HoldsValue(Dep(views, n).file, active.profile, Of(x.values, n));
        assert Of(active.stores.value, n) == HashedValue(sha, Of(x.values, n));
      }
      assert HoldsValue(Dep(views, EvidenceHead).file, active.profile, Of(x.values, EvidenceHead));
    }
    if AllReplayable(sha, views, active, completed) {
      forall n: StoreName
        ensures !Dep(views, n).state.Invalid?
      {
        assert Replayable(sha, Dep(views, n), n, active, completed);
      }
    }
  }

  /** The enrolled profile is the checkpoint's, and its staged rotation is to the intent's. */
  predicate StagedFor(profile: P.Profile, active: Intent, completed: Checkpoint) {
    && profile.hash == completed.profile && profile.generation == completed.generation
    && active.generation == completed.generation + 1
    && profile.pending.Some? && profile.pending.value.toGeneration == active.generation
    && profile.pending.value.toHash == active.profile
  }

  /**
   Before the target profile is activated, a publication counts as prepared exactly when the rotation to it is staged and
   every store still holds what the checkpoint was made from; everything else is critical.
   */
  lemma PreparedIffIntact(sha: Hashed -> Hash, views: Views, issues: seq<Issue>, active: Intent, completed: Checkpoint,
                          profile: P.Profile, x: Contents)
    requires Injective(sha) && ViewsOk(views) && ContentsOk(x)
    requires active.stores.Some? ==> CommitmentsOk(active.stores.value)
    requires completed.stores.Some? ==> CommitmentsOk(completed.stores.value)
    requires completed.manifest == ManifestOf(sha, completed.profile, completed.generation, x)
    requires !(profile.hash == active.profile && profile.generation == active.generation)
    ensures var c := Classify(sha, views, issues, active, Some(completed), Some(profile)).class_;
            && (c.Prepared? <==> StagedFor(profile, active, completed) && InPlace(views, completed.profile, x))
            && (Critical(c) <==> !c.Prepared?)
  {
    RebuildIsExact(sha, views, completed.profile, completed.generation, x);
    hide Rebuild, InPlace, ViewsOk, Injective;
  }
}
