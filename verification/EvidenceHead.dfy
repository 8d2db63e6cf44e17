/**
 The evidence chain and its durable checkpoint (`evidence_head.py`), the same test against an external witness
 (`evidence_witness.py`), and the loader that verifies the chain (`state_integrity.py`).
 */
module EvidenceHead {
  import opened Wrappers

  type Hash = int
  type Time = int

  /** What stands for the record before the first. */
  const GENESIS: Hash := 0

  /** An evidence record: its id, the hash of the one before it, everything else, and its own hash. */
  datatype Record = Record(id: string, previous: Hash, content: int, hash: Hash)

  datatype Body = Body(id: string, previous: Hash, content: int)

  function BodyOf(r: Record): Body {
    Body(r.id, r.previous, r.content)
  }

  type Chain = seq<Record>

  function HeadOf(c: Chain): Hash {
    if c == [] then GENESIS else c[|c| - 1].hash
  }

  predicate RecordOk(sha: Body -> Hash, c: Chain, i: nat)
    requires i < |c|
  {
    c[i].previous == HeadOf(c[..i]) && c[i].hash == sha(BodyOf(c[i])) && c[i].id != ""
  }

  predicate DistinctIds(c: Chain) {
    forall i, j :: 0 <= i < j < |c| ==> c[i].id != c[j].id
  }

  /** A chain that `_load_evidence` trusts. */
  predicate ChainOk(sha: Body -> Hash, c: Chain) {
    (forall i :: 0 <= i < |c| ==> RecordOk(sha, c, i)) && DistinctIds(c)
  }

  /** The loop of `_load_evidence`: the records up to the first that fails, and whether all passed. */
  method LoadEvidence(sha: Body -> Hash, lines: seq<Record>) returns (records: Chain, trusted: bool)
    ensures records <= lines && ChainOk(sha, records)
    ensures trusted <==> records == lines
    ensures trusted <==> ChainOk(sha, lines)
  {
    records, trusted := [], true;
    var previous := GENESIS;
    var seen: set<string> := {};
    for i := 0 to |lines|
      invariant records == lines[..i] && previous == HeadOf(records)
      invariant ChainOk(sha, records)
      invariant forall id :: id in seen <==> exists j :: 0 <= j < i && lines[j].id == id
    {
      var record := lines[i];
      assert lines[..i + 1] == lines[..i] + [record];
      assert ChainOk(sha, lines) ==> RecordOk(sha, lines, i);
      if record.previous != previous || record.hash != sha(BodyOf(record)) || record.id == "" || record.id in seen {
        return records, false;
      }
      seen := seen + {record.id};
      previous := record.hash;
      ghost var before := records;
      records := records + [record];
      forall j | 0 <= j < |records|
        ensures RecordOk(sha, records, j)
      {
        assert records[..j] == if j < i then before[..j] else before;
        assert j < i ==> RecordOk(sha, before, j);
      }
    }
    assert lines[..|lines|] == lines;
  }

  // ---------------------------------------------------------------------------
  // The test
  // ---------------------------------------------------------------------------

  datatype Head = Head(profile: Hash, count: int, hash: Hash, checkpointedAt: Time)

  /** `EvidenceHeadState.from_dict` accepts the checkpoint. */
  predicate HeadOk(h: Head) {
    h.count >= 0 && (h.count == 0 ==> h.hash == GENESIS)
  }

  datatype Verdict = Verified | ForwardRecovery | Rollback | Diverged

  /** `assess_evidence_head`. */
  function Assess(h: Head, records: Chain): Verdict
    requires h.count >= 0
  {
    if |records| == h.count then if HeadOf(records) == h.hash then Verified else Diverged
    else if |records| < h.count then Rollback
    else if h.count == 0 then if h.hash == GENESIS then ForwardRecovery else Diverged
    else if records[h.count - 1].hash == h.hash then ForwardRecovery
    else Diverged
  }

  /** `_assess_position` of the external witness; its `forward` is written `ForwardRecovery`. */
  function AssessPosition(count: int, head: Hash, records: Chain): Verdict
    requires count >= 0
  {
    var currentHead := if records == [] then GENESIS else records[|records| - 1].hash;
    if |records| == count then if currentHead == head then Verified else Diverged
    else if |records| < count then Rollback
    else if count == 0 && head == GENESIS then ForwardRecovery
    else if count > 0 && records[count - 1].hash == head then ForwardRecovery
    else Diverged
  }

  /** A checkpoint of a chain. */
  function Checkpoint(profile: Hash, c: Chain, now: Time): Head {
    Head(profile, |c|, HeadOf(c), now)
  }

  predicate Marks(h: Head, c: Chain) {
    h.count == |c| && h.hash == HeadOf(c)
  }

  ghost predicate Injective(sha: Body -> Hash) {
    forall x: Body, y: Body :: sha(x) == sha(y) ==> x == y
  }

  /** Two verified chains that have the same record hash at one place have the same records up to it. */
  lemma {:induction false} SameHashSamePast(sha: Body -> Hash, a: Chain, b: Chain, n: nat)
    requires Injective(sha) && ChainOk(sha, a) && ChainOk(sha, b) && n <= |a| && n <= |b|
    requires HeadOf(a[..n]) == HeadOf(b[..n])
    ensures a[..n] == b[..n]
  {
    if n > 0 {
      var i := n - 1;
      assert RecordOk(sha, a, i) && RecordOk(sha, b, i);
      assert sha(BodyOf(a[i])) == sha(BodyOf(b[i]));
      SameHashSamePast(sha, a, b, i);
      assert a[..n] == a[..i] + [a[i]] && b[..n] == b[..i] + [b[i]];
    }
  }

  /**
   The checkpoint is a prefix test. Against a checkpoint of chain A, a chain B is verified if it is A, a forward
   recovery if it extends A, a rollback if it is shorter, and diverged in every other case.
   */
  lemma CheckpointIsPrefixTest(sha: Body -> Hash, h: Head, a: Chain, b: Chain)
    requires Injective(sha) && ChainOk(sha, a) && ChainOk(sha, b) && Marks(h, a)
    ensures Assess(h, b) ==
      if a == b then Verified else if a <= b then ForwardRecovery else if |b| < |a| then Rollback else Diverged
    ensures AssessPosition(h.count, h.hash, b) == Assess(h, b)
  {
    var n := |a|;
    assert a[..n] == a;
    if n <= |b| {
      assert n > 0 ==> HeadOf(b[..n]) == b[n - 1].hash;
      if HeadOf(b[..n]) == h.hash {
        SameHashSamePast(sha, a, b, n);
      }
      assert |b| == n ==> b[..n] == b;
      assert a <= b ==> b[..n] == a;
    }
  }

  /** The two tests agree on every input. */
  lemma SameVerdicts(h: Head, records: Chain)
    requires h.count >= 0
    ensures AssessPosition(h.count, h.hash, records) == Assess(h, records)
  {
  }

  /** The witness also bounds how far the chain may have run ahead; without a bound any extension passes. */
  predicate WitnessAccepts(count: int, head: Hash, records: Chain, maxUnwitnessed: Option<int>)
    requires count >= 0
  {
    var verdict := AssessPosition(count, head, records);
    (verdict.Verified? || verdict.ForwardRecovery?) && (maxUnwitnessed.None? || |records| - count <= maxUnwitnessed.value)
  }

  /** A witness of chain A admits exactly the extensions of A that are at most the bound longer. */
  lemma WitnessAdmitsExtensions(sha: Body -> Hash, a: Chain, b: Chain, maxUnwitnessed: Option<int>)
    requires Injective(sha) && ChainOk(sha, a) && ChainOk(sha, b)
    ensures WitnessAccepts(|a|, HeadOf(a), b, maxUnwitnessed) <==>
            a <= b && (maxUnwitnessed.None? || |b| - |a| <= maxUnwitnessed.value)
  {
    CheckpointIsPrefixTest(sha, Checkpoint(0, a, 0), a, b);
  }

  // ---------------------------------------------------------------------------
  // The store
  // ---------------------------------------------------------------------------

  /** `reconcile_for_authority`: the checkpoint afterwards, or a refusal. */
  function Reconcile(head: Option<Head>, profile: Hash, records: Chain, rebind: bool, now: Time): Option<Head> {
    if head.None? then Some(Checkpoint(profile, records, now))
    else if !HeadOk(head.value) then None
    else
      var verdict := Assess(head.value, records);
      if head.value.profile != profile then
        if rebind && (verdict.Verified? || verdict.ForwardRecovery?) then Some(Checkpoint(profile, records, now)) else None
      else if verdict.Verified? then head
      else if verdict.ForwardRecovery? then Some(Checkpoint(profile, records, now))
      else None
  }

  /** `advance`. */
  function Advance(head: Option<Head>, profile: Hash, previousCount: int, previousHead: Hash, count: int, hash: Hash, now: Time)
    : Option<Head>
  {
    if previousCount < 0 || count <= previousCount || head.None? || !HeadOk(head.value) || head.value.profile != profile then None
    else if head.value.count == count && head.value.hash == hash then head
    else if head.value.count != previousCount || head.value.hash != previousHead then None
    else Some(Head(profile, count, hash, now))
  }

  /** `EvidenceHeadStateStore`. */
  class HeadStore {
    var head: Option<Head>

    constructor (head: Option<Head>)
      ensures this.head == head
    {
      this.head := head;
    }

    method ReconcileForAuthority(profile: Hash, records: Chain, rebind: bool, now: Time) returns (result: Option<Head>)
      modifies this
      ensures result == Reconcile(old(head), profile, records, rebind, now)
      ensures head == if result.Some? then result else old(head)
    {
      var count, hash := |records|, HeadOf(records);
      if head.None? {
        head := Some(Head(profile, count, hash, now));
        return head;
      }
      if !HeadOk(head.value) {
        return None;
      }
      if head.value.profile != profile {
        if !rebind {
          return None;
        }
        var prior := Assess(head.value, records);
        if prior.Verified? || prior.ForwardRecovery? {
          head := Some(Head(profile, count, hash, now));
          return head;
        }
        return None;
      }
      var verification := Assess(head.value, records);
      if verification.Verified? {
        return head;
      }
      if verification.ForwardRecovery? {
        head := Some(Head(profile, count, hash, now));
        return head;
      }
      return None;
    }

    method AdvanceHead(profile: Hash, previousCount: int, previousHead: Hash, count: int, hash: Hash, now: Time)
      returns (result: Option<Head>)
      modifies this
      ensures result == Advance(old(head), profile, previousCount, previousHead, count, hash, now)
      ensures head == if result.Some? then result else old(head)
    {
      if previousCount < 0 || count <= previousCount || head.None? || !HeadOk(head.value) || head.value.profile != profile {
        return None;
      }
      if head.value.count == count && head.value.hash == hash {
        return head;
      }
      if head.value.count != previousCount || head.value.hash != previousHead {
        return None;
      }
      head := Some(Head(profile, count, hash, now));
      return head;
    }
  }

  // ---------------------------------------------------------------------------
  // Runs
  // ---------------------------------------------------------------------------

  /** The evidence log and the checkpoint file. */
  datatype Disk = Disk(records: Chain, head: Option<Head>)

  /**
   Records appended and, if the process survives, checkpointed; a reconciliation at startup; or the log replaced from
   outside by any chain that verifies.
   */
  datatype Event =
    | Append(added: Chain, profile: Hash, now: Time, survives: bool)
    | Startup(profile: Hash, rebind: bool, now: Time)
    | Replace(records: Chain)

  /** What a startup or a checkpointed append accepts; `None` where the program stops. */
  function Accepted(d: Disk, e: Event): Option<Head> {
    match e
    case Append(added, profile, now, survives) =>
      if survives && added != [] then
        Advance(d.head, profile, |d.records|, HeadOf(d.records), |d.records + added|, HeadOf(d.records + added), now)
      else None
    case Startup(profile, rebind, now) => Reconcile(d.head, profile, d.records, rebind, now)
    case Replace(_) => None
  }

  function After(d: Disk, e: Event): Disk {
    Disk(match e case Append(added, _, _, _) => d.records + added case Startup(_, _, _) => d.records case Replace(r) => r,
         if Accepted(d, e).Some? then Accepted(d, e) else d.head)
  }

  /** The event leaves a log that verifies. */
  predicate Proper(sha: Body -> Hash, d: Disk, e: Event) {
    ChainOk(sha, After(d, e).records)
  }

  /** The checkpoint marks this chain. */
  predicate Bound(sha: Body -> Hash, d: Disk, marked: Chain) {
    ChainOk(sha, marked) && (if d.head.Some? then Marks(d.head.value, marked) else marked == [])
  }

  /** The chain marked after an event. */
  function Remark(d: Disk, e: Event, marked: Chain): Chain {
    if Accepted(d, e).Some? then After(d, e).records else marked
  }

  /** Whatever is accepted extends what was checkpointed before, and becomes the new checkpoint. */
  lemma EventExtends(sha: Body -> Hash, d: Disk, e: Event, marked: Chain)
    requires Injective(sha) && ChainOk(sha, d.records) && Bound(sha, d, marked) && Proper(sha, d, e)
    ensures Bound(sha, After(d, e), Remark(d, e, marked)) && marked <= Remark(d, e, marked)
  {
    hide ChainOk, Injective;
    if Accepted(d, e).Some? {
      match e
      case Append(added, profile, now, survives) =>
        var longer := d.records + added;
        if d.head.value.count == |longer| && d.head.value.hash == HeadOf(longer) {
          CheckpointIsPrefixTest(sha, d.head.value, marked, longer);
        } else {
          CheckpointIsPrefixTest(sha, d.head.value, marked, d.records);
        }
      case Startup(profile, rebind, now) =>
        if d.head.Some? {
          CheckpointIsPrefixTest(sha, d.head.value, marked, d.records);
        }
      case Replace(_) =>
    }
  }

  function DiskAt(d: Disk, events: seq<Event>, i: nat): Disk
    requires i <= |events|
    decreases i
  {
    if i == 0 then d else DiskAt(After(d, events[0]), events[1..], i - 1)
  }

  function MarkedAt(d: Disk, marked: Chain, events: seq<Event>, i: nat): Chain
    requires i <= |events|
    decreases i
  {
    if i == 0 then marked else MarkedAt(After(d, events[0]), Remark(d, events[0], marked), events[1..], i - 1)
  }

  ghost predicate ProperRun(sha: Body -> Hash, d: Disk, events: seq<Event>)
    decreases |events|
  {
    ChainOk(sha, d.records) &&
    (events == [] || (Proper(sha, d, events[0]) && ProperRun(sha, After(d, events[0]), events[1..])))
  }

  /**
   Over any run, with crashes, profile rebinds and even foreign logs put in place, the checkpointed count never
   decreases and every checkpointed chain extends all earlier ones.
   */
  lemma {:induction false} CheckpointsOnlyExtend(sha: Body -> Hash, d: Disk, marked: Chain, events: seq<Event>, i: nat, j: nat)
    requires Injective(sha) && Bound(sha, d, marked) && ProperRun(sha, d, events) && i <= j <= |events|
    ensures var (a, b) := (MarkedAt(d, marked, events, i), MarkedAt(d, marked, events, j));
            && Bound(sha, DiskAt(d, events, i), a) && Bound(sha, DiskAt(d, events, j), b) && marked <= a <= b
            && (DiskAt(d, events, i).head.Some? ==>
                  DiskAt(d, events, j).head.Some?
                  && DiskAt(d, events, i).head.value.count <= DiskAt(d, events, j).head.value.count)
    decreases |events|
  {
    hide ChainOk, Injective, After, Remark, Proper;
    if j > 0 {
      EventExtends(sha, d, events[0], marked);
      var next := After(d, events[0]);
      CheckpointsOnlyExtend(sha, next, Remark(d, events[0], marked), events[1..], if i > 0 then i - 1 else 0, j - 1);
      assert d.head.Some? ==> next.head.Some? by {
        HeadStays(d, events[0]);
      }
    }
  }

  lemma HeadStays(d: Disk, e: Event)
    ensures d.head.Some? ==> After(d, e).head.Some?
  {
  }

  /** A crash after an append and before its checkpoint is repaired by the next startup under the same profile, or any other with a rebind. */
  lemma CrashIsRepaired(sha: Body -> Hash, d: Disk, added: Chain, profile: Hash, rebind: bool, now: Time, later: Time)
    requires Injective(sha) && ChainOk(sha, d.records) && ChainOk(sha, d.records + added)
    requires d.head.Some? && HeadOk(d.head.value) && Marks(d.head.value, d.records)
    requires rebind || d.head.value.profile == profile
    ensures var crashed := After(d, Append(added, profile, now, false));
            var repaired := After(crashed, Startup(profile, rebind, later));
            && crashed.head == d.head
            && Accepted(crashed, Startup(profile, rebind, later)).Some?
            && Marks(repaired.head.value, d.records + added) && repaired.head.value.profile == profile
  {
  }

  /** A startup accepts a log exactly when it extends the checkpointed chain and the profile is bound or may be rebound. */
  lemma StartupAcceptsExtensions(sha: Body -> Hash, d: Disk, marked: Chain, profile: Hash, rebind: bool, now: Time)
    requires Injective(sha) && ChainOk(sha, d.records) && Bound(sha, d, marked) && (d.head.Some? ==> HeadOk(d.head.value))
    ensures Accepted(d, Startup(profile, rebind, now)).Some? <==>
            d.head.None? || (marked <= d.records && (rebind || d.head.value.profile == profile))
  {
    hide ChainOk;
    if d.head.Some? {
      CheckpointIsPrefixTest(sha, d.head.value, marked, d.records);
    }
  }
}
