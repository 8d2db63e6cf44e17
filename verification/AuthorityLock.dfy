/**
 `AuthorityTransactionLock` in `persistence.py`: a reentrant process lock around an operating-system lock on one file,
 as a state machine over the steps that threads of several processes take between each other.
 */
module AuthorityLock {
  import opened Wrappers

  type Process = int

  datatype ThreadId = ThreadId(process: Process, number: int)

  /**
   Where a thread stands in `acquire`. `Resting` is outside any step, whether inside the lock or not; `Acquired` has
   just taken the process lock; `Opening` is before the file lock, `Locked` after it; `Shallower` and `Unlocking` have
   given up a depth; `Closing` has given up the file lock, or never had it, and still owes the process lock.
   */
  datatype Phase = Resting | Acquired | Opening | Locked | Shallower | Unlocking | Closing

  /** A thread's place, its thread-local depth, and how often it holds its process lock. */
  datatype Thread = Thread(phase: Phase, depth: nat, count: nat)

  const FRESH := Thread(Resting, 0, 0)

  /** The threads that have taken a step, and the process that holds the file lock. */
  datatype System = System(threads: map<ThreadId, Thread>, owner: Option<Process>)

  const START := System(map[], None)

  function Get(s: System, x: ThreadId): Thread {
    if x in s.threads then s.threads[x] else FRESH
  }

  function Set(s: System, x: ThreadId, t: Thread): System {
    s.(threads := s.threads[x := t])
  }

  datatype Move =
    Acquire | Deepen | RootFails | RootReady | OpenFails | LockFile | Enter | Leave | UnlockFile | Release

  /** A thread takes its next step, or a process dies. */
  datatype Step = Take(x: ThreadId, move: Move) | Crash(process: Process)

  /** Another thread of the process holds the process lock. */
  predicate Contended(s: System, x: ThreadId) {
    exists y :: y in s.threads && y != x && y.process == x.process && s.threads[y].count > 0
  }

  /** The move is one the thread can take next. */
  predicate CanTake(t: Thread, move: Move) {
    match move
    case Acquire => t.phase.Resting?
    case Deepen => t.phase.Acquired? && t.depth > 0
    case RootFails => t.phase.Acquired? && t.depth == 0
    case RootReady => t.phase.Acquired? && t.depth == 0
    case OpenFails => t.phase.Opening?
    case LockFile => t.phase.Opening?
    case Enter => t.phase.Locked?
    case Leave => t.phase.Resting? && t.depth > 0
    case UnlockFile => t.phase.Unlocking?
    case Release => t.phase.Closing? || t.phase.Shallower?
  }

  predicate Enabled(s: System, step: Step) {
    step.Take? ==> CanTake(Get(s, step.x), step.move)
  }

  /**
   What a move makes of the thread, when another thread holds the process lock (`busy`) or any process the file lock
   (`locked`). A contended `Acquire` raises and changes nothing; a busy file lock goes to the cleanup.
   */
  function Moved(t: Thread, move: Move, busy: bool, locked: bool): Thread
    requires CanTake(t, move)
  {
    match move
    case Acquire => if busy then t else t.(phase := Acquired, count := t.count + 1)
    case Deepen => t.(phase := Resting, depth := t.depth + 1)
    case RootFails => t.(phase := Resting)
    case RootReady => t.(phase := Opening)
    case OpenFails => t.(phase := Closing)
    case LockFile => t.(phase := if locked then Closing else Locked)
    case Enter => t.(phase := Resting, depth := 1)
    case Leave => t.(phase := if t.depth == 1 then Unlocking else Shallower, depth := t.depth - 1)
    case UnlockFile => t.(phase := Closing)
    case Release => t.(phase := Resting, count := if t.count > 0 then t.count - 1 else 0)
  }

  function OwnerAfter(owner: Option<Process>, x: ThreadId, move: Move): Option<Process> {
    if move.LockFile? && owner.None? then Some(x.process) else if move.UnlockFile? then None else owner
  }

  function Next(s: System, step: Step): System
    requires Enabled(s, step)
  {
    match step
    case Take(x, move) =>
      Set(s, x, Moved(Get(s, x), move, Contended(s, x), s.owner.Some?)).(owner := OwnerAfter(s.owner, x, move))
    case Crash(p) =>
      System(map x | x in s.threads && x.process != p :: s.threads[x], if s.owner == Some(p) then None else s.owner)
  }

  /** The tables that the threads change in place. */
  class LockTables {
    var threads: map<ThreadId, Thread>
    var owner: Option<Process>

    constructor ()
      ensures Whole() == START
    {
      threads, owner := map[], None;
    }

    function Whole(): System
      reads this
    {
      System(threads, owner)
    }

    method Perform(step: Step)
      requires Enabled(Whole(), step)
      modifies this
      ensures Whole() == Next(old(Whole()), step)
    {
      if step.Crash? {
        threads := map x | x in threads && x.process != step.process :: threads[x];
        if owner == Some(step.process) {
          owner := None;
        }
        assert threads == Next(old(Whole()), step).threads;
        return;
      }
      hide Contended;
      var x, t, busy := step.x, Get(Whole(), step.x), Contended(Whole(), step.x);
      match step.move {
      case Acquire =>
        if !busy {
          t := t.(phase := Acquired, count := t.count + 1);
        }
      case Deepen => t := t.(phase := Resting, depth := t.depth + 1);
      case RootFails => t := t.(phase := Resting);
      case RootReady => t := t.(phase := Opening);
      case OpenFails => t := t.(phase := Closing);
      case LockFile =>
        if owner.Some? {
          t := t.(phase := Closing);
        } else {
          t := t.(phase := Locked);
          owner := Some(x.process);
        }
      case Enter => t := t.(phase := Resting, depth := 1);
      case Leave => t := t.(phase := if t.depth == 1 then Unlocking else Shallower, depth := t.depth - 1);
      case UnlockFile =>
        t := t.(phase := Closing);
        owner := None;
      case Release => t := t.(phase := Resting, count := if t.count > 0 then t.count - 1 else 0);
      }
      threads := threads[x := t];
    }
  }

  // ---------------------------------------------------------------------------
  // The invariant
  // ---------------------------------------------------------------------------

  /** What the thread has taken and will give back: its depth, and one more while it is in a step. */
  function Owed(t: Thread): nat {
    t.depth + if t.phase.Resting? then 0 else 1
  }

  /** Between taking and giving up the file lock. */
  predicate HoldsFile(t: Thread) {
    t.depth > 0 || t.phase.Locked? || t.phase.Unlocking?
  }

  predicate ThreadOk(t: Thread) {
    && Owed(t) <= t.count
    && (t.phase in {Opening, Locked, Unlocking, Closing} ==> t.depth == 0)
    && (t.phase.Shallower? ==> t.depth > 0)
  }

  /** Only one thread of a process holds its process lock. */
  predicate OneHolder(s: System) {
    forall x, y :: x in s.threads && y in s.threads && x.process == y.process && s.threads[x].count > 0 && s.threads[y].count > 0
                   ==> x == y
  }

  /** The file lock is held by a process exactly while one of its threads is between taking it and giving it up. */
  predicate FileHeld(s: System) {
    && (forall x :: x in s.threads && HoldsFile(s.threads[x]) ==> s.owner == Some(x.process))
    && (s.owner.Some? ==> exists x :: x in s.threads && x.process == s.owner.value && HoldsFile(s.threads[x]))
  }

  predicate Sound(s: System) {
    (forall x :: x in s.threads ==> ThreadOk(s.threads[x])) && OneHolder(s) && FileHeld(s)
  }

  lemma StartIsSound()
    ensures Sound(START)
  {
  }

  /** A step that changes one thread and leaves the file lock with the process it was with. */
  lemma QuietChange(s: System, x: ThreadId, t: Thread)
    requires Sound(s) && ThreadOk(t) && (t.count > 0 ==> Get(s, x).count > 0 || !Contended(s, x))
    requires HoldsFile(t) <==> HoldsFile(Get(s, x))
    ensures Sound(Set(s, x, t))
  {
    hide ThreadOk, HoldsFile;
    var n := Set(s, x, t);
    assert !HoldsFile(FRESH) by {
      FreshHoldsNothing();
    }
    if s.owner.Some? {
      var y :| y in s.threads && y.process == s.owner.value && HoldsFile(s.threads[y]);
      assert y in n.threads && HoldsFile(n.threads[y]);
    }
    if t.count > 0 {
      OthersHoldNothing(s, x);
    }
  }

  lemma OthersHoldNothing(s: System, x: ThreadId)
    requires OneHolder(s) && (Get(s, x).count > 0 || !Contended(s, x))
    ensures forall y :: y in s.threads && y != x && y.process == x.process ==> s.threads[y].count == 0
  {
  }

  lemma FreshHoldsNothing()
    ensures !HoldsFile(FRESH)
  {
  }

  /** Moves keep a thread's account, and only the two file moves change whether it holds the file lock. */
  lemma MoveKeepsThread(t: Thread, move: Move, busy: bool, locked: bool)
    requires ThreadOk(t) && CanTake(t, move)
    ensures ThreadOk(Moved(t, move, busy, locked))
    ensures Moved(t, move, busy, locked).count > 0 ==> t.count > 0 || (move.Acquire? && !busy)
    ensures !move.UnlockFile? && !(move.LockFile? && !locked) ==> (HoldsFile(Moved(t, move, busy, locked)) <==> HoldsFile(t))
  {
  }

  lemma StepKeepsSound(s: System, step: Step)
    requires Sound(s) && Enabled(s, step)
    ensures Sound(Next(s, step))
  {
    hide Sound, Contended, Moved, HoldsFile, ThreadOk;
    match step
    case Crash(p) => CrashKeepsSound(s, p);
    case Take(x, move) =>
      ThreadIsOk(s, x);
      if move.LockFile? && s.owner.None? {
        LockKeepsSound(s, x);
      } else if move.UnlockFile? {
        UnlockKeepsSound(s, x);
      } else {
        MoveKeepsThread(Get(s, x), move, Contended(s, x), s.owner.Some?);
        QuietChange(s, x, Moved(Get(s, x), move, Contended(s, x), s.owner.Some?));
      }
  }

  lemma ThreadIsOk(s: System, x: ThreadId)
    requires Sound(s)
    ensures ThreadOk(Get(s, x))
  {
  }

  lemma LockKeepsSound(s: System, x: ThreadId)
    requires Sound(s) && Get(s, x).phase.Opening? && s.owner.None?
    ensures Sound(Next(s, Take(x, LockFile)))
  {
    hide Contended;
    var n := Next(s, Take(x, LockFile));
    assert x in n.threads && HoldsFile(n.threads[x]);
  }

  lemma UnlockKeepsSound(s: System, x: ThreadId)
    requires Sound(s) && Get(s, x).phase.Unlocking?
    ensures Sound(Next(s, Take(x, UnlockFile)))
  {
    hide Contended;
    var n := Next(s, Take(x, UnlockFile));
    assert HoldsFile(s.threads[x]) && s.threads[x].count > 0;
    forall y | y in n.threads
      ensures !HoldsFile(n.threads[y])
    {
      if y != x {
        assert ThreadOk(s.threads[y]);
        assert y.process == x.process ==> s.threads[y].count == 0;
      }
    }
  }

  lemma CrashKeepsSound(s: System, p: Process)
    requires Sound(s)
    ensures Sound(Next(s, Crash(p)))
  {
  }

  // ---------------------------------------------------------------------------
  // Runs
  // ---------------------------------------------------------------------------

  /** Every step of the run is possible where it is taken. */
  predicate Possible(s: System, steps: seq<Step>)
    decreases |steps|
  {
    steps == [] || (Enabled(s, steps[0]) && Possible(Next(s, steps[0]), steps[1..]))
  }

  function After(s: System, steps: seq<Step>): System
    requires Possible(s, steps)
    decreases |steps|
  {
    if steps == [] then s else After(Next(s, steps[0]), steps[1..])
  }

  lemma {:induction false} RunsStaySound(s: System, steps: seq<Step>)
    requires Sound(s) && Possible(s, steps)
    ensures Sound(After(s, steps))
    decreases |steps|
  {
    hide Sound, Enabled, Next;
    if steps != [] {
      StepKeepsSound(s, steps[0]);
      RunsStaySound(Next(s, steps[0]), steps[1..]);
    }
  }

  /**
   Over every interleaving of threads and processes, with nested acquisition, contention, failures and crashes: at most
   one thread in the system is inside, no thread's depth exceeds how often it holds its process lock, and the file lock
   is held exactly by the process that has a thread inside or between locking and unlocking.
   */
  lemma MutualExclusion(steps: seq<Step>, x: ThreadId, y: ThreadId)
    requires Possible(START, steps)
    ensures var s := After(START, steps);
            && (Get(s, x).depth > 0 && Get(s, y).depth > 0 ==> x == y)
            && Get(s, x).depth <= Get(s, x).count
            && (HoldsFile(Get(s, x)) ==> s.owner == Some(x.process))
            && (s.owner == Some(x.process) ==> exists z: ThreadId :: z.process == x.process && HoldsFile(Get(s, z)))
  {
    hide Possible, After;
    StartIsSound();
    RunsStaySound(START, steps);
    var s := After(START, steps);
    if s.owner == Some(x.process) {
      var z :| z in s.threads && z.process == s.owner.value && HoldsFile(s.threads[z]);
      assert HoldsFile(Get(s, z));
    }
  }

  /** A crash frees the file lock, and another process's thread that waits to lock it then succeeds. */
  lemma CrashFrees(s: System, p: Process, x: ThreadId)
    requires Sound(s) && s.owner == Some(p) && x.process != p && Get(s, x).phase.Opening?
    ensures Next(s, Crash(p)).owner.None?
    ensures var n := Next(s, Crash(p));
            Enabled(n, Take(x, LockFile)) && Next(n, Take(x, LockFile)).owner == Some(x.process)
    ensures forall y: ThreadId :: y.process == p ==> Get(Next(s, Crash(p)), y) == FRESH
  {
  }

  // ---------------------------------------------------------------------------
  // The leak
  // ---------------------------------------------------------------------------

  /** How often a thread holds its process lock without ever going to release it. */
  function Leaked(t: Thread): int {
    t.count - Owed(t)
  }

  /** Failures of `prepare_storage_root` (line 366, before the releasing `finally`) by a thread since its process started. */
  function RootFailures(steps: seq<Step>, x: ThreadId): nat
    decreases |steps|
  {
    if steps == [] then 0
    else
      var (most, last) := (steps[..|steps| - 1], steps[|steps| - 1]);
      if last == Crash(x.process) then 0
      else RootFailures(most, x) + if last == Take(x, RootFails) then 1 else 0
  }

  lemma LeakStep(s: System, step: Step, x: ThreadId)
    requires ThreadOk(Get(s, x)) && Enabled(s, step)
    ensures Leaked(Get(Next(s, step), x)) ==
            if step == Crash(x.process) then 0 else Leaked(Get(s, x)) + if step == Take(x, RootFails) then 1 else 0
  {
    hide Contended, ThreadOk, Moved, CanTake, Next, Get, Leaked;
    match step
    case Crash(p) => CrashedThread(s, p, x);
    case Take(y, move) =>
      TakenBy(s, y, move, x);
      if y == x {
        LeakMove(Get(s, x), move, Contended(s, x), s.owner.Some?);
      }
  }

  lemma CrashedThread(s: System, p: Process, x: ThreadId)
    ensures Get(Next(s, Crash(p)), x) == if x.process == p then FRESH else Get(s, x)
    ensures Leaked(FRESH) == 0
  {
    hide Contended, Moved, OwnerAfter, Set;
    var n := Next(s, Crash(p));
    assert x in n.threads <==> x in s.threads && x.process != p;
  }

  lemma TakenBy(s: System, y: ThreadId, move: Move, x: ThreadId)
    requires CanTake(Get(s, y), move)
    ensures Get(Next(s, Take(y, move)), x) ==
            if x == y then Moved(Get(s, x), move, Contended(s, x), s.owner.Some?) else Get(s, x)
  {
  }

  lemma LeakMove(t: Thread, move: Move, busy: bool, locked: bool)
    requires ThreadOk(t) && CanTake(t, move)
    ensures Leaked(Moved(t, move, busy, locked)) == Leaked(t) + if move.RootFails? then 1 else 0
  {
  }

  lemma {:induction false} AfterSnoc(s: System, steps: seq<Step>, last: Step)
    requires Possible(s, steps + [last])
    ensures Possible(s, steps) && Enabled(After(s, steps), last) && After(s, steps + [last]) == Next(After(s, steps), last)
    decreases |steps|
  {
    hide Enabled, Next;
    if steps == [] {
      assert (steps + [last])[0] == last && (steps + [last])[1..] == [];
    } else {
      assert (steps + [last])[0] == steps[0] && (steps + [last])[1..] == steps[1..] + [last];
      AfterSnoc(Next(s, steps[0]), steps[1..], last);
    }
  }

  /** The count a thread holds beyond what it will release is exactly the number of its root failures: no other path leaks. */
  lemma {:induction false} LeaksAreRootFailures(steps: seq<Step>, x: ThreadId)
    requires Possible(START, steps)
    ensures Leaked(Get(After(START, steps), x)) == RootFailures(steps, x)
    decreases |steps|
  {
    hide Enabled, Next, Sound, Possible, After;
    if steps != [] {
      var (most, last) := (steps[..|steps| - 1], steps[|steps| - 1]);
      assert steps == most + [last];
      AfterSnoc(START, most, last);
      LeaksAreRootFailures(most, x);
      StartIsSound();
      RunsStaySound(START, most);
      ThreadIsOk(After(START, most), x);
      LeakStep(After(START, most), last, x);
    } else {
      NothingYet(x);
    }
  }

  lemma NothingYet(x: ThreadId)
    ensures Possible(START, []) && After(START, []) == START && Leaked(Get(START, x)) == 0
  {
  }

  /**
   After one such failure no other thread of the process is ever inside again until the process crashes: the lock
   stays with a thread that may be outside.
   */
  lemma LeakLocksOutTheProcess(steps: seq<Step>, x: ThreadId, y: ThreadId)
    requires Possible(START, steps) && RootFailures(steps, x) > 0 && y != x && y.process == x.process
    ensures Get(After(START, steps), y).depth == 0 && !Get(After(START, steps), y).phase.Acquired?
    ensures Contended(After(START, steps), y)
  {
    hide Possible, After, RootFailures;
    LeaksAreRootFailures(steps, x);
    StartIsSound();
    RunsStaySound(START, steps);
    var s := After(START, steps);
    ThreadIsOk(s, y);
    assert x in s.threads && s.threads[x].count > 0;
    assert y in s.threads ==> s.threads[y].count == 0;
  }

  /** It can happen: one acquisition whose storage root fails, and the thread is outside but still holds the process lock. */
  lemma LeakIsReachable(x: ThreadId)
    ensures var steps := [Take(x, Acquire), Take(x, RootFails)];
            Possible(START, steps) && Get(After(START, steps), x) == Thread(Resting, 0, 1) && RootFailures(steps, x) == 1
  {
    var steps := [Take(x, Acquire), Take(x, RootFails)];
    var s := Next(START, Take(x, Acquire));
    assert steps[1..] == [Take(x, RootFails)] && steps[1..][1..] == [];
    assert Possible(Next(s, Take(x, RootFails)), steps[1..][1..]);
    assert steps[..1] == [Take(x, Acquire)] && steps[..1][..0] == [];
    assert RootFailures(steps[..1][..0], x) == 0;
    assert RootFailures(steps[..1], x) == 0;
    assert Get(s, x) == Thread(Acquired, 0, 1);
    assert After(s, steps[1..]) == After(Next(s, Take(x, RootFails)), steps[1..][1..]);
  }
}
