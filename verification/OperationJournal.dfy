/**
 The one-slot crash journal (`operation_journal.py`) over the approval store: an operation is stored before it is
 applied and cleared after, and whatever a restart finds in the slot is applied again.
 */
module OperationJournal {
  import opened Approvals
  import opened Wrappers

  /** The journaled operations that touch approvals. An execution may complete without an approval. */
  datatype Effectful =
    | ApprovalCreate(pending: Approval)
    | ApprovalReject(id: string, decidedBy: string, note: string, att: Option<Attestation>)
    | ApprovalExpire(id: string)
    | ExecutionComplete(id: string, record: string)

  datatype Operation = Operation(operationId: string, effect: Effectful)

  /**
   `OperationJournal`: at most one recoverable operation. Two predicates stand for what the JSON modules say of a payload:
   which operations pass the checks before they are written, and which can be read back from the file.
   */
  class OperationJournal {
    const accepts: Operation -> bool
    const readable: Operation -> bool
    var active: Option<Operation>

    constructor (accepts: Operation -> bool, readable: Operation -> bool, active: Option<Operation>)
      ensures this.accepts == accepts && this.readable == readable && this.active == active
    {
      this.accepts, this.readable, this.active := accepts, readable, active;
    }

    method Prepare(operation: Operation) returns (ok: bool)
      modifies this
      ensures ok <==> accepts(operation) && old(active).None?
      ensures active == if ok then Some(operation) else old(active)
    {
      if !accepts(operation) || active.Some? {
        return false;
      }
      active := Some(operation);
      return true;
    }

    method Complete(operationId: string) returns (ok: bool)
      modifies this
      ensures ok <==> old(active).Some? && readable(old(active).value) && old(active).value.operationId == operationId
      ensures active == if ok then None else old(active)
    {
      if active.None? || !readable(active.value) || active.value.operationId != operationId {
        return false;
      }
      active := None;
      return true;
    }
  }

  // ---------------------------------------------------------------------------
  // Applying an operation, once or again
  // ---------------------------------------------------------------------------

  /** The call that applies, or recognizes, the operation; `None` in the result where it raises an error. */
  function Replayed(s: Store, policy: Option<Policy>, op: Effectful, now: Time): Effect {
    match op
    case ApprovalCreate(pending) => CreatePrepared(s, pending)
    case ApprovalReject(id, decidedBy, note, att) => EnsureRejected(s, policy, id, decidedBy, note, att, now)
    case ApprovalExpire(id) => ExpireOne(s, id, now)
    case ExecutionComplete(id, record) => EnsureConsumed(s, id, record, now)
  }

  /** Applied again at any later time, an operation is recognized and changes nothing. */
  lemma ReplayIsRecognized(s: Store, policy: Option<Policy>, op: Effectful, now: Time, later: Time)
    requires StoreOk(s) && now <= later && Replayed(s, policy, op, now).result.Some?
    ensures var t := Replayed(s, policy, op, now).store;
            && Replayed(t, policy, op, later).result.Some? && Replayed(t, policy, op, later).store == t
  {
    hide RecordOk, EnsureRejected;
    match op
    case ApprovalCreate(pending) =>
    case ApprovalReject(id, decidedBy, note, att) => RejectionIsRecognized(s, policy, id, decidedBy, note, att, now, later);
    case ApprovalExpire(id) =>
    case ExecutionComplete(id, record) =>
  }

  lemma RejectionIsRecognized(s: Store, policy: Option<Policy>, id: string, decidedBy: string, note: string,
                              att: Option<Attestation>, now: Time, later: Time)
    requires StoreOk(s) && now <= later && EnsureRejected(s, policy, id, decidedBy, note, att, now).result.Some?
    ensures var t := EnsureRejected(s, policy, id, decidedBy, note, att, now).store;
            EnsureRejected(t, policy, id, decidedBy, note, att, later) == Effect(t, Some(t[id]))
  {
    hide RecordOk, Strip;
    assert s[id].id == id;
  }

  /** A create, an expiry or a completion that could be applied can still be applied later, to the unchanged store. */
  lemma DelayIsHarmless(s: Store, policy: Option<Policy>, op: Effectful, now: Time, later: Time)
    requires StoreOk(s) && now <= later && Replayed(s, policy, op, now).result.Some? && !op.ApprovalReject?
    ensures Replayed(s, policy, op, later).result.Some?
  {
    hide BindingOk;
  }

  /** A rejection that could be applied can still be applied later exactly while the approval, if undecided, is unexpired. */
  lemma RejectionMustPrecedeExpiry(s: Store, policy: Option<Policy>, op: Effectful, now: Time, later: Time)
    requires StoreOk(s) && now <= later && Replayed(s, policy, op, now).result.Some? && op.ApprovalReject?
    ensures Replayed(s, policy, op, later).result.Some? <==> !(s[op.id].status.Pending? && IsExpired(s[op.id], later))
  {
    hide BindingOk, Strip;
    assert s[op.id].id == op.id;
  }

  /** Equal but for the times of decision and of consumption. */
  predicate SameButTimes(a: Approval, b: Approval) {
    a == b.(decidedAt := a.decidedAt, consumedAt := a.consumedAt)
  }

  /** When an operation takes effect matters only for those two timestamps, of the one record it changes. */
  lemma OnlyTimesDiffer(s: Store, policy: Option<Policy>, op: Effectful, now: Time, later: Time)
    requires StoreOk(s) && Replayed(s, policy, op, now).result.Some? && Replayed(s, policy, op, later).result.Some?
    ensures var (t, u) := (Replayed(s, policy, op, now).store, Replayed(s, policy, op, later).store);
            t.Keys == u.Keys && forall id :: id in t ==> SameButTimes(t[id], u[id])
  {
    hide RecordOk, Strip, Vouched, DecisionIdentity;
  }

  // ---------------------------------------------------------------------------
  // Crashes
  // ---------------------------------------------------------------------------

  /** The two files. */
  datatype Disk = Disk(slot: Option<Operation>, approvals: Store)

  /**
   How far an attempt gets before the process dies or fails, if it does. With an operation that cannot be read back, the
   process that prepared it never finishes and a restart never applies.
   */
  datatype Progress = BeforeApplying | BeforeClearing | Finished

  datatype Attempt = Attempt(now: Time, progress: Progress)

  /** One attempt on the operation in the slot, by the process that prepared it or by a restart; an error leaves it there. */
  function Attempted(d: Disk, policy: Option<Policy>, a: Attempt): Disk {
    if d.slot.None? || a.progress.BeforeApplying? then d
    else
      var applied := Replayed(d.approvals, policy, d.slot.value.effect, a.now);
      if applied.result.None? || a.progress.BeforeClearing? then d.(approvals := applied.store)
      else Disk(None, applied.store)
  }

  function Recovered(d: Disk, policy: Option<Policy>, attempts: seq<Attempt>): Disk
    decreases |attempts|
  {
    if attempts == [] then d else Recovered(Attempted(d, policy, attempts[0]), policy, attempts[1..])
  }

  ghost predicate ClockRuns(attempts: seq<Attempt>, from: Time) {
    forall i :: 0 <= i < |attempts| ==> from <= attempts[i].now && forall j :: i <= j < |attempts| ==> attempts[i].now <= attempts[j].now
  }

  /** The time of the first attempt that gets as far as applying. */
  function EffectiveTime(attempts: seq<Attempt>): Option<Time> {
    if attempts == [] then None
    else if attempts[0].progress.BeforeApplying? then EffectiveTime(attempts[1..])
    else Some(attempts[0].now)
  }

  predicate Finishes(attempts: seq<Attempt>) {
    exists i :: 0 <= i < |attempts| && attempts[i].progress.Finished?
  }

  lemma ClockTail(attempts: seq<Attempt>, from: Time)
    requires ClockRuns(attempts, from) && attempts != []
    ensures from <= attempts[0].now && ClockRuns(attempts[1..], attempts[0].now)
  {
  }

  lemma FinishTail(attempts: seq<Attempt>)
    requires attempts != []
    ensures Finishes(attempts) <==> attempts[0].progress.Finished? || Finishes(attempts[1..])
  {
  }

  lemma {:induction false} NothingLeftToDo(d: Disk, policy: Option<Policy>, attempts: seq<Attempt>)
    requires d.slot.None?
    ensures Recovered(d, policy, attempts) == d
    decreases |attempts|
  {
    if attempts != [] {
      NothingLeftToDo(d, policy, attempts[1..]);
    }
  }

  /** After the effective write, further attempts only recognize it, and the first that finishes empties the slot. */
  lemma {:induction false} ReplayedAgain(s: Store, policy: Option<Policy>, op: Operation, at: Time, attempts: seq<Attempt>)
    requires StoreOk(s) && Replayed(s, policy, op.effect, at).result.Some? && ClockRuns(attempts, at)
    ensures var t := Replayed(s, policy, op.effect, at).store;
            Recovered(Disk(Some(op), t), policy, attempts) == Disk(if Finishes(attempts) then None else Some(op), t)
    decreases |attempts|
  {
    hide StoreOk, Replayed, ClockRuns;
    var t := Replayed(s, policy, op.effect, at).store;
    var d := Disk(Some(op), t);
    if attempts != [] {
      ClockTail(attempts, at);
      FinishTail(attempts);
      ReplayIsRecognized(s, policy, op.effect, at, attempts[0].now);
      if attempts[0].progress.Finished? {
        NothingLeftToDo(Disk(None, t), policy, attempts[1..]);
      } else {
        assert Attempted(d, policy, attempts[0]) == d;
        ClockLater(attempts[1..], attempts[0].now, at);
        ReplayedAgain(s, policy, op, at, attempts[1..]);
      }
    }
  }

  lemma ClockLater(attempts: seq<Attempt>, from: Time, earlier: Time)
    requires ClockRuns(attempts, from) && earlier <= from
    ensures ClockRuns(attempts, earlier)
  {
  }

  /**
   Replay is exactly once. However often the process dies before applying, or between applying and clearing, the
   approvals end as one application at the time of the first attempt that applied would leave them, and the slot is
   empty as soon as one attempt finishes. A rejection must reach the store before its approval expires.
   */
  lemma {:induction false} ReplayIsExactlyOnce(s: Store, policy: Option<Policy>, op: Operation, start: Time, attempts: seq<Attempt>)
    requires StoreOk(s) && Replayed(s, policy, op.effect, start).result.Some? && ClockRuns(attempts, start)
    requires op.effect.ApprovalReject? && s[op.effect.id].status.Pending? && EffectiveTime(attempts).Some? ==>
               !IsExpired(s[op.effect.id], EffectiveTime(attempts).value)
    ensures Recovered(Disk(Some(op), s), policy, attempts) ==
            match EffectiveTime(attempts)
            case None => Disk(Some(op), s)
            case Some(at) => Disk(if Finishes(attempts) then None else Some(op), Replayed(s, policy, op.effect, at).store)
    ensures EffectiveTime(attempts).Some? ==> Replayed(s, policy, op.effect, EffectiveTime(attempts).value).result.Some?
    decreases |attempts|
  {
    hide StoreOk, Replayed, ClockRuns, IsExpired;
    if attempts != [] {
      var now := attempts[0].now;
      ClockTail(attempts, start);
      FinishTail(attempts);
      if attempts[0].progress.BeforeApplying? {
        ClockLater(attempts[1..], now, start);
        ReplayIsExactlyOnce(s, policy, op, start, attempts[1..]);
      } else {
        if op.effect.ApprovalReject? {
          RejectionMustPrecedeExpiry(s, policy, op.effect, start, now);
        } else {
          DelayIsHarmless(s, policy, op.effect, start, now);
        }
        var t := Replayed(s, policy, op.effect, now).store;
        if attempts[0].progress.Finished? {
          NothingLeftToDo(Disk(None, t), policy, attempts[1..]);
        } else {
          ReplayedAgain(s, policy, op, now, attempts[1..]);
        }
      }
    } else {
      NothingFinished();
    }
  }

  lemma NothingFinished()
    ensures !Finishes([])
  {
  }

  /** Otherwise the rejection is refused at every restart and the slot is never emptied. */
  lemma {:induction false} LateRejectionIsStuck(s: Store, policy: Option<Policy>, op: Operation, start: Time, attempts: seq<Attempt>)
    requires StoreOk(s) && op.effect.ApprovalReject? && Replayed(s, policy, op.effect, start).result.Some?
    requires s[op.effect.id].status.Pending? && !IsExpired(s[op.effect.id], start)
    requires forall i :: 0 <= i < |attempts| ==> start <= attempts[i].now && IsExpired(s[op.effect.id], attempts[i].now)
    ensures Recovered(Disk(Some(op), s), policy, attempts) == Disk(Some(op), s)
    decreases |attempts|
  {
    if attempts != [] {
      RejectionMustPrecedeExpiry(s, policy, op.effect, start, attempts[0].now);
      RefusedUnchanged(s, policy, op.effect, attempts[0].now);
      hide StoreOk, Replayed, IsExpired;
      LateRejectionIsStuck(s, policy, op, start, attempts[1..]);
    }
  }

  /** A refused operation has written nothing. */
  lemma RefusedUnchanged(s: Store, policy: Option<Policy>, op: Effectful, now: Time)
    requires Replayed(s, policy, op, now).result.None?
    ensures Replayed(s, policy, op, now).store == s
  {
    hide RecordOk, Vouched, DecisionIdentity;
  }
}
