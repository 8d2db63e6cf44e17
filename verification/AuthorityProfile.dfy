/**
 The enrolled authority profile and its rotations (`authority_profile.py`): staged, then activated, one generation
 at a time, and never rewritten. Signatures are a predicate of the caller's trust policy.
 */
module AuthorityProfile {
  import opened PythonText
  import opened Wrappers

  type Hash = int

  /** Seconds. */
  type Time = int

  const MAX_TRANSITIONS := 1024
  const MAX_OPERATOR_CHARS := 256
  const MAX_NOTE_CHARS := 4096

  /** How far ahead of the reader's clock a recorded time may lie. */
  const CLOCK_SKEW: Time := 300

  datatype Attestation = Attestation(
    fromGeneration: int, toGeneration: int, fromHash: Hash, toHash: Hash, operator: string, note: string, signedAt: Time,
    keyId: Hash, signature: Hash)

  datatype Transition = Transition(
    fromGeneration: int, toGeneration: int, fromHash: Hash, toHash: Hash, operator: string, note: string,
    requestedAt: Time, attestation: Option<Attestation>)

  datatype Profile = Profile(
    generation: int, enrolledAt: Time, updatedAt: Time, initialHash: Hash, hash: Hash,
    transitions: seq<Transition>, pending: Option<Transition>)

  /** Whether a state's text, as it is hashed and as it is stored, stays within the byte ceiling of its file. */
  type Ceiling = Profile -> bool

  /** The trusted keys: which attestations carry a valid signature of a key trusted for their operator. */
  type Policy = Attestation -> bool

  /** Non-empty, already stripped, and not too long. */
  predicate TextOk(s: string, maximum: nat) {
    s != "" && !IsSpace(s[0]) && !IsSpace(s[|s| - 1]) && |s| <= maximum
  }

  predicate Binds(a: Attestation, t: Transition) {
    && a.fromGeneration == t.fromGeneration && a.toGeneration == t.toGeneration
    && a.fromHash == t.fromHash && a.toHash == t.toHash && a.operator == t.operator && a.note == t.note
  }

  /** `_transition` accepts the record. */
  predicate TransitionOk(t: Transition, now: Time) {
    && t.fromGeneration >= 1 && t.toGeneration == t.fromGeneration + 1 && t.fromHash != t.toHash
    && TextOk(t.operator, MAX_OPERATOR_CHARS) && TextOk(t.note, MAX_NOTE_CHARS)
    && t.requestedAt <= now + CLOCK_SKEW
    && (t.attestation.Some? ==> Binds(t.attestation.value, t) && t.attestation.value.signedAt == t.requestedAt)
  }

  /** `_profile_hash_at_generation`. */
  function HashAt(p: Profile, generation: int): Option<Hash> {
    if generation < 1 || generation > p.generation || generation - 2 >= |p.transitions| then None
    else if generation == 1 then Some(p.initialHash)
    else Some(p.transitions[generation - 2].toHash)
  }

  /** The hash and the time that the transition at an index must follow. */
  function HashBefore(p: Profile, i: nat): Hash
    requires i <= |p.transitions|
  {
    if i == 0 then p.initialHash else p.transitions[i - 1].toHash
  }

  function TimeBefore(p: Profile, i: nat): Time
    requires i <= |p.transitions|
  {
    if i == 0 then p.enrolledAt else p.transitions[i - 1].requestedAt
  }

  /** The transition at an index is well formed and follows its predecessor. */
  predicate Follows(p: Profile, i: nat, now: Time)
    requires i < |p.transitions|
  {
    var t := p.transitions[i];
    && TransitionOk(t, now) && t.fromGeneration == i + 1
    && t.fromHash == HashBefore(p, i) && TimeBefore(p, i) <= t.requestedAt
  }

  predicate PendingOk(p: Profile, t: Transition, now: Time) {
    TransitionOk(t, now) && t.fromGeneration == p.generation && t.fromHash == p.hash && p.updatedAt <= t.requestedAt
  }

  /** `AuthorityProfileState.from_dict` accepts the state. */
  ghost predicate ProfileOk(p: Profile, now: Time) {
    && p.generation >= 1 && p.enrolledAt <= p.updatedAt <= now + CLOCK_SKEW
    && |p.transitions| == p.generation - 1 && |p.transitions| <= MAX_TRANSITIONS
    && (forall i :: 0 <= i < |p.transitions| ==> Follows(p, i, now))
    && p.hash == HashBefore(p, |p.transitions|) && p.updatedAt == TimeBefore(p, |p.transitions|)
    && (p.pending.Some? ==> PendingOk(p, p.pending.value, now))
  }

  /** The loop of `from_dict`, with its running hash and time. */
  method Validate(p: Profile, now: Time) returns (ok: bool)
    ensures ok <==> ProfileOk(p, now)
  {
    if p.generation < 1 || p.enrolledAt > now + CLOCK_SKEW || p.updatedAt > now + CLOCK_SKEW || p.updatedAt < p.enrolledAt
       || |p.transitions| > MAX_TRANSITIONS || |p.transitions| != p.generation - 1 {
      return false;
    }
    var previousHash, previousTime := p.initialHash, p.enrolledAt;
    for i := 0 to |p.transitions|
      invariant previousHash == HashBefore(p, i) && previousTime == TimeBefore(p, i)
      invariant forall j :: 0 <= j < i ==> Follows(p, j, now)
    {
      var transition := p.transitions[i];
      if !TransitionOk(transition, now) || transition.fromGeneration != i + 1 || transition.toGeneration != i + 2
         || transition.fromHash != previousHash || transition.requestedAt < previousTime {
        assert !Follows(p, i, now);
        return false;
      }
      previousHash, previousTime := transition.toHash, transition.requestedAt;
    }
    if previousHash != p.hash || p.updatedAt != previousTime {
      return false;
    }
    return p.pending.None? || PendingOk(p, p.pending.value, now);
  }

  /** `AuthorityProfileState.verify`: every signed record is still vouched for. */
  predicate Vouched(t: Transition, policy: Option<Policy>) {
    t.attestation.None? || (policy.Some? && Binds(t.attestation.value, t) && policy.value(t.attestation.value))
  }

  predicate Verified(p: Profile, policy: Option<Policy>) {
    && (forall i :: 0 <= i < |p.transitions| ==> Vouched(p.transitions[i], policy))
    && (p.pending.Some? ==> Vouched(p.pending.value, policy))
  }

  function Enrolled(hash: Hash, now: Time): Profile {
    Profile(1, now, now, hash, hash, [], None)
  }

  function Activated(p: Profile, t: Transition): Profile {
    p.(generation := p.generation + 1, updatedAt := t.requestedAt, hash := t.toHash, transitions := p.transitions + [t],
       pending := None)
  }

  /** `get` gives the stored state. */
  ghost predicate Readable(fits: Ceiling, p: Profile, now: Time) {
    ProfileOk(p, now) && fits(p)
  }

  /** `_candidate_for_authority`, and the write of what it changed. */
  ghost function Resolve(fits: Ceiling, state: Option<Profile>, hash: Hash, policy: Option<Policy>, now: Time)
    : Option<Profile>
  {
    if state.None? then if fits(Enrolled(hash, now)) then Some(Enrolled(hash, now)) else None
    else
      var p := state.value;
      if !Verified(p, policy) then None
      else if p.hash == hash then Some(p)
      else if p.pending.Some? && p.pending.value.toHash == hash then
        if policy.Some? && p.pending.value.attestation.None? then None
        else
          var updated := Activated(p, p.pending.value);
          if Readable(fits, updated, now) && Verified(updated, policy) then Some(updated) else None
      else None
  }

  datatype Ask = Ask(toHash: Hash, operator: string, note: string, attestation: Option<Attestation>)

  function Staged(p: Profile, ask: Ask, requestedAt: Time): Transition {
    Transition(p.generation, p.generation + 1, p.hash, ask.toHash, ask.operator, ask.note, requestedAt, ask.attestation)
  }

  predicate SameRequest(a: Transition, b: Transition) {
    a.fromGeneration == b.fromGeneration && a.toGeneration == b.toGeneration && a.fromHash == b.fromHash
    && a.toHash == b.toHash && a.operator == b.operator && a.note == b.note
  }

  /** `request_rotation`, for an enrolled profile. */
  ghost function Stage(fits: Ceiling, p: Profile, ask: Ask, policy: Option<Policy>, now: Time): Option<Profile> {
    if !TextOk(ask.operator, MAX_OPERATOR_CHARS) || !TextOk(ask.note, MAX_NOTE_CHARS) || !Verified(p, policy) then None
    else if p.hash == ask.toHash then if p.pending.None? then Some(p) else None
    else if policy.None? && ask.attestation.Some? then None
    else if policy.Some? && ask.attestation.None? then None
    else
      var t := Staged(p, ask, if policy.None? then now else ask.attestation.value.signedAt);
      if policy.Some? && !Vouched(t, policy) then None
      else if !TransitionOk(t, now) then None
      else if p.pending.Some? then if SameRequest(p.pending.value, t) then Some(p) else None
      else if !Readable(fits, p.(pending := Some(t)), now) || !Verified(p.(pending := Some(t)), policy) then None
      else Some(p.(pending := Some(t)))
  }

  /** `_require_enrolled_trust`: whether signed trust is enrolled, and then verified by the caller's keys. */
  predicate TrustOk(enrolled: Option<bool>, policy: Option<Policy>) {
    enrolled.None? || (policy.Some? && enrolled.value)
  }

  /** `AuthorityProfileStore`. */
  class ProfileStore {
    const fits: Ceiling
    var state: Option<Profile>

    constructor (ceiling: Ceiling, state: Option<Profile>)
      ensures fits == ceiling && this.state == state
    {
      fits := ceiling;
      this.state := state;
    }

    method ResolveForAuthority(hash: Hash, policy: Option<Policy>, trust: Option<bool>, now: Time)
      returns (resolved: Option<Profile>)
      modifies this
      ensures resolved ==
        if !TrustOk(trust, policy) || (old(state).Some? && !Readable(fits, old(state).value, now)) then None
        else Resolve(fits, old(state), hash, policy, now)
      ensures state == if resolved.Some? then resolved else old(state)
    {
      if !TrustOk(trust, policy) {
        return None;
      }
      if state.None? {
        var enrolled := Enrolled(hash, now);
        if !fits(enrolled) {
          return None;
        }
        state := Some(enrolled);
        return state;
      }
      var p := state.value;
      var readable := Validate(p, now);
      if !readable || !fits(p) || !Verified(p, policy) {
        return None;
      }
      if p.hash == hash {
        return state;
      }
      if p.pending.None? || p.pending.value.toHash != hash || (policy.Some? && p.pending.value.attestation.None?) {
        return None;
      }
      var updated := Activated(p, p.pending.value);
      var valid := Validate(updated, now);
      if !valid || !fits(updated) || !Verified(updated, policy) {
        return None;
      }
      state := Some(updated);
      return state;
    }

    method RequestRotation(ask: Ask, policy: Option<Policy>, trust: Option<bool>, now: Time)
      returns (staged: Option<Profile>)
      modifies this
      ensures staged ==
        if !TrustOk(trust, policy) || old(state).None? || !Readable(fits, old(state).value, now) then None
        else Stage(fits, old(state).value, ask, policy, now)
      ensures state == if staged.Some? then staged else old(state)
    {
      if !TrustOk(trust, policy) || !TextOk(ask.operator, MAX_OPERATOR_CHARS) || !TextOk(ask.note, MAX_NOTE_CHARS)
         || state.None? {
        return None;
      }
      var p := state.value;
      var readable := Validate(p, now);
      if !readable || !fits(p) || !Verified(p, policy) {
        return None;
      }
      if p.hash == ask.toHash {
        return if p.pending.None? then state else None;
      }
      if policy.Some? != ask.attestation.Some? {
        return None;
      }
      var transition := Staged(p, ask, if policy.None? then now else ask.attestation.value.signedAt);
      if (policy.Some? && !Vouched(transition, policy)) || !TransitionOk(transition, now) {
        return None;
      }
      if p.pending.Some? {
        return if SameRequest(p.pending.value, transition) then state else None;
      }
      var updated := p.(pending := Some(transition));
      var valid := Validate(updated, now);
      if !valid || !fits(updated) || !Verified(updated, policy) {
        return None;
      }
      state := Some(updated);
      return state;
    }
  }

  // ---------------------------------------------------------------------------
  // Runs
  // ---------------------------------------------------------------------------

  datatype Call =
    | Resolving(hash: Hash, policy: Option<Policy>, trust: Option<bool>, now: Time)
    | Requesting(ask: Ask, policy: Option<Policy>, trust: Option<bool>, now: Time)

  /** The stored state after a call, as the store's methods leave it. */
  ghost function After(fits: Ceiling, state: Option<Profile>, call: Call): Option<Profile> {
    if !TrustOk(call.trust, call.policy) || (state.Some? && !Readable(fits, state.value, call.now)) then state
    else
      var result :=
        match call
        case Resolving(hash, policy, _, now) => Resolve(fits, state, hash, policy, now)
        case Requesting(ask, policy, _, now) => if state.None? then None else Stage(fits, state.value, ask, policy, now);
      if result.Some? then result else state
  }

  /** What a call may do: nothing, enrol, stage one transition, or activate the one that was staged. */
  ghost predicate Step(state: Option<Profile>, next: Option<Profile>, now: Time) {
    || next == state
    || (state.None? && next.Some? && next.value.generation == 1 && next.value.transitions == [] && next.value.pending.None?)
    || (state.Some? && next.Some? && state.value.pending.None? && next.value.pending.Some?
        && next.value == state.value.(pending := next.value.pending))
    || (state.Some? && next.Some? && state.value.pending.Some? && next.value == Activated(state.value, state.value.pending.value))
  }

  /** Each call keeps the stored state acceptable to its own reader, and changes it in one of the four ways. */
  lemma CallSteps(fits: Ceiling, state: Option<Profile>, call: Call)
    ensures var next := After(fits, state, call);
            Step(state, next, call.now) && (next != state ==> next.Some? && Readable(fits, next.value, call.now))
  {
    hide TransitionOk, Verified, Vouched;
  }

  /**
   A staged profile that is asked for is activated, unless the history is full, an unsigned stage met signed trust, or the
   state it leads to no longer fits its file.
   */
  lemma ActivationExact(fits: Ceiling, p: Profile, policy: Option<Policy>, now: Time)
    requires ProfileOk(p, now) && Verified(p, policy) && p.pending.Some?
    ensures var t := p.pending.value;
            Resolve(fits, Some(p), t.toHash, policy, now) ==
            if |p.transitions| < MAX_TRANSITIONS && (policy.None? || t.attestation.Some?) && fits(Activated(p, t))
            then Some(Activated(p, t)) else None
  {
    hide TextOk, Binds, Vouched;
    var next := Activated(p, p.pending.value);
    assert p.pending.value.requestedAt <= now + CLOCK_SKEW;
    forall i | 0 <= i < |p.transitions|
      ensures Follows(next, i, now)
    {
      assert Follows(p, i, now);
    }
    assert Follows(next, |p.transitions|, now);
    assert next.transitions[|p.transitions|] == p.pending.value;
    assert HashBefore(next, |next.transitions|) == next.hash;
    assert ProfileOk(next, now) <==> |p.transitions| < MAX_TRANSITIONS;
  }

  /**
   A rotation that was staged can be activated at any later time, unless the history is full or its state then too long, and
   installs what was asked for.
   */
  lemma StagedCanActivate(fits: Ceiling, p: Profile, ask: Ask, policy: Option<Policy>, now: Time, later: Time)
    requires ProfileOk(p, now) && now <= later && p.hash != ask.toHash && Stage(fits, p, ask, policy, now).Some?
    ensures var staged := Stage(fits, p, ask, policy, now).value;
            var activated := Resolve(fits, Some(staged), ask.toHash, policy, later);
            && staged.transitions == p.transitions && staged.pending.Some?
            && staged.pending.value.operator == ask.operator && staged.pending.value.note == ask.note
            && (activated.Some? <==>
                  && |p.transitions| < MAX_TRANSITIONS && (policy.None? || staged.pending.value.attestation.Some?)
                  && fits(Activated(staged, staged.pending.value)))
            && (activated.Some? ==> activated.value.hash == ask.toHash && activated.value.generation == p.generation + 1
                                    && activated.value.transitions == p.transitions + [staged.pending.value])
  {
    hide TextOk, Binds, Vouched, TransitionOk;
    var staged := Stage(fits, p, ask, policy, now).value;
    ClockMonotone(staged, now, later);
    ActivationExact(fits, staged, policy, later);
  }

  /** A reader with a later clock accepts what an earlier one accepted. */
  lemma ClockMonotone(p: Profile, now: Time, later: Time)
    requires ProfileOk(p, now) && now <= later
    ensures ProfileOk(p, later)
  {
    forall i | 0 <= i < |p.transitions|
      ensures Follows(p, i, later)
    {
      assert Follows(p, i, now);
    }
  }

  ghost function Trace(fits: Ceiling, state: Option<Profile>, calls: seq<Call>): (t: seq<Option<Profile>>)
    ensures |t| == |calls| + 1
    decreases |calls|
  {
    [state] + if calls == [] then [] else Trace(fits, After(fits, state, calls[0]), calls[1..])
  }

  /** The clock of the calls never runs backwards. */
  ghost predicate Ordered(calls: seq<Call>, from: Time) {
    forall i :: 0 <= i < |calls| ==> from <= calls[i].now && forall j :: i <= j < |calls| ==> calls[i].now <= calls[j].now
  }

  /** Every state of a run passes the validator at every later moment. */
  lemma {:induction false} RunStaysValid(fits: Ceiling, state: Option<Profile>, calls: seq<Call>, from: Time, i: nat)
    requires (state.Some? ==> Readable(fits, state.value, from)) && Ordered(calls, from) && i <= |calls|
    ensures var p := Trace(fits, state, calls)[i];
            p.Some? ==> Readable(fits, p.value, if i == 0 then from else calls[i - 1].now)
    decreases |calls|
  {
    hide ProfileOk;
    if i > 0 {
      var now := calls[0].now;
      if state.Some? {
        ClockMonotone(state.value, from, now);
      }
      CallSteps(fits, state, calls[0]);
      forall k | 0 <= k < |calls[1..]|
        ensures now <= calls[1..][k].now && forall j :: k <= j < |calls[1..]| ==> calls[1..][k].now <= calls[1..][j].now
      {
        assert calls[1..][k] == calls[k + 1];
        assert forall j :: k <= j < |calls[1..]| ==> calls[1..][j] == calls[j + 1];
      }
      RunStaysValid(fits, After(fits, state, calls[0]), calls[1..], now, i - 1);
    }
  }

  /** The transitions of one state are a prefix of those of the other, which starts from the same enrolment. */
  ghost predicate Extends(before: Option<Profile>, after: Option<Profile>) {
    before.None? ||
    (&& after.Some? && before.value.initialHash == after.value.initialHash && before.value.enrolledAt == after.value.enrolledAt
     && before.value.generation <= after.value.generation
     && before.value.transitions <= after.value.transitions)
  }

  /** History is append-only over every run, whatever the clock. */
  lemma {:induction false} HistoryOnlyGrows(fits: Ceiling, state: Option<Profile>, calls: seq<Call>, i: nat, j: nat)
    requires i <= j <= |calls|
    ensures Extends(Trace(fits, state, calls)[i], Trace(fits, state, calls)[j])
    decreases |calls|
  {
    hide ProfileOk, After;
    if j > 0 {
      CallSteps(fits, state, calls[0]);
      if i > 0 {
        HistoryOnlyGrows(fits, After(fits, state, calls[0]), calls[1..], i - 1, j - 1);
      } else {
        HistoryOnlyGrows(fits, After(fits, state, calls[0]), calls[1..], 0, j - 1);
        assert Extends(state, After(fits, state, calls[0]));
      }
    }
  }

  /** The profile hash found at a generation is the same in every later state of the run. */
  lemma HashAtIsStable(fits: Ceiling, state: Option<Profile>, calls: seq<Call>, i: nat, j: nat, generation: int)
    requires i <= j <= |calls| && Trace(fits, state, calls)[i].Some?
    requires HashAt(Trace(fits, state, calls)[i].value, generation).Some?
    ensures Trace(fits, state, calls)[j].Some?
    ensures HashAt(Trace(fits, state, calls)[j].value, generation) == HashAt(Trace(fits, state, calls)[i].value, generation)
  {
    HistoryOnlyGrows(fits, state, calls, i, j);
  }

  /** Every transition that was ever activated had been staged: some earlier state of the run held it pending. */
  lemma {:induction false} ActivatedWasStaged(fits: Ceiling, state: Option<Profile>, calls: seq<Call>, j: nat, k: nat)
    requires j <= |calls| && Trace(fits, state, calls)[j].Some? && k < |Trace(fits, state, calls)[j].value.transitions|
    requires state.Some? ==> k >= |state.value.transitions|
    ensures var t := Trace(fits, state, calls);
            exists i :: 0 <= i < j && t[i].Some? && t[i].value.pending == Some(t[j].value.transitions[k])
    decreases |calls|
  {
    hide ProfileOk, After;
    var next := if j > 0 then After(fits, state, calls[0]) else state;
    if j > 0 {
      CallSteps(fits, state, calls[0]);
      var later := Trace(fits, next, calls[1..]);
      assert forall i :: 0 <= i < j ==> Trace(fits, state, calls)[i + 1] == later[i];
      if next.None? || k >= |next.value.transitions| {
        ActivatedWasStaged(fits, next, calls[1..], j - 1, k);
        var i :| 0 <= i < j - 1 && later[i].Some? && later[i].value.pending == Some(later[j - 1].value.transitions[k]);
        assert Trace(fits, state, calls)[i + 1] == later[i];
      } else {
        HistoryOnlyGrows(fits, next, calls[1..], 0, j - 1);
        assert state.Some? && next.value.transitions[k] == later[j - 1].value.transitions[k];
        assert Trace(fits, state, calls)[0] == state;
      }
    }
  }
}
