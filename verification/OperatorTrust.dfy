/**
 Durable operator trust (`operator_trust_state.py`): which keys speak for which operators, and the signed, strictly
 additive rotations that led there.
 */
module OperatorTrust {
  import opened CanonicalJson
  import opened CanonicalTrees
  import opened PythonText
  import opened Wrappers

  type Hash = int
  type Key = int
  type Time = int

  const MAX_OPERATORS := 256
  const MAX_OPERATOR_CHARS := 256
  const MAX_TRANSITIONS := 1024
  const MAX_TRUSTED_PUBLIC_KEYS := 1024
  const CLOCK_SKEW: Time := 300

  /** One operator's key identifiers. */
  datatype Binding = Binding(operator: Text, keys: seq<Key>)

  type Bindings = seq<Binding>

  predicate Increasing(keys: seq<Key>) {
    forall i, j :: 0 <= i < j < |keys| ==> keys[i] < keys[j]
  }

  predicate BindingOk(b: Binding) {
    Trimmed(b.operator) && |b.operator| <= MAX_OPERATOR_CHARS && b.keys != [] && Increasing(b.keys)
  }

  function KeyCount(bs: Bindings): nat {
    if bs == [] then 0 else KeyCount(bs[..|bs| - 1]) + |bs[|bs| - 1].keys|
  }

  predicate OperatorsOrdered(bs: Bindings) {
    forall i, j :: 0 <= i < j < |bs| ==> TextLess(bs[i].operator, bs[j].operator)
  }

  /** `_bindings` accepts the mapping. */
  predicate BindingsOk(bs: Bindings) {
    && bs != [] && |bs| <= MAX_OPERATORS
    && (forall i :: 0 <= i < |bs| ==> BindingOk(bs[i]))
    && KeyCount(bs) <= MAX_TRUSTED_PUBLIC_KEYS && OperatorsOrdered(bs)
  }

  /** The loop of `_bindings`; the entries of a dictionary have distinct operators. */
  method ValidateBindings(bs: Bindings) returns (ok: bool)
    ensures ok <==> BindingsOk(bs)
  {
    if bs == [] || |bs| > MAX_OPERATORS {
      return false;
    }
    var keyCount := 0;
    for i := 0 to |bs|
      invariant keyCount == KeyCount(bs[..i]) <= MAX_TRUSTED_PUBLIC_KEYS
      invariant forall j :: 0 <= j < i ==> BindingOk(bs[j])
    {
      if !BindingOk(bs[i]) {
        return false;
      }
      assert bs[..i + 1][..i] == bs[..i];
      keyCount := keyCount + |bs[i].keys|;
      if keyCount > MAX_TRUSTED_PUBLIC_KEYS {
        CountGrows(bs, i + 1);
        return false;
      }
    }
    assert bs[..|bs|] == bs;
    return OperatorsOrdered(bs);
  }

  lemma {:induction false} CountGrows(bs: Bindings, i: nat)
    requires i <= |bs|
    ensures KeyCount(bs[..i]) <= KeyCount(bs)
  {
    if i < |bs| {
      CountGrows(bs[..|bs| - 1], i);
      assert bs[..|bs| - 1][..i] == bs[..i];
    } else {
      assert bs[..i] == bs;
    }
  }

  /** Whether a key speaks for an operator. */
  predicate Trusts(bs: Bindings, operator: Text, key: Key) {
    exists i :: 0 <= i < |bs| && bs[i].operator == operator && key in bs[i].keys
  }

  predicate Within(a: seq<Key>, b: seq<Key>) {
    forall k :: k in a ==> k in b
  }

  /** Some entry of the newer bindings holds all keys of the older one's operator. */
  predicate Covered(b: Binding, newer: Bindings) {
    exists j :: 0 <= j < |newer| && newer[j].operator == b.operator && Within(b.keys, newer[j].keys)
  }

  /** `_is_additive`. */
  predicate Additive(older: Bindings, newer: Bindings) {
    older != newer && forall i :: 0 <= i < |older| ==> Covered(older[i], newer)
  }

  datatype Attestation = Attestation(
    fromGeneration: int, toGeneration: int, fromHash: Hash, toHash: Hash, operator: Text, note: Text, signedAt: Time,
    keyId: Key, signature: Hash)

  datatype Rotation = Rotation(attestation: Attestation, bindings: Bindings)

  datatype Trust = Trust(
    generation: int, enrolledAt: Time, updatedAt: Time, initial: Bindings, initialHash: Hash,
    bindings: Bindings, hash: Hash, transitions: seq<Rotation>)

  /** The bindings after so many rotations. */
  function At(t: Trust, i: nat): Bindings
    requires i <= |t.transitions|
  {
    if i == 0 then t.initial else t.transitions[i - 1].bindings
  }

  function TimeAt(t: Trust, i: nat): Time
    requires i <= |t.transitions|
  {
    if i == 0 then t.enrolledAt else t.transitions[i - 1].attestation.signedAt
  }

  predicate Follows(sha: Bindings -> Hash, t: Trust, i: nat, now: Time)
    requires i < |t.transitions|
  {
    var (a, candidate) := (t.transitions[i].attestation, t.transitions[i].bindings);
    && BindingsOk(candidate) && Additive(At(t, i), candidate)
    && a.fromGeneration == i + 1 && a.toGeneration == i + 2
    && a.fromHash == sha(At(t, i)) && a.toHash == sha(candidate)
    && TimeAt(t, i) <= a.signedAt <= now + CLOCK_SKEW
  }

  /** `OperatorTrustState.from_dict` accepts the state. */
  ghost predicate TrustOk(sha: Bindings -> Hash, t: Trust, now: Time) {
    && t.generation >= 1 && t.enrolledAt <= t.updatedAt <= now + CLOCK_SKEW
    && BindingsOk(t.initial) && BindingsOk(t.bindings)
    && t.initialHash == sha(t.initial) && t.hash == sha(t.bindings)
    && |t.transitions| == t.generation - 1 && |t.transitions| <= MAX_TRANSITIONS
    && (forall i :: 0 <= i < |t.transitions| ==> Follows(sha, t, i, now))
    && t.bindings == At(t, |t.transitions|) && t.updatedAt == TimeAt(t, |t.transitions|)
  }

  /** Whether a state's text, as it is hashed and as it is stored, stays within the byte ceiling of its file. */
  type Ceiling = Trust -> bool

  /** `get` gives the stored state. */
  ghost predicate Readable(sha: Bindings -> Hash, fits: Ceiling, t: Trust, now: Time) {
    TrustOk(sha, t, now) && fits(t)
  }

  /** The chain loop of `from_dict`. */
  method Validate(sha: Bindings -> Hash, t: Trust, now: Time) returns (ok: bool)
    ensures ok <==> TrustOk(sha, t, now)
  {
    if t.generation < 1 || t.enrolledAt > now + CLOCK_SKEW || t.updatedAt > now + CLOCK_SKEW || t.updatedAt < t.enrolledAt {
      return false;
    }
    var initialOk := ValidateBindings(t.initial);
    var currentOk := ValidateBindings(t.bindings);
    if !initialOk || !currentOk || t.initialHash != sha(t.initial) || t.hash != sha(t.bindings)
       || |t.transitions| > MAX_TRANSITIONS || |t.transitions| != t.generation - 1 {
      return false;
    }
    var previousBindings, previousHash, previousTime := t.initial, t.initialHash, t.enrolledAt;
    for i := 0 to |t.transitions|
      invariant previousBindings == At(t, i) && previousHash == sha(At(t, i)) && previousTime == TimeAt(t, i)
      invariant forall j :: 0 <= j < i ==> Follows(sha, t, j, now)
    {
      var attestation, candidate := t.transitions[i].attestation, t.transitions[i].bindings;
      var candidateOk := ValidateBindings(candidate);
      if !candidateOk || !Additive(previousBindings, candidate)
         || attestation.fromGeneration != i + 1 || attestation.toGeneration != i + 2
         || attestation.fromHash != previousHash || attestation.toHash != sha(candidate)
         || attestation.signedAt > now + CLOCK_SKEW || attestation.signedAt < previousTime {
        assert !Follows(sha, t, i, now);
        return false;
      }
      previousBindings, previousHash, previousTime := candidate, sha(candidate), attestation.signedAt;
    }
    return previousBindings == t.bindings && previousHash == t.hash && t.updatedAt == previousTime;
  }

  // ---------------------------------------------------------------------------
  // Verification and rotation
  // ---------------------------------------------------------------------------

  /** The configured keys, and which attestations carry a valid signature of the key they name. */
  datatype Policy = Policy(bindings: Bindings, valid: Attestation -> bool)

  /** `require_trust_transition`. */
  predicate RequireTransition(p: Policy, a: Attestation, fromGeneration: int, fromHash: Hash, toHash: Hash, now: Time) {
    && a.fromGeneration == fromGeneration && a.toGeneration == fromGeneration + 1
    && a.fromHash == fromHash && a.toHash == toHash && Trimmed(a.operator) && Trimmed(a.note)
    && a.signedAt <= now + CLOCK_SKEW && Trusts(p.bindings, a.operator, a.keyId) && p.valid(a)
  }

  predicate Signed(sha: Bindings -> Hash, t: Trust, i: nat, p: Policy, now: Time)
    requires i < |t.transitions|
  {
    var a := t.transitions[i].attestation;
    && Trusts(At(t, i), a.operator, a.keyId)
    && RequireTransition(p, a, i + 1, if i == 0 then t.initialHash else sha(At(t, i)), sha(t.transitions[i].bindings), now)
  }

  /** `OperatorTrustState.verify`. */
  ghost predicate Verified(sha: Bindings -> Hash, t: Trust, p: Policy, now: Time) {
    p.bindings == t.bindings && forall i :: 0 <= i < |t.transitions| ==> Signed(sha, t, i, p, now)
  }

  /** The loop of `verify`. */
  method Verify(sha: Bindings -> Hash, t: Trust, p: Policy, now: Time) returns (ok: bool)
    ensures ok <==> Verified(sha, t, p, now)
  {
    if p.bindings != t.bindings {
      return false;
    }
    var previous, previousHash := t.initial, t.initialHash;
    for i := 0 to |t.transitions|
      invariant previous == At(t, i) && previousHash == if i == 0 then t.initialHash else sha(At(t, i))
      invariant forall j :: 0 <= j < i ==> Signed(sha, t, j, p, now)
    {
      var attestation, candidate := t.transitions[i].attestation, t.transitions[i].bindings;
      if !Trusts(previous, attestation.operator, attestation.keyId)
         || !RequireTransition(p, attestation, i + 1, previousHash, sha(candidate), now) {
        assert !Signed(sha, t, i, p, now);
        return false;
      }
      previous, previousHash := candidate, sha(candidate);
    }
    return true;
  }

  function Rotated(sha: Bindings -> Hash, t: Trust, candidate: Policy, a: Attestation): Trust {
    t.(generation := t.generation + 1, updatedAt := a.signedAt, bindings := candidate.bindings,
       hash := sha(candidate.bindings), transitions := t.transitions + [Rotation(a, candidate.bindings)])
  }

  predicate Replayed(t: Trust, candidate: Policy, a: Attestation) {
    t.bindings == candidate.bindings && t.transitions != [] && t.transitions[|t.transitions| - 1].attestation == a
  }

  /** `rotate`, on a state that could be read, with its write. */
  ghost function Rotate(sha: Bindings -> Hash, fits: Ceiling, t: Trust, current: Policy, candidate: Policy, a: Attestation,
                        now: Time)
    : Option<Trust>
  {
    if Replayed(t, candidate, a) then if Verified(sha, t, candidate, now) then Some(t) else None
    else if !Verified(sha, t, current, now) || !Additive(current.bindings, candidate.bindings)
            || !Trusts(t.bindings, a.operator, a.keyId)
            || !RequireTransition(current, a, t.generation, t.hash, sha(candidate.bindings), now) then None
    else
      var updated := Rotated(sha, t, candidate, a);
      if Readable(sha, fits, updated, now) && Verified(sha, updated, candidate, now) then Some(updated) else None
  }

  function Enrolled(sha: Bindings -> Hash, candidate: Policy, now: Time): Trust {
    var digest := sha(candidate.bindings);
    Trust(1, now, now, candidate.bindings, digest, candidate.bindings, digest, [])
  }

  /** How a startup ends: without signed trust, with the configured keys accepted, or with an error. */
  datatype Startup = Unsigned | Accepted | Refused

  /**
   `resolve_for_authority`: the state it leaves, and how it ends. `legacy` says that approvals signed before any enrolment
   are stored.
   */
  ghost function Resolve(sha: Bindings -> Hash, fits: Ceiling, state: Option<Trust>, candidate: Option<Policy>, legacy: bool,
                         now: Time)
    : (Option<Trust>, Startup)
  {
    if state.None? then
      if candidate.None? then (None, if legacy then Refused else Unsigned)
      else
        var enrolled := Enrolled(sha, candidate.value, now);
        if Readable(sha, fits, enrolled, now) then (Some(enrolled), Accepted) else (None, Refused)
    else if Readable(sha, fits, state.value, now) && candidate.Some? && Verified(sha, state.value, candidate.value, now)
    then (state, Accepted)
    else (state, Refused)
  }

  /** `OperatorTrustStateStore`. */
  class TrustStore {
    const sha: Bindings -> Hash
    const fits: Ceiling
    var state: Option<Trust>

    constructor (digest: Bindings -> Hash, ceiling: Ceiling, state: Option<Trust>)
      ensures sha == digest && fits == ceiling && this.state == state
    {
      sha, fits := digest, ceiling;
      this.state := state;
    }

    method ResolveForAuthority(candidate: Option<Policy>, legacy: bool, now: Time) returns (startup: Startup)
      modifies this
      ensures (state, startup) == Resolve(sha, fits, old(state), candidate, legacy, now)
    {
      if state.None? {
        if candidate.None? {
          return if legacy then Refused else Unsigned;
        }
        var enrolled := Enrolled(sha, candidate.value, now);
        var valid := Validate(sha, enrolled, now);
        if !valid || !fits(enrolled) {
          return Refused;
        }
        state := Some(enrolled);
        var accepted := Verify(sha, enrolled, candidate.value, now);
        return if accepted then Accepted else Refused;
      }
      var readable := Validate(sha, state.value, now);
      if !readable || !fits(state.value) || candidate.None? {
        return Refused;
      }
      var accepted := Verify(sha, state.value, candidate.value, now);
      return if accepted then Accepted else Refused;
    }

    method RotateTrust(current: Policy, candidate: Policy, attestation: Attestation, now: Time) returns (updated: Option<Trust>)
      modifies this
      ensures updated ==
        if old(state).None? || !Readable(sha, fits, old(state).value, now) then None
        else Rotate(sha, fits, old(state).value, current, candidate, attestation, now)
      ensures state == if updated.Some? then updated else old(state)
    {
      if state.None? {
        return None;
      }
      var t := state.value;
      var readable := Validate(sha, t, now);
      if !readable || !fits(t) {
        return None;
      }
      if Replayed(t, candidate, attestation) {
        var verified := Verify(sha, t, candidate, now);
        return if verified then state else None;
      }
      var verified := Verify(sha, t, current, now);
      if !verified || !Additive(current.bindings, candidate.bindings) || !Trusts(t.bindings, attestation.operator, attestation.keyId)
         || !RequireTransition(current, attestation, t.generation, t.hash, sha(candidate.bindings), now) {
        return None;
      }
      var next := Rotated(sha, t, candidate, attestation);
      var valid := Validate(sha, next, now);
      if !valid || !fits(next) {
        return None;
      }
      verified := Verify(sha, next, candidate, now);
      if !verified {
        return None;
      }
      state := Some(next);
      return state;
    }
  }

  // ---------------------------------------------------------------------------
  // The measure
  // ---------------------------------------------------------------------------

  /** The (operator, key) pairs that are trusted. */
  ghost function Pairs(bs: Bindings): set<(Text, Key)> {
    set i, k | 0 <= i < |bs| && k in bs[i].keys :: (bs[i].operator, k)
  }

  ghost function PairsOf(operator: Text, keys: seq<Key>): set<(Text, Key)> {
    set k | k in keys :: (operator, k)
  }

  lemma {:induction false} PairsOfCount(operator: Text, keys: seq<Key>)
    requires Increasing(keys)
    ensures |PairsOf(operator, keys)| == |keys|
    decreases |keys|
  {
    if keys != [] {
      var (most, last) := (keys[..|keys| - 1], keys[|keys| - 1]);
      PairsOfCount(operator, most);
      assert forall i :: 0 <= i < |most| ==> most[i] < last;
      assert keys == most + [last];
      assert PairsOf(operator, keys) == PairsOf(operator, most) + {(operator, last)};
    }
  }

  ghost predicate Canonical(bs: Bindings) {
    (forall i :: 0 <= i < |bs| ==> BindingOk(bs[i])) && OperatorsOrdered(bs)
  }

  lemma KeyLimit(bs: Bindings)
    requires BindingsOk(bs)
    ensures KeyCount(bs) <= MAX_TRUSTED_PUBLIC_KEYS && Canonical(bs)
  {
  }

  /** The keys counted by `_bindings` are exactly the trusted pairs. */
  lemma {:induction false} PairsCount(bs: Bindings)
    requires Canonical(bs)
    ensures |Pairs(bs)| == KeyCount(bs)
    decreases |bs|
  {
    if bs != [] {
      var (most, last) := (bs[..|bs| - 1], bs[|bs| - 1]);
      PairsCount(most);
      PairsOfCount(last.operator, last.keys);
      assert bs == most + [last];
      assert Pairs(bs) == Pairs(most) + PairsOf(last.operator, last.keys);
      forall p | p in Pairs(most)
        ensures p !in PairsOf(last.operator, last.keys)
      {
        var i, k :| 0 <= i < |most| && k in most[i].keys && p == (most[i].operator, k);
        assert TextLess(bs[i].operator, bs[|bs| - 1].operator);
        TextLessTotal(bs[i].operator, last.operator);
      }
      assert Pairs(most) !! PairsOf(last.operator, last.keys);
    }
  }

  lemma TrustsIsPair(bs: Bindings, operator: Text, key: Key)
    ensures Trusts(bs, operator, key) <==> (operator, key) in Pairs(bs)
  {
  }

  lemma AdditiveKeeps(older: Bindings, newer: Bindings)
    requires Additive(older, newer)
    ensures Pairs(older) <= Pairs(newer)
  {
  }

  lemma LastKey(keys: seq<Key>, k: Key)
    requires Increasing(keys) && k in keys
    ensures k == keys[|keys| - 1] || (k in keys[..|keys| - 1] && k < keys[|keys| - 1])
  {
  }

  lemma EarlierKey(keys: seq<Key>, k: Key)
    requires Increasing(keys) && keys != [] && k in keys[..|keys| - 1]
    ensures k in keys && k < keys[|keys| - 1]
  {
  }

  /** An increasing list is determined by its members. */
  lemma {:induction false} SameKeys(a: seq<Key>, b: seq<Key>)
    requires Increasing(a) && Increasing(b) && Within(a, b) && Within(b, a)
    ensures a == b
    decreases |a|
  {
    assert a == [] || a[0] in a;
    assert b == [] || b[0] in b;
    if a != [] && b != [] {
      SameLast(a, b);
      var (most, rest) := (a[..|a| - 1], b[..|b| - 1]);
      SameKeys(most, rest);
      assert a == most + [a[|a| - 1]] && b == rest + [b[|b| - 1]];
    }
  }

  lemma SameLast(a: seq<Key>, b: seq<Key>)
    requires Increasing(a) && Increasing(b) && Within(a, b) && Within(b, a)
    requires a != [] && b != []
    ensures a[|a| - 1] == b[|b| - 1] && Increasing(a[..|a| - 1]) && Increasing(b[..|b| - 1])
    ensures Within(a[..|a| - 1], b[..|b| - 1]) && Within(b[..|b| - 1], a[..|a| - 1])
  {
    var (most, rest) := (a[..|a| - 1], b[..|b| - 1]);
    var (x, y) := (a[|a| - 1], b[|b| - 1]);
    assert x in a && y in b;
    LastKey(b, x);
    LastKey(a, y);
    forall k | k in most
      ensures k in rest
    {
      EarlierKey(a, k);
      LastKey(b, k);
    }
    forall k | k in rest
      ensures k in most
    {
      EarlierKey(b, k);
      LastKey(a, k);
    }
  }

  /** A trusted pair belongs to the last operator or to an earlier one. */
  lemma LastBinding(bs: Bindings, p: (Text, Key))
    requires Canonical(bs) && p in Pairs(bs)
    ensures var last := bs[|bs| - 1];
            || (p.0 == last.operator && p.1 in last.keys)
            || (p in Pairs(bs[..|bs| - 1]) && TextLess(p.0, last.operator))
  {
  }

  lemma EarlierPair(bs: Bindings, p: (Text, Key))
    requires Canonical(bs) && bs != [] && p in Pairs(bs[..|bs| - 1])
    ensures p in Pairs(bs) && TextLess(p.0, bs[|bs| - 1].operator)
  {
  }

  lemma LastPair(bs: Bindings, k: Key)
    requires Canonical(bs) && bs != []
    ensures (bs[|bs| - 1].operator, k) in Pairs(bs) <==> k in bs[|bs| - 1].keys
  {
    var last := bs[|bs| - 1];
    if (last.operator, k) in Pairs(bs) {
      LastBinding(bs, (last.operator, k));
      TextLessTotal(last.operator, last.operator);
    }
  }

  /** Bindings are determined by their pairs. */
  lemma {:induction false} SamePairs(a: Bindings, b: Bindings)
    requires Canonical(a) && Canonical(b) && Pairs(a) == Pairs(b)
    ensures a == b
    decreases |a|
  {
    if a != [] && b != [] {
      var (most, rest) := (a[..|a| - 1], b[..|b| - 1]);
      var (x, y) := (a[|a| - 1], b[|b| - 1]);
      LastPair(a, x.keys[0]);
      LastPair(b, y.keys[0]);
      LastBinding(b, (x.operator, x.keys[0]));
      LastBinding(a, (y.operator, y.keys[0]));
      TextLessTotal(x.operator, y.operator);
      assert x.operator == y.operator;
      forall k | k in x.keys
        ensures k in y.keys
      {
        LastPair(a, k);
        LastPair(b, k);
      }
      forall k | k in y.keys
        ensures k in x.keys
      {
        LastPair(a, k);
        LastPair(b, k);
      }
      SameKeys(x.keys, y.keys);
      EarlierPairsSame(a, b);
      SamePairs(most, rest);
      assert a == most + [x] && b == rest + [y];
    } else {
      NoPairs(a);
      NoPairs(b);
    }
  }

  lemma NoPairs(bs: Bindings)
    requires Canonical(bs)
    ensures bs == [] <==> Pairs(bs) == {}
  {
    if bs != [] {
      assert BindingOk(bs[0]);
      var k := bs[0].keys[0];
      assert k in bs[0].keys;
      assert (bs[0].operator, k) in Pairs(bs);
    }
  }

  lemma EarlierPairsSame(a: Bindings, b: Bindings)
    requires Canonical(a) && Canonical(b) && a != [] && b != [] && Pairs(a) == Pairs(b)
    requires a[|a| - 1].operator == b[|b| - 1].operator
    ensures Pairs(a[..|a| - 1]) == Pairs(b[..|b| - 1])
  {
    var (most, rest) := (a[..|a| - 1], b[..|b| - 1]);
    forall p | p in Pairs(most)
      ensures p in Pairs(rest)
    {
      EarlierPair(a, p);
      LastBinding(b, p);
      TextLessTotal(p.0, p.0);
    }
    forall p | p in Pairs(rest)
      ensures p in Pairs(most)
    {
      EarlierPair(b, p);
      LastBinding(a, p);
      TextLessTotal(p.0, p.0);
    }
  }

  /** A rotation adds at least one pair and removes none. */
  lemma AdditiveGrows(older: Bindings, newer: Bindings)
    requires BindingsOk(older) && BindingsOk(newer) && Additive(older, newer)
    ensures Pairs(older) < Pairs(newer) && KeyCount(older) < KeyCount(newer)
  {
    AdditiveKeeps(older, newer);
    if Pairs(older) == Pairs(newer) {
      SamePairs(older, newer);
    }
    PairsCount(older);
    PairsCount(newer);
    ProperSubset(Pairs(older), Pairs(newer));
  }

  lemma ProperSubset<T>(a: set<T>, b: set<T>)
    requires a < b
    ensures |a| < |b|
  {
    assert |b - a| > 0 by {
      var x :| x in b && x !in a;
      assert x in b - a;
    }
    assert b == a + (b - a);
  }

  /** What is left to add: it decreases with each rotation, so it bounds how many there can be. */
  ghost function Room(t: Trust): int {
    MAX_TRUSTED_PUBLIC_KEYS - |Pairs(t.bindings)|
  }

  lemma {:induction false} ChainGrows(sha: Bindings -> Hash, t: Trust, now: Time, i: nat, j: nat)
    requires TrustOk(sha, t, now) && i <= j <= |t.transitions|
    ensures BindingsOk(At(t, j)) && Pairs(At(t, i)) <= Pairs(At(t, j)) && KeyCount(At(t, i)) + (j - i) <= KeyCount(At(t, j))
    ensures i < j ==> Pairs(At(t, i)) < Pairs(At(t, j))
    decreases j - i
  {
    hide BindingsOk, Additive, KeyCount, Pairs;
    assert BindingsOk(At(t, i)) by {
      assert i > 0 ==> Follows(sha, t, i - 1, now);
    }
    if i < j {
      ChainGrows(sha, t, now, i, j - 1);
      assert Follows(sha, t, j - 1, now);
      AdditiveGrows(At(t, j - 1), At(t, j));
    }
  }

  /**
   In every accepted state the trusted pairs form a strictly growing chain, and the generation is at most 1024: the
   key limit alone stops rotation before the transition limit can.
   */
  lemma GenerationBounded(sha: Bindings -> Hash, t: Trust, now: Time)
    requires TrustOk(sha, t, now)
    ensures forall i, j :: 0 <= i < j <= |t.transitions| ==> Pairs(At(t, i)) < Pairs(At(t, j))
    ensures t.generation + |Pairs(t.initial)| <= |Pairs(t.bindings)| + 1
    ensures t.generation <= MAX_TRUSTED_PUBLIC_KEYS
  {
    hide Pairs;
    forall i, j | 0 <= i < j <= |t.transitions|
      ensures Pairs(At(t, i)) < Pairs(At(t, j))
    {
      ChainGrows(sha, t, now, i, j);
    }
    ChainGrows(sha, t, now, 0, |t.transitions|);
    KeyLimit(t.initial);
    KeyLimit(t.bindings);
    PairsCount(t.initial);
    PairsCount(t.bindings);
    NoPairs(t.initial);
  }

  /** A rotation either replays the last one or strictly uses up room, and leaves a state that verifies. */
  lemma RotationProgress(sha: Bindings -> Hash, fits: Ceiling, t: Trust, current: Policy, candidate: Policy, a: Attestation,
                         now: Time)
    requires TrustOk(sha, t, now) && Rotate(sha, fits, t, current, candidate, a, now).Some?
    ensures var next := Rotate(sha, fits, t, current, candidate, a, now).value;
            && TrustOk(sha, next, now) && Verified(sha, next, candidate, now)
            && (next == t || (Room(next) < Room(t) && next.generation == t.generation + 1
                              && t.transitions <= next.transitions && Trusts(t.bindings, a.operator, a.keyId)))
  {
    hide BindingsOk, Additive, Pairs, Signed;
    var next := Rotate(sha, fits, t, current, candidate, a, now).value;
    if next != t {
      ChainGrows(sha, next, now, |t.transitions|, |next.transitions|);
      assert At(next, |t.transitions|) == At(t, |t.transitions|);
      ProperSubset(Pairs(t.bindings), Pairs(next.bindings));
    }
  }

  /** Completeness: a properly signed additive rotation is accepted iff the state it leads to fits its file. */
  lemma RotationSucceeds(sha: Bindings -> Hash, fits: Ceiling, t: Trust, current: Policy, candidate: Policy, a: Attestation,
                         now: Time)
    requires TrustOk(sha, t, now) && Verified(sha, t, current, now) && !Replayed(t, candidate, a)
    requires BindingsOk(candidate.bindings) && Additive(t.bindings, candidate.bindings)
    requires Trusts(t.bindings, a.operator, a.keyId) && t.updatedAt <= a.signedAt
    requires RequireTransition(current, a, t.generation, t.hash, sha(candidate.bindings), now)
    requires forall x: Attestation :: current.valid(x) ==> candidate.valid(x)
    ensures Rotate(sha, fits, t, current, candidate, a, now) ==
            if fits(Rotated(sha, t, candidate, a)) then Some(Rotated(sha, t, candidate, a)) else None
  {
    hide BindingsOk, Additive, KeyCount, Pairs, Trimmed;
    var next := Rotated(sha, t, candidate, a);
    var n := |t.transitions|;
    forall i | 0 <= i < n
      ensures Follows(sha, next, i, now) && Signed(sha, next, i, candidate, now)
    {
      assert Follows(sha, t, i, now) && Signed(sha, t, i, current, now);
      AdditiveTrusts(t.bindings, candidate.bindings, t.transitions[i].attestation);
    }
    assert Follows(sha, next, n, now);
    AdditiveTrusts(t.bindings, candidate.bindings, a);
    assert Signed(sha, next, n, candidate, now);
    GenerationBounded(sha, t, now);
    AdditiveGrows(t.bindings, candidate.bindings);
    KeyLimit(t.initial);
    KeyLimit(t.bindings);
    KeyLimit(candidate.bindings);
    PairsCount(t.bindings);
    NoPairs(t.initial);
    assert |next.transitions| == next.generation - 1 <= MAX_TRANSITIONS;
  }

  lemma AdditiveTrusts(older: Bindings, newer: Bindings, a: Attestation)
    requires Additive(older, newer) && Trusts(older, a.operator, a.keyId)
    ensures Trusts(newer, a.operator, a.keyId)
  {
  }

  // ---------------------------------------------------------------------------
  // Where trust comes from
  // ---------------------------------------------------------------------------

  /** A pair and the rotation that introduced it; zero for the pairs of the enrolment. */
  datatype Introduced = Introduced(pair: (Text, Key), rotation: nat)

  /** A chain of pairs from the enrolment on, each introduced by a rotation that the one before it signed. */
  ghost predicate Lineage(t: Trust, chain: seq<Introduced>) {
    && chain != [] && chain[0].rotation == 0 && chain[0].pair in Pairs(t.initial)
    && forall n :: 0 < n < |chain| ==> SignedBy(t, chain[n - 1], chain[n])
  }

  ghost predicate SignedBy(t: Trust, signer: Introduced, next: Introduced) {
    && signer.rotation < next.rotation <= |t.transitions|
    && next.pair in Pairs(At(t, next.rotation)) && next.pair !in Pairs(At(t, next.rotation - 1))
    && var a := t.transitions[next.rotation - 1].attestation;
       signer.pair == (a.operator, a.keyId) && signer.pair in Pairs(At(t, next.rotation - 1))
  }

  /** In a verified state every trusted key traces back, signature by signature, to a key of the enrolment. */
  lemma {:induction false} EveryKeyHasALineage(sha: Bindings -> Hash, t: Trust, p: Policy, now: Time, i: nat, pair: (Text, Key))
    requires TrustOk(sha, t, now) && Verified(sha, t, p, now) && i <= |t.transitions| && pair in Pairs(At(t, i))
    ensures exists chain: seq<Introduced> ::
              Lineage(t, chain) && chain[|chain| - 1].pair == pair && chain[|chain| - 1].rotation <= i
    decreases i
  {
    hide TrustOk, Pairs, BindingsOk, Additive;
    if i == 0 {
      assert Lineage(t, [Introduced(pair, 0)]);
    } else if pair in Pairs(At(t, i - 1)) {
      EveryKeyHasALineage(sha, t, p, now, i - 1, pair);
    } else {
      var a := t.transitions[i - 1].attestation;
      assert Signed(sha, t, i - 1, p, now);
      TrustsIsPair(At(t, i - 1), a.operator, a.keyId);
      EveryKeyHasALineage(sha, t, p, now, i - 1, (a.operator, a.keyId));
      var chain: seq<Introduced> :|
        Lineage(t, chain) && chain[|chain| - 1].pair == (a.operator, a.keyId) && chain[|chain| - 1].rotation <= i - 1;
      var longer := chain + [Introduced(pair, i)];
      assert SignedBy(t, chain[|chain| - 1], Introduced(pair, i));
      assert forall n :: 0 <= n < |chain| ==> longer[n] == chain[n];
      assert Lineage(t, longer);
    }
  }

  // ---------------------------------------------------------------------------
  // Runs
  // ---------------------------------------------------------------------------

  datatype Call =
    | Resolving(candidate: Option<Policy>, legacy: bool, now: Time)
    | Rotating(current: Policy, next: Policy, attestation: Attestation, now: Time)

  /** The stored state after a call, as the store's methods leave it. */
  ghost function After(sha: Bindings -> Hash, fits: Ceiling, state: Option<Trust>, call: Call): Option<Trust> {
    match call
    case Resolving(candidate, legacy, now) => Resolve(sha, fits, state, candidate, legacy, now).0
    case Rotating(current, next, attestation, now) =>
      if state.None? || !Readable(sha, fits, state.value, now) then state
      else
        var updated := Rotate(sha, fits, state.value, current, next, attestation, now);
        if updated.Some? then updated else state
  }

  ghost function Trace(sha: Bindings -> Hash, fits: Ceiling, state: Option<Trust>, calls: seq<Call>): (t: seq<Option<Trust>>)
    ensures |t| == |calls| + 1
    decreases |calls|
  {
    [state] + if calls == [] then [] else Trace(sha, fits, After(sha, fits, state, calls[0]), calls[1..])
  }

  /** The clock of the calls never runs backwards. */
  ghost predicate Ordered(calls: seq<Call>, from: Time) {
    forall i :: 0 <= i < |calls| ==> from <= calls[i].now && forall j :: i <= j < |calls| ==> calls[i].now <= calls[j].now
  }

  lemma OrderedTail(calls: seq<Call>, from: Time)
    requires Ordered(calls, from) && calls != []
    ensures from <= calls[0].now && Ordered(calls[1..], calls[0].now)
  {
  }

  /** A reader with a later clock accepts what an earlier one accepted. */
  lemma ClockMonotone(sha: Bindings -> Hash, t: Trust, now: Time, later: Time)
    requires TrustOk(sha, t, now) && now <= later
    ensures TrustOk(sha, t, later)
  {
    forall i | 0 <= i < |t.transitions|
      ensures Follows(sha, t, i, later)
    {
      assert Follows(sha, t, i, now);
    }
  }

  /** What a state becomes: nothing is rewritten, and no trusted pair is lost. */
  ghost predicate Extends(before: Option<Trust>, after: Option<Trust>) {
    before.None? ||
    (&& after.Some? && before.value.initial == after.value.initial && before.value.enrolledAt == after.value.enrolledAt
     && before.value.transitions <= after.value.transitions && Pairs(before.value.bindings) <= Pairs(after.value.bindings))
  }

  lemma CallExtends(sha: Bindings -> Hash, fits: Ceiling, state: Option<Trust>, call: Call)
    ensures var next := After(sha, fits, state, call);
            Extends(state, next) && (next != state ==> next.Some? && Readable(sha, fits, next.value, call.now))
  {
    hide BindingsOk, Follows, Signed, RequireTransition, Pairs, At, TimeAt;
    if call.Rotating? && state.Some? && Readable(sha, fits, state.value, call.now) {
      var updated := Rotate(sha, fits, state.value, call.current, call.next, call.attestation, call.now);
      if updated.Some? && !Replayed(state.value, call.next, call.attestation) {
        AdditiveKeeps(state.value.bindings, call.next.bindings);
      }
    }
  }

  /**
   From an empty store or any accepted state, every state of every run is accepted by its own reader, keeps the first
   enrolment, only appends rotations and never loses a trusted pair.
   */
  lemma {:induction false} RunOnlyExtends(sha: Bindings -> Hash, fits: Ceiling, state: Option<Trust>, calls: seq<Call>,
                                          from: Time, i: nat, j: nat)
    requires (state.Some? ==> Readable(sha, fits, state.value, from)) && Ordered(calls, from) && i <= j <= |calls|
    ensures var t := Trace(sha, fits, state, calls);
            && Extends(t[i], t[j])
            && (t[j].Some? ==> Readable(sha, fits, t[j].value, if j == 0 then from else calls[j - 1].now))
    decreases |calls|
  {
    hide TrustOk, After, Pairs, Ordered;
    if j > 0 {
      OrderedTail(calls, from);
      var now := calls[0].now;
      if state.Some? {
        ClockMonotone(sha, state.value, from, now);
      }
      CallExtends(sha, fits, state, calls[0]);
      var next := After(sha, fits, state, calls[0]);
      RunOnlyExtends(sha, fits, next, calls[1..], now, if i > 0 then i - 1 else 0, j - 1);
      assert Trace(sha, fits, state, calls)[j] == Trace(sha, fits, next, calls[1..])[j - 1];
    }
  }

  /** Once signed trust is enrolled, no later startup of the run succeeds without keys, or with keys other than the stored ones. */
  lemma NoSilentDowngrade(sha: Bindings -> Hash, fits: Ceiling, state: Option<Trust>, calls: seq<Call>, from: Time,
                          i: nat, j: nat)
    requires (state.Some? ==> Readable(sha, fits, state.value, from)) && Ordered(calls, from) && i <= j < |calls|
    requires Trace(sha, fits, state, calls)[i].Some? && calls[j].Resolving?
    ensures var (found, call) := (Trace(sha, fits, state, calls)[j], calls[j]);
            && found.Some?
            && var (_, startup) := Resolve(sha, fits, found, call.candidate, call.legacy, call.now);
               && !startup.Unsigned?
               && (startup.Accepted? ==>
                     && call.candidate.Some? && call.candidate.value.bindings == found.value.bindings
                     && Pairs(Trace(sha, fits, state, calls)[i].value.bindings) <= Pairs(call.candidate.value.bindings))
  {
    hide TrustOk, Trace, Pairs, Ordered;
    RunOnlyExtends(sha, fits, state, calls, from, i, j);
  }
}
