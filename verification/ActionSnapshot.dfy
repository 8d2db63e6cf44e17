/**
 `_validate_action_hash_structure` in `contracts.py`: one walk over a tree that returns its normal form and
 charges nodes, canonical bytes and sort work against ceilings before anything is encoded.
 */
module ActionSnapshot {
  import opened CanonicalJson
  import opened Money
  import opened PythonText
  import opened Wrappers

  /** `_CanonicalSnapshotLimits`. */
  datatype Ceilings = Ceilings(
    depth: nat, nodes: nat, entries: nat, sortWork: nat,
    scalarChars: nat, numberChars: nat, tokenBytes: nat, bytes: nat)

  const MIB := 1024 * 1024

  /** The ceilings of `limits.py`. */
  const ACTION_CEILINGS := Ceilings(64, 1_100_000, 65_536, 64 * MIB, 8 * MIB, 1024, 64 * MIB, 64 * MIB)

  /** The ceiling that an error names, or `Malformed` for data outside canonical JSON. */
  datatype Refusal =
    | Depth | Nodes | Entries | SortWork | ScalarChars | NumberChars | TokenBytes | Bytes
    | Malformed

  // ---------------------------------------------------------------------------
  // String tokens
  // ---------------------------------------------------------------------------

  predicate PlainAscii(c: Code) {
    0x20 <= c <= 0x7E && c != 0x22 && c != 0x5C
  }

  /** `str.isascii() and str.isprintable()` and no quote or backslash. */
  predicate AllPlain(s: Text) {
    forall i :: 0 <= i < |s| ==> PlainAscii(s[i])
  }

  /** `_validate_action_hash_string_token`: both paths measure the quoted form without building it. */
  method StringToken(value: Text, maximum: nat) returns (width: Result<nat, Refusal>)
    ensures width == if |Quote(value)| <= maximum then Ok(|Quote(value)|) else Err(TokenBytes)
  {
    var used := 2;
    if used > maximum {
      return Err(TokenBytes);
    }
    if AllPlain(value) {
      PlainWidth(value);
      used := used + |value|;
      if used > maximum {
        return Err(TokenBytes);
      }
      return Ok(used);
    }
    for i := 0 to |value|
      invariant used <= maximum
      invariant used + |EscapeText(value[i..])| == |Quote(value)|
    {
      var codepoint := value[i];
      var size :=
        if codepoint in {0x22, 0x5C, 0x08, 0x0C, 0x0A, 0x0D, 0x09} then 2
        else if 0x20 <= codepoint <= 0x7E then 1
        else if codepoint <= 0xFFFF then 6
        else 12;
      assert value[i..][1..] == value[i + 1..];
      if size > maximum - used {
        return Err(TokenBytes);
      }
      used := used + size;
    }
    return Ok(used);
  }

  lemma {:induction false} PlainWidth(s: Text)
    requires AllPlain(s)
    ensures |EscapeText(s)| == |s|
    decreases |s|
  {
    if s != [] {
      PlainWidth(s[1..]);
    }
  }

  // ---------------------------------------------------------------------------
  // Normal forms
  // ---------------------------------------------------------------------------

  function MoneyString(d: Decimal, limit: nat): Text {
    if BoundedMoneyText(d, limit).Ok? then Codes(BoundedMoneyText(d, limit).value) else []
  }

  function NormalKey(c: Ceilings, k: Key): Key {
    match k
    case EnumKey(_, member) => NormalKey(c, member)
    case DecimalKey(d) => StrKey(MoneyString(d, c.numberChars))
    case _ => k
  }

  function NormalKeys(c: Ceilings, entries: seq<Entry>): seq<Key> {
    if entries == [] then [] else [NormalKey(c, entries[0].key)] + NormalKeys(c, entries[1..])
  }

  function Normal(c: Ceilings, v: Value): Value
    decreases v
  {
    match v
    case EnumMember(member) => Normal(c, member)
    case Dec(d) => Str(MoneyString(d, c.numberChars))
    case List(items) => List(NormalItems(c, items))
    case Tuple(items) => Tuple(NormalItems(c, items))
    case Dict(entries) => Dict(NormalEntries(c, entries))
    case _ => v
  }

  function NormalItems(c: Ceilings, items: seq<Value>): (r: seq<Value>)
    ensures |r| == |items|
    decreases items
  {
    if items == [] then [] else [Normal(c, items[0])] + NormalItems(c, items[1..])
  }

  function NormalEntries(c: Ceilings, entries: seq<Entry>): (r: seq<Entry>)
    ensures |r| == |entries|
    decreases entries
  {
    if entries == [] then [] else [NormalEntry(c, entries[0])] + NormalEntries(c, entries[1..])
  }

  function NormalEntry(c: Ceilings, e: Entry): Entry
    decreases e
  {
    Entry(NormalKey(c, e.key), Normal(c, e.value))
  }

  // ---------------------------------------------------------------------------
  // Mapping keys
  // ---------------------------------------------------------------------------

  function FamilyOf(k: Key): Family {
    match k
    case StrKey(_) => StringFamily
    case IntKey(_) => NumberFamily
    case BoolKey(_) => NumberFamily
    case FloatKey(_, _) => NumberFamily
    case NonFiniteKey => NumberFamily
    case NullKey => NullFamily
    case EnumKey(mixin, _) => mixin
    case _ => NoFamily
  }

  predicate OneFamily(entries: seq<Entry>) {
    forall i :: 0 <= i < |entries| ==> FamilyOf(entries[i].key) != NoFamily && FamilyOf(entries[i].key) == FamilyOf(entries[0].key)
  }

  /** `validate_mapping_key_families`. */
  method ValidateFamilies(entries: seq<Entry>) returns (ok: bool)
    ensures ok == OneFamily(entries)
  {
    var family: Option<Family> := None;
    for i := 0 to |entries|
      invariant OneFamily(entries[..i])
      invariant family == if i == 0 then None else Some(FamilyOf(entries[0].key))
    {
      var current := FamilyOf(entries[i].key);
      if current == NoFamily {
        return false;
      }
      if family == None {
        family := Some(current);
      } else if family != Some(current) {
        return false;
      }
    }
    assert entries[..|entries|] == entries;
    return true;
  }

  /** Python equality of normalized keys: numbers compare as numbers. */
  predicate SameKey(a: Key, b: Key) {
    a == b || (KeyNumber(a).Some? && KeyNumber(a) == KeyNumber(b))
  }

  predicate KeyTaken(keys: seq<Key>, k: Key) {
    exists i :: 0 <= i < |keys| && SameKey(keys[i], k)
  }

  predicate DistinctNormal(keys: seq<Key>) {
    forall i, j :: 0 <= i < j < |keys| ==> !SameKey(keys[i], keys[j])
  }

  // ---------------------------------------------------------------------------
  // What a tree costs
  // ---------------------------------------------------------------------------

  datatype Cost = Cost(nodes: nat, bytes: nat, sortWork: nat)

  function Plus(a: Cost, b: Cost): Cost {
    Cost(a.nodes + b.nodes, a.bytes + b.bytes, a.sortWork + b.sortWork)
  }

  /** `int.bit_length`. */
  function BitLength(n: int): nat
    decreases if n < 0 then 1 - n else n
  {
    if n < 0 then BitLength(-n) else if n == 0 then 0 else 1 + BitLength(n / 2)
  }

  function SortRounds(entries: seq<Entry>): nat {
    BitLength(|entries| - 1)
  }

  /** The width a key is charged: its text, quoted. */
  function KeyWidth(c: Ceilings, k: Key): nat {
    match k
    case StrKey(s) => |Quote(s)|
    case IntKey(n) => |IntText(n)| + 2
    case BoolKey(b) => if b then 6 else 7
    case NullKey => 6
    case FloatKey(repr, _) => |repr| + 2
    case DecimalKey(d) => |Quote(MoneyString(d, c.numberChars))|
    case EnumKey(_, member) => KeyWidth(c, member)
    case _ => 0
  }

  function KeyNodes(k: Key): nat {
    match k
    case EnumKey(_, member) => 1 + KeyNodes(member)
    case _ => 1
  }

  function Work(width: nat, rounds: nat): nat { width * rounds }

  function KeyCost(c: Ceilings, k: Key, rounds: nat): Cost {
    Cost(KeyNodes(k), KeyWidth(c, k), Work(KeyWidth(c, k), rounds))
  }

  function KeysCost(c: Ceilings, entries: seq<Entry>, rounds: nat): Cost {
    if entries == [] then Cost(0, 0, 0)
    else Plus(KeyCost(c, entries[0].key, rounds), KeysCost(c, entries[1..], rounds))
  }

  function Comma(first: bool): nat { if first then 0 else 1 }

  function TreeCost(c: Ceilings, v: Value): Cost
    decreases v
  {
    match v
    case Null => Cost(1, 4, 0)
    case Bool(b) => Cost(1, if b then 4 else 5, 0)
    case Int(n) => Cost(1, |IntText(n)|, 0)
    case Float(repr) => Cost(1, |repr|, 0)
    case Str(s) => Cost(1, |Quote(s)|, 0)
    case Dec(d) => Cost(1, |Quote(MoneyString(d, c.numberChars))|, 0)
    case EnumMember(member) => Plus(Cost(1, 0, 0), TreeCost(c, member))
    case List(items) => Plus(Cost(1, 2, 0), ItemsCost(c, items, true))
    case Tuple(items) => Plus(Cost(1, 2, 0), ItemsCost(c, items, true))
    case Dict(entries) =>
      Plus(Plus(Cost(1, 2, 0), KeysCost(c, entries, SortRounds(entries))), ValuesCost(c, entries, true))
    case _ => Cost(1, 0, 0)
  }

  function ItemsCost(c: Ceilings, items: seq<Value>, first: bool): Cost
    decreases items
  {
    if items == [] then Cost(0, 0, 0)
    else
      var head := TreeCost(c, items[0]);
      Plus(Plus(Cost(0, Comma(first), 0), head), ItemsCost(c, items[1..], false))
  }

  /** Commas, colons and values; the keys are charged apart. */
  function ValuesCost(c: Ceilings, entries: seq<Entry>, first: bool): Cost
    decreases entries
  {
    if entries == [] then Cost(0, 0, 0)
    else Plus(Plus(Cost(0, Comma(first) + 1, 0), ValueCost(c, entries[0])), ValuesCost(c, entries[1..], false))
  }

  function ValueCost(c: Ceilings, e: Entry): Cost
    decreases e
  {
    TreeCost(c, e.value)
  }

  // ---------------------------------------------------------------------------
  // What is wrong with a tree
  // ---------------------------------------------------------------------------

  function MoneyFaults(c: Ceilings, d: Decimal): set<Refusal> {
    match BoundedMoneyText(d, c.numberChars)
    case Err(TooLong) => {NumberChars}
    case Err(_) => {Malformed}
    case Ok(t) => if |Quote(Codes(t))| > c.tokenBytes then {TokenBytes} else {}
  }

  function TextFaults(c: Ceilings, s: Text): set<Refusal> {
    (if |s| > c.scalarChars then {ScalarChars} else {}) + (if |Quote(s)| > c.tokenBytes then {TokenBytes} else {})
  }

  function DepthFaults(c: Ceilings, depth: nat): set<Refusal> {
    if depth > c.depth then {Depth} else {}
  }

  function KeyFaults(c: Ceilings, k: Key): set<Refusal> {
    match k
    case StrKey(s) => TextFaults(c, s)
    case IntKey(n) => if |IntText(n)| > c.numberChars then {NumberChars} else {}
    case BoolKey(_) => {}
    case NullKey => {}
    case FloatKey(repr, _) => if |repr| > c.numberChars then {NumberChars} else {}
    case DecimalKey(d) => MoneyFaults(c, d)
    case EnumKey(_, member) => KeyFaults(c, member)
    case _ => {Malformed}
  }

  function KeysFaults(c: Ceilings, entries: seq<Entry>, depth: nat): set<Refusal> {
    if entries == [] then {}
    else DepthFaults(c, depth) + KeyFaults(c, entries[0].key) + KeysFaults(c, entries[1..], depth)
  }

  function MappingFaults(c: Ceilings, entries: seq<Entry>): set<Refusal> {
    (if |entries| > c.entries then {Entries} else {})
    + (if OneFamily(entries) && DistinctNormal(NormalKeys(c, entries)) then {} else {Malformed})
  }

  /** Every local ceiling that some part of the tree, found at a depth, breaks. */
  function Faults(c: Ceilings, v: Value, depth: nat): set<Refusal>
    decreases v
  {
    DepthFaults(c, depth) +
    match v
    case Null => {}
    case Bool(_) => {}
    case Int(n) => if |IntText(n)| > c.numberChars then {NumberChars} else {}
    case Float(repr) => if |repr| > c.numberChars then {NumberChars} else {}
    case Str(s) => TextFaults(c, s)
    case Dec(d) => MoneyFaults(c, d)
    case EnumMember(member) => Faults(c, member, depth)
    case List(items) => ItemsFaults(c, items, depth + 1)
    case Tuple(items) => ItemsFaults(c, items, depth + 1)
    case Dict(entries) =>
      MappingFaults(c, entries) + KeysFaults(c, entries, depth + 1) + ValuesFaults(c, entries, depth + 1)
    case _ => {Malformed}
  }

  function ItemsFaults(c: Ceilings, items: seq<Value>, depth: nat): set<Refusal>
    decreases items
  {
    if items == [] then {} else Faults(c, items[0], depth) + ItemsFaults(c, items[1..], depth)
  }

  function ValuesFaults(c: Ceilings, entries: seq<Entry>, depth: nat): set<Refusal>
    decreases entries
  {
    if entries == [] then {} else ValueFaults(c, entries[0], depth) + ValuesFaults(c, entries[1..], depth)
  }

  function ValueFaults(c: Ceilings, e: Entry, depth: nat): set<Refusal>
    decreases e
  {
    Faults(c, e.value, depth)
  }

  predicate Within(c: Ceilings, total: Cost) {
    total.nodes <= c.nodes && total.bytes <= c.bytes && total.sortWork <= c.sortWork
  }

  /** The ceiling named is one that the tree breaks: a local one, or a running total. */
  predicate Justified(c: Ceilings, faults: set<Refusal>, total: Cost, e: Refusal) {
    || e in faults
    || (e.Nodes? && total.nodes > c.nodes)
    || (e.Bytes? && total.bytes > c.bytes)
    || (e.SortWork? && total.sortWork > c.sortWork)
  }

  /** An outcome of a part of the walk that found these faults and would bring the total spent to this. */
  predicate Decided<T>(c: Ceilings, faults: set<Refusal>, total: Cost, result: Result<T, Refusal>) {
    && (result.Ok? <==> faults == {} && Within(c, total))
    && (result.Err? ==> Justified(c, faults, total, result.error))
  }

  lemma Undecided<T>(c: Ceilings, faults: set<Refusal>, total: Cost, result: Result<T, Refusal>)
    requires Decided(c, faults, total, result)
    ensures result.Ok? ==> faults == {} && Within(c, total)
    ensures result.Err? ==> Justified(c, faults, total, result.error)
  {
  }

  /** A refusal of a part refuses the whole. */
  lemma Refuses<T>(c: Ceilings, part: set<Refusal>, spent: Cost, faults: set<Refusal>, total: Cost, e: Refusal)
    requires Justified(c, part, spent, e) && part <= faults
    requires spent.nodes <= total.nodes && spent.bytes <= total.bytes && spent.sortWork <= total.sortWork
    ensures Decided<T>(c, faults, total, Err(e))
  {
  }

  lemma Accepts<T>(c: Ceilings, faults: set<Refusal>, total: Cost, value: T)
    requires faults == {} && Within(c, total)
    ensures Decided<T>(c, faults, total, Ok(value))
  {
  }

  lemma Passes<T, U>(c: Ceilings, faults: set<Refusal>, total: Cost, result: Result<T, Refusal>, outer: Result<U, Refusal>)
    requires Decided(c, faults, total, result)
    requires result.Ok? <==> outer.Ok?
    requires result.Err? ==> outer.Err? && outer.error == result.error
    ensures Decided(c, faults, total, outer)
  {
  }

  lemma Regroup<T>(done: seq<T>, next: T, rest: seq<T>)
    ensures done + ([next] + rest) == done + [next] + rest
  {
  }

  lemma LocalRefused(c: Ceilings, faults: set<Refusal>, total: Cost, e: Refusal)
    requires e in faults
    ensures Decided<Value>(c, faults, total, Err(e))
  {
  }

  lemma BytesRefused(c: Ceilings, faults: set<Refusal>, total: Cost)
    requires total.bytes > c.bytes
    ensures Decided<Value>(c, faults, total, Err(Bytes)) && Justified(c, faults, total, Bytes)
  {
  }

  lemma NodeRefused(c: Ceilings, v: Value, depth: nat, before: Cost, e: Refusal)
    requires (e == Depth && depth > c.depth) || (e == Nodes && before.nodes + 1 > c.nodes)
    ensures Decided<Value>(c, Faults(c, v, depth), Plus(before, TreeCost(c, v)), Err(e))
  {
    NodeCounted(c, v);
    if e == Depth {
      TooDeepFaults(c, v, depth);
    }
  }

  lemma ContainerParts(c: Ceilings, v: Value, depth: nat)
    requires depth <= c.depth
    ensures v.List? ==>
              && Faults(c, v, depth) == ItemsFaults(c, v.items, depth + 1) && Normal(c, v) == List(NormalItems(c, v.items))
              && TreeCost(c, v) == Plus(Cost(1, 2, 0), ItemsCost(c, v.items, true))
    ensures v.Tuple? ==>
              && Faults(c, v, depth) == ItemsFaults(c, v.items, depth + 1) && Normal(c, v) == Tuple(NormalItems(c, v.items))
              && TreeCost(c, v) == Plus(Cost(1, 2, 0), ItemsCost(c, v.items, true))
    ensures v.Dict? ==>
              && Normal(c, v) == Dict(NormalEntries(c, v.entries))
              && Faults(c, v, depth) ==
                 MappingFaults(c, v.entries) + KeysFaults(c, v.entries, depth + 1) + ValuesFaults(c, v.entries, depth + 1)
              && TreeCost(c, v) == Plus(Plus(Cost(1, 2, 0), KeysCost(c, v.entries, SortRounds(v.entries))),
                                        ValuesCost(c, v.entries, true))
    ensures v.EnumMember? ==>
              && Faults(c, v, depth) == Faults(c, v.member, depth) && Normal(c, v) == Normal(c, v.member)
              && TreeCost(c, v) == Plus(Cost(1, 0, 0), TreeCost(c, v.member))
    ensures !v.List? && !v.Tuple? && !v.Dict? && !v.EnumMember? ==> Faults(c, v, depth) == Faults(c, v, 0)
  {
  }

  lemma TooDeepFaults(c: Ceilings, v: Value, depth: nat)
    requires depth > c.depth
    ensures Depth in Faults(c, v, depth)
  {
  }

  lemma {:induction false} NodeCounted(c: Ceilings, v: Value)
    ensures TreeCost(c, v).nodes >= 1
  {
  }

  lemma ItemsDone(c: Ceilings, depth: nat)
    ensures ItemsFaults(c, [], depth) == {} && NormalItems(c, []) == []
    ensures ItemsCost(c, [], true) == ItemsCost(c, [], false) == Cost(0, 0, 0)
    ensures ValuesFaults(c, [], depth) == {} && NormalEntries(c, []) == []
    ensures ValuesCost(c, [], true) == ValuesCost(c, [], false) == Cost(0, 0, 0)
    ensures KeysFaults(c, [], depth) == {} && NormalKeys(c, []) == []
    ensures forall rounds :: KeysCost(c, [], rounds) == Cost(0, 0, 0)
  {
  }

  lemma ItemsStep(c: Ceilings, items: seq<Value>, i: nat, first: bool, depth: nat)
    requires i < |items|
    ensures ItemsFaults(c, items[i..], depth) == Faults(c, items[i], depth) + ItemsFaults(c, items[i + 1..], depth)
    ensures ItemsCost(c, items[i..], first) ==
            Plus(Plus(Cost(0, Comma(first), 0), TreeCost(c, items[i])), ItemsCost(c, items[i + 1..], false))
    ensures NormalItems(c, items[i..]) == [Normal(c, items[i])] + NormalItems(c, items[i + 1..])
  {
    assert items[i..][1..] == items[i + 1..];
  }

  lemma ValuesStep(c: Ceilings, entries: seq<Entry>, i: nat, first: bool, depth: nat)
    requires i < |entries|
    ensures ValuesFaults(c, entries[i..], depth) == Faults(c, entries[i].value, depth) + ValuesFaults(c, entries[i + 1..], depth)
    ensures ValuesCost(c, entries[i..], first) ==
            Plus(Plus(Cost(0, Comma(first) + 1, 0), TreeCost(c, entries[i].value)), ValuesCost(c, entries[i + 1..], false))
    ensures NormalEntries(c, entries[i..]) ==
            [Entry(NormalKey(c, entries[i].key), Normal(c, entries[i].value))] + NormalEntries(c, entries[i + 1..])
  {
    assert entries[i..][1..] == entries[i + 1..];
  }

  lemma KeysStep(c: Ceilings, entries: seq<Entry>, i: nat, rounds: nat, depth: nat)
    requires i < |entries|
    ensures KeysFaults(c, entries[i..], depth) ==
            DepthFaults(c, depth) + KeyFaults(c, entries[i].key) + KeysFaults(c, entries[i + 1..], depth)
    ensures KeysCost(c, entries[i..], rounds) == Plus(KeyCost(c, entries[i].key, rounds), KeysCost(c, entries[i + 1..], rounds))
    ensures NormalKeys(c, entries[i..]) == [NormalKey(c, entries[i].key)] + NormalKeys(c, entries[i + 1..])
  {
  }

  lemma WorkBound(width: nat, rounds: nat, remaining: nat)
    requires rounds > 0
    ensures width > remaining / rounds <==> width * rounds > remaining
  {
    var q := remaining / rounds;
    assert q * rounds <= remaining < (q + 1) * rounds;
    if width > q {
      assert width * rounds >= (q + 1) * rounds;
    } else {
      assert width * rounds <= q * rounds;
    }
  }

  // ---------------------------------------------------------------------------
  // The walk
  // ---------------------------------------------------------------------------

  class Walk {
    const c: Ceilings
    var nodes: nat
    var canonicalBytes: nat
    var sortWork: nat

    constructor (ceilings: Ceilings)
      ensures c == ceilings && Spent() == Cost(0, 0, 0) && Valid()
    {
      c := ceilings;
      nodes, canonicalBytes, sortWork := 0, 0, 0;
    }

    function Spent(): Cost
      reads this
    {
      Cost(nodes, canonicalBytes, sortWork)
    }

    predicate Valid()
      reads this
    {
      Within(c, Spent())
    }

    method ClaimNode(depth: nat) returns (refusal: Option<Refusal>)
      requires Valid()
      modifies this
      ensures refusal == if depth > c.depth then Some(Depth) else if old(nodes) + 1 > c.nodes then Some(Nodes) else None
      ensures refusal.None? ==> Valid() && Spent() == Plus(old(Spent()), Cost(1, 0, 0))
    {
      if depth > c.depth {
        return Some(Depth);
      }
      nodes := nodes + 1;
      refusal := if nodes > c.nodes then Some(Nodes) else None;
    }

    method Consume(width: nat) returns (refusal: Option<Refusal>)
      requires Valid()
      modifies this
      ensures refusal == if old(canonicalBytes) + width > c.bytes then Some(Bytes) else None
      ensures refusal.None? ==> Valid() && Spent() == Plus(old(Spent()), Cost(0, width, 0))
    {
      if width > c.bytes - canonicalBytes {
        return Some(Bytes);
      }
      canonicalBytes := canonicalBytes + width;
      refusal := None;
    }

    method ConsumeSortWork(width: nat, rounds: nat) returns (refusal: Option<Refusal>)
      requires Valid()
      modifies this
      ensures refusal == if old(sortWork) + Work(width, rounds) > c.sortWork then Some(SortWork) else None
      ensures refusal.None? ==> Valid() && Spent() == Plus(old(Spent()), Cost(0, 0, Work(width, rounds)))
    {
      if rounds == 0 {
        return None;
      }
      var remaining := c.sortWork - sortWork;
      WorkBound(width, rounds, remaining);
      if width > remaining / rounds {
        return Some(SortWork);
      }
      sortWork := sortWork + width * rounds;
      refusal := None;
    }

    /** The width of a scalar's text, before it is charged. */
    method KeyScalar(k: Key) returns (width: Result<nat, Refusal>)
      requires !k.EnumKey?
      ensures width.Ok? <==> KeyFaults(c, k) == {}
      ensures width.Ok? ==> width.value == KeyWidth(c, k)
      ensures width.Err? ==> width.error in KeyFaults(c, k)
    {
      match k
      case StrKey(s) =>
        if |s| > c.scalarChars {
          return Err(ScalarChars);
        }
        width := StringToken(s, c.tokenBytes);
      case IntKey(n) =>
        IntegerBoundExact(n, c.numberChars);
        width := if IntegerWidth(n, c.numberChars).Ok? then Ok(IntegerWidth(n, c.numberChars).value + 2) else Err(NumberChars);
      case BoolKey(b) => width := Ok(if b then 6 else 7);
      case NullKey => width := Ok(6);
      case FloatKey(repr, _) => width := if |repr| > c.numberChars then Err(NumberChars) else Ok(|repr| + 2);
      case DecimalKey(d) => width := MoneyToken(d);
      case _ => width := Err(Malformed);
    }

    method MoneyToken(d: Decimal) returns (width: Result<nat, Refusal>)
      ensures width.Ok? <==> MoneyFaults(c, d) == {}
      ensures width.Ok? ==> width.value == |Quote(MoneyString(d, c.numberChars))|
      ensures width.Err? ==> width.error in MoneyFaults(c, d)
    {
      match BoundedMoneyText(d, c.numberChars)
      case Err(e) => width := Err(if e == TooLong then NumberChars else Malformed);
      case Ok(text) => width := StringToken(Codes(text), c.tokenBytes);
    }

    method VisitKey(k: Key, depth: nat) returns (result: Result<(Key, nat), Refusal>)
      requires Valid()
      modifies this
      ensures Decided(c, DepthFaults(c, depth) + KeyFaults(c, k), Plus(old(Spent()), KeyCost(c, k, 0)), result)
      ensures result.Ok? ==> Valid() && Spent() == Plus(old(Spent()), KeyCost(c, k, 0))
      ensures result.Ok? ==> result.value == (NormalKey(c, k), KeyWidth(c, k))
      decreases k
    {
      var refusal := ClaimNode(depth);
      if refusal.Some? {
        return Err(refusal.value);
      }
      if k.EnumKey? {
        result := VisitKey(k.member, depth);
        return;
      }
      var width := KeyScalar(k);
      if width.Err? {
        return Err(width.error);
      }
      refusal := Consume(width.value);
      if refusal.Some? {
        return Err(refusal.value);
      }
      return Ok((NormalKey(c, k), width.value));
    }

    /** The text of a scalar value, charged; containers are handled by `Visit`. */
    method Scalar(v: Value) returns (width: Result<nat, Refusal>)
      requires !v.EnumMember? && !v.List? && !v.Tuple? && !v.Dict?
      ensures width.Ok? <==> Faults(c, v, 0) == {}
      ensures width.Ok? ==> Cost(1, width.value, 0) == TreeCost(c, v)
      ensures width.Err? ==> width.error in Faults(c, v, 0)
    {
      match v
      case Null => width := Ok(4);
      case Bool(b) => width := Ok(if b then 4 else 5);
      case Int(n) =>
        IntegerBoundExact(n, c.numberChars);
        width := if IntegerWidth(n, c.numberChars).Ok? then Ok(IntegerWidth(n, c.numberChars).value) else Err(NumberChars);
      case Float(repr) => width := if |repr| > c.numberChars then Err(NumberChars) else Ok(|repr|);
      case Str(s) =>
        if |s| > c.scalarChars {
          return Err(ScalarChars);
        }
        width := StringToken(s, c.tokenBytes);
      case Dec(d) => width := MoneyToken(d);
      case _ => width := Err(Malformed);
    }

    /** `visit`. */
    method Visit(v: Value, depth: nat) returns (result: Result<Value, Refusal>)
      requires Valid()
      modifies this
      ensures Decided(c, Faults(c, v, depth), Plus(old(Spent()), TreeCost(c, v)), result)
      ensures result.Ok? ==> Valid() && Spent() == Plus(old(Spent()), TreeCost(c, v)) && result.value == Normal(c, v)
      decreases v, 1
    {
      hide Faults, TreeCost, Normal, ItemsFaults, ValuesFaults, ItemsCost, ValuesCost, NormalItems, NormalEntries,
        MappingFaults, KeysFaults, KeysCost, SortRounds, MoneyString, Decided, Justified;
      ghost var total := Plus(Spent(), TreeCost(c, v));
      ghost var before := Spent();
      var refusal := ClaimNode(depth);
      NodeCounted(c, v);
      if refusal.Some? {
        NodeRefused(c, v, depth, before, refusal.value);
        return Err(refusal.value);
      }
      ContainerParts(c, v, depth);
      match v
      case EnumMember(member) => result := Visit(member, depth);
      case List(items) =>
        var r := VisitSequence(items, depth);
        result := if r.Ok? then Ok(List(r.value)) else Err(r.error);
        Passes(c, Faults(c, v, depth), total, r, result);
      case Tuple(items) =>
        var r := VisitSequence(items, depth);
        result := if r.Ok? then Ok(Tuple(r.value)) else Err(r.error);
        Passes(c, Faults(c, v, depth), total, r, result);
      case Dict(entries) =>
        var r := VisitEntries(entries, depth);
        result := if r.Ok? then Ok(Dict(r.value)) else Err(r.error);
        Passes(c, Faults(c, v, depth), total, r, result);
      case _ =>
        var width := Scalar(v);
        if width.Err? {
          LocalRefused(c, Faults(c, v, depth), total, width.error);
          return Err(width.error);
        }
        refusal := Consume(width.value);
        if refusal.Some? {
          BytesRefused(c, Faults(c, v, depth), total);
          return Err(refusal.value);
        }
        Accepts(c, Faults(c, v, depth), total, ScalarNormal(v));
        return Ok(ScalarNormal(v));
    }

    function ScalarNormal(v: Value): (r: Value)
      requires !v.EnumMember? && !v.List? && !v.Tuple? && !v.Dict?
      ensures r == Normal(c, v)
    {
      if v.Dec? then Str(MoneyString(v.amount, c.numberChars)) else v
    }

    /** One value of a mapping, with its comma and colon. */
    method VisitValue(e: Entry, first: bool, depth: nat) returns (result: Result<Value, Refusal>)
      requires Valid()
      modifies this
      ensures var cost := Plus(Cost(0, Comma(first) + 1, 0), TreeCost(c, e.value));
              && Decided(c, Faults(c, e.value, depth), Plus(old(Spent()), cost), result)
              && (result.Ok? ==> Valid() && Spent() == Plus(old(Spent()), cost) && result.value == Normal(c, e.value))
      decreases e
    {
      hide Faults, TreeCost, Normal, ItemsFaults, ValuesFaults, ItemsCost, ValuesCost, NormalItems, NormalEntries;
      if !first {
        var refusal := Consume(1);
        if refusal.Some? {
          return Err(refusal.value);
        }
      }
      var refusal := Consume(1);
      if refusal.Some? {
        return Err(refusal.value);
      }
      result := Visit(e.value, depth);
    }

    /** A list or tuple found at a depth. */
    method VisitSequence(items: seq<Value>, depth: nat) returns (result: Result<seq<Value>, Refusal>)
      requires Valid()
      modifies this
      ensures var cost := Plus(Cost(0, 2, 0), ItemsCost(c, items, true));
              && Decided(c, ItemsFaults(c, items, depth + 1), Plus(old(Spent()), cost), result)
              && (result.Ok? ==> Valid() && Spent() == Plus(old(Spent()), cost) && result.value == NormalItems(c, items))
      decreases items, 1
    {
      hide ItemsFaults, ItemsCost, NormalItems;
      var refusal := Consume(2);
      if refusal.Some? {
        return Err(refusal.value);
      }
      result := VisitItems(items, depth);
    }

    method VisitItems(items: seq<Value>, depth: nat) returns (result: Result<seq<Value>, Refusal>)
      requires Valid()
      modifies this
      ensures var cost := ItemsCost(c, items, true);
              && Decided(c, ItemsFaults(c, items, depth + 1), Plus(old(Spent()), cost), result)
              && (result.Ok? ==> Valid() && Spent() == Plus(old(Spent()), cost) && result.value == NormalItems(c, items))
      decreases items, 0
    {
      hide Faults, TreeCost, Normal, ItemsFaults, ValuesFaults, ItemsCost, ValuesCost, NormalItems, NormalEntries,
        Decided, Justified;
      ghost var goal := Plus(Spent(), ItemsCost(c, items, true));
      ghost var faults := ItemsFaults(c, items, depth + 1);
      var snapshot: seq<Value> := [];
      for i := 0 to |items|
        invariant Valid()
        invariant Plus(Spent(), ItemsCost(c, items[i..], i == 0)) == goal
        invariant ItemsFaults(c, items[i..], depth + 1) == ItemsFaults(c, items, depth + 1)
        invariant snapshot + NormalItems(c, items[i..]) == NormalItems(c, items)
      {
        ItemsStep(c, items, i, i == 0, depth + 1);
        if i > 0 {
          var refusal := Consume(1);
          if refusal.Some? {
            BytesRefused(c, faults, goal);
            Refuses<seq<Value>>(c, faults, goal, faults, goal, Bytes);
            return Err(refusal.value);
          }
        }
        ghost var spent := Plus(Spent(), TreeCost(c, items[i]));
        var child := Visit(items[i], depth + 1);
        Undecided(c, Faults(c, items[i], depth + 1), spent, child);
        if child.Err? {
          Refuses<seq<Value>>(c, Faults(c, items[i], depth + 1), spent, faults, goal, child.error);
          return Err(child.error);
        }
        Regroup(snapshot, child.value, NormalItems(c, items[i + 1..]));
        snapshot := snapshot + [child.value];
      }
      assert items[|items|..] == [];
      ItemsDone(c, depth + 1);
      Accepts(c, faults, goal, snapshot);
      return Ok(snapshot);
    }

    /** All keys first, then the values. */
    method VisitEntries(entries: seq<Entry>, depth: nat) returns (result: Result<seq<Entry>, Refusal>)
      requires Valid()
      modifies this
      ensures var cost := Plus(Plus(Cost(0, 2, 0), KeysCost(c, entries, SortRounds(entries))), ValuesCost(c, entries, true));
              var faults := MappingFaults(c, entries) + KeysFaults(c, entries, depth + 1) + ValuesFaults(c, entries, depth + 1);
              && Decided(c, faults, Plus(old(Spent()), cost), result)
              && (result.Ok? ==> Valid() && Spent() == Plus(old(Spent()), cost) && result.value == NormalEntries(c, entries))
      decreases entries, 1
    {
      hide KeysFaults, ValuesFaults, KeysCost, ValuesCost, NormalKeys, NormalEntries, SortRounds, OneFamily, DistinctNormal;
      if |entries| > c.entries {
        return Err(Entries);
      }
      var ok := ValidateFamilies(entries);
      if !ok {
        return Err(Malformed);
      }
      var refusal := Consume(2);
      if refusal.Some? {
        return Err(refusal.value);
      }
      var keys := VisitKeys(entries, depth);
      if keys.Err? {
        return Err(keys.error);
      }
      result := VisitValues(entries, keys.value, depth);
    }

    method VisitKeys(entries: seq<Entry>, depth: nat) returns (result: Result<seq<Key>, Refusal>)
      requires Valid()
      modifies this
      ensures var cost := KeysCost(c, entries, SortRounds(entries));
              var faults := KeysFaults(c, entries, depth + 1)
                            + (if DistinctNormal(NormalKeys(c, entries)) then {} else {Malformed});
              && Decided(c, faults, Plus(old(Spent()), cost), result)
              && (result.Ok? ==> Valid() && Spent() == Plus(old(Spent()), cost) && result.value == NormalKeys(c, entries))
    {
      hide KeyFaults, KeyWidth, KeyNodes, NormalKey, KeysFaults, KeysCost, NormalKeys, BitLength, DistinctNormal, KeyTaken;
      var rounds := SortRounds(entries);
      ghost var goal := Plus(Spent(), KeysCost(c, entries, rounds));
      var keys: seq<Key> := [];
      assert DistinctNormal(keys) by {
        NoneTaken(keys);
      }
      for i := 0 to |entries|
        invariant Valid()
        invariant Plus(Spent(), KeysCost(c, entries[i..], rounds)) == goal
        invariant KeysFaults(c, entries[i..], depth + 1) == KeysFaults(c, entries, depth + 1)
        invariant keys + NormalKeys(c, entries[i..]) == NormalKeys(c, entries)
        invariant DistinctNormal(keys)
      {
        KeysStep(c, entries, i, rounds, depth + 1);
        var key := VisitKey(entries[i].key, depth + 1);
        if key.Err? {
          return Err(key.error);
        }
        var refusal := ConsumeSortWork(key.value.1, rounds);
        if refusal.Some? {
          return Err(refusal.value);
        }
        if KeyTaken(keys, key.value.0) {
          TakenRepeats(keys, NormalKeys(c, entries[i..]));
          return Err(Malformed);
        }
        DistinctSnoc(keys, key.value.0);
        keys := keys + [key.value.0];
      }
      assert entries[|entries|..] == [];
      ItemsDone(c, depth + 1);
      assert keys == NormalKeys(c, entries);
      assert KeysCost(c, [], rounds) == Cost(0, 0, 0);
      assert Spent() == goal;
      assert KeysFaults(c, entries, depth + 1) == {};
      return Ok(keys);
    }

    method VisitValues(entries: seq<Entry>, keys: seq<Key>, depth: nat) returns (result: Result<seq<Entry>, Refusal>)
      requires Valid() && keys == NormalKeys(c, entries)
      modifies this
      ensures var cost := ValuesCost(c, entries, true);
              && Decided(c, ValuesFaults(c, entries, depth + 1), Plus(old(Spent()), cost), result)
              && (result.Ok? ==> Valid() && Spent() == Plus(old(Spent()), cost) && result.value == NormalEntries(c, entries))
      decreases entries, 0
    {
      hide Faults, TreeCost, Normal, ItemsFaults, ValuesFaults, ItemsCost, ValuesCost, NormalItems, NormalEntries,
        Decided, Justified, NormalKey;
      ghost var goal := Plus(Spent(), ValuesCost(c, entries, true));
      ghost var faults := ValuesFaults(c, entries, depth + 1);
      var snapshot: seq<Entry> := [];
      NormalKeysAt(c, entries);
      hide NormalKeys;
      for i := 0 to |entries|
        invariant Valid()
        invariant Plus(Spent(), ValuesCost(c, entries[i..], i == 0)) == goal
        invariant ValuesFaults(c, entries[i..], depth + 1) == ValuesFaults(c, entries, depth + 1)
        invariant snapshot + NormalEntries(c, entries[i..]) == NormalEntries(c, entries)
      {
        ValuesStep(c, entries, i, i == 0, depth + 1);
        ghost var spent := Plus(Spent(), Plus(Cost(0, Comma(i == 0) + 1, 0), TreeCost(c, entries[i].value)));
        var child := VisitValue(entries[i], i == 0, depth + 1);
        Undecided(c, Faults(c, entries[i].value, depth + 1), spent, child);
        if child.Err? {
          Refuses<seq<Entry>>(c, Faults(c, entries[i].value, depth + 1), spent, faults, goal, child.error);
          return Err(child.error);
        }
        Regroup(snapshot, Entry(keys[i], child.value), NormalEntries(c, entries[i + 1..]));
        snapshot := snapshot + [Entry(keys[i], child.value)];
      }
      assert entries[|entries|..] == [];
      ItemsDone(c, depth + 1);
      Accepts(c, faults, goal, snapshot);
      return Ok(snapshot);
    }
  }

  lemma NoneTaken(keys: seq<Key>)
    requires keys == []
    ensures DistinctNormal(keys)
  {
  }

  lemma DistinctSnoc(keys: seq<Key>, k: Key)
    requires DistinctNormal(keys) && !KeyTaken(keys, k)
    ensures DistinctNormal(keys + [k])
  {
  }

  lemma TakenRepeats(keys: seq<Key>, rest: seq<Key>)
    requires rest != [] && KeyTaken(keys, rest[0])
    ensures !DistinctNormal(keys + rest)
  {
    var i :| 0 <= i < |keys| && SameKey(keys[i], rest[0]);
    assert (keys + rest)[i] == keys[i] && (keys + rest)[|keys|] == rest[0];
  }

  lemma {:induction false} NormalKeysAt(c: Ceilings, entries: seq<Entry>)
    ensures |NormalKeys(c, entries)| == |entries|
    ensures forall i :: 0 <= i < |entries| ==> NormalKeys(c, entries)[i] == NormalKey(c, entries[i].key)
  {
    if entries != [] {
      NormalKeysAt(c, entries[1..]);
    }
  }
}
