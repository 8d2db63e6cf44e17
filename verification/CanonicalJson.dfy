/**
 The trees the program hashes and stores, and their JSON text: `canonical_json` in `contracts.py` prints them
 compactly, `atomic_write_json` in `persistence.py` prints them with an indent of two. Both sort object keys.
 */
module CanonicalJson {
  import opened Money
  import opened PythonText
  import opened Wrappers

  /** What `isinstance` says of a mapping key, for `validate_mapping_key_families`. */
  datatype Family = StringFamily | NumberFamily | NullFamily | NoFamily

  /**
   A dictionary key. A finite float is its `repr`, with the number it stands for; an enum member carries the
   type it is mixed with and its value.
   */
  datatype Key =
    | StrKey(text: Text)
    | IntKey(n: int)
    | BoolKey(b: bool)
    | NullKey
    | FloatKey(repr: string, number: real)
    | NonFiniteKey
    | DecimalKey(amount: Decimal)
    | EnumKey(mixin: Family, member: Key)
    | OtherKey

  datatype Entry = Entry(key: Key, value: Value)

  /** A Python value. A dictionary is its entries in insertion order; a finite float is its `repr`. */
  datatype Value =
    | Null
    | Bool(b: bool)
    | Int(n: int)
    | Float(repr: string)
    | NonFiniteFloat
    | Str(text: Text)
    | Dec(amount: Decimal)
    | EnumMember(member: Value)
    | List(items: seq<Value>)
    | Tuple(items: seq<Value>)
    | Dict(entries: seq<Entry>)
    | Other

  // ---------------------------------------------------------------------------
  // The JSON text of a tree
  // ---------------------------------------------------------------------------

  function UnicodeEscape(u: int): (t: string)
    requires 0 <= u < 0x10000
    ensures |t| == 6
  {
    ['\\', 'u', HexChar(u / 16 / 16 / 16), HexChar(u / 16 / 16 % 16), HexChar(u / 16 % 16), HexChar(u % 16)]
  }

  /** The letter of a two-character escape, section 7 of RFC 8259. */
  function EscapeLetter(c: Code): Option<char> {
    if c == 0x22 then Some('"')
    else if c == 0x5C then Some('\\')
    else if c == 0x08 then Some('b')
    else if c == 0x0C then Some('f')
    else if c == 0x0A then Some('n')
    else if c == 0x0D then Some('r')
    else if c == 0x09 then Some('t')
    else None
  }

  /** How `ensure_ascii` prints one code point: a surrogate pair above U+FFFF. */
  function Escape(c: Code): string {
    if EscapeLetter(c).Some? then ['\\', EscapeLetter(c).value]
    else if 0x20 <= c <= 0x7E then [c as char]
    else if c <= 0xFFFF then UnicodeEscape(c)
    else UnicodeEscape(HighHalf(c)) + UnicodeEscape(LowHalf(c))
  }

  function EscapeText(s: Text): string {
    if s == [] then "" else Escape(s[0]) + EscapeText(s[1..])
  }

  function Quote(s: Text): string {
    "\"" + EscapeText(s) + "\""
  }

  datatype Style = Compact | Indented

  function Spaces(n: nat): string {
    seq(n, _ => ' ')
  }

  /** What separates the parts of a container at a nesting level. */
  function Gap(style: Style, level: nat): string {
    if style.Compact? then "" else "\n" + Spaces(2 * level)
  }

  function Colon(style: Style): string {
    if style.Compact? then ":" else ": "
  }

  /** The value of an enum key is of the type the enum is mixed with: the key then sorts and prints as that value. */
  predicate Carries(mixin: Family, member: Key) {
    (mixin.StringFamily? && member.StrKey?) || (mixin.NumberFamily? && (member.IntKey? || member.FloatKey?))
  }

  /** A key without the enum around it. */
  function BareKey(k: Key): Key {
    if k.EnumKey? && Carries(k.mixin, k.member) then k.member else k
  }

  function KeyText(k: Key): string {
    match BareKey(k)
    case StrKey(s) => Quote(s)
    case IntKey(n) => "\"" + IntText(n) + "\""
    case BoolKey(b) => if b then "\"true\"" else "\"false\""
    case NullKey => "\"null\""
    case FloatKey(repr, _) => "\"" + repr + "\""
    case _ => ""
  }

  /** `json.dumps` of a tree whose entries are printed in the given order. */
  function Print(style: Style, level: nat, v: Value): string
    decreases v
  {
    match v
    case Null => "null"
    case Bool(b) => if b then "true" else "false"
    case Int(n) => IntText(n)
    case Float(repr) => repr
    case Str(s) => Quote(s)
    case List(items) => if items == [] then "[]" else "[" + PrintItems(style, level + 1, items) + Gap(style, level) + "]"
    case Tuple(items) => if items == [] then "[]" else "[" + PrintItems(style, level + 1, items) + Gap(style, level) + "]"
    case Dict(entries) =>
      if entries == [] then "{}" else "{" + PrintEntries(style, level + 1, entries) + Gap(style, level) + "}"
    case _ => ""
  }

  function PrintItems(style: Style, level: nat, items: seq<Value>): string
    decreases items
  {
    if items == [] then ""
    else if |items| == 1 then Gap(style, level) + Print(style, level, items[0])
    else Gap(style, level) + Print(style, level, items[0]) + "," + PrintItems(style, level, items[1..])
  }

  function PrintEntries(style: Style, level: nat, entries: seq<Entry>): string
    decreases entries
  {
    if entries == [] then ""
    else if |entries| == 1 then Gap(style, level) + PrintEntry(style, level, entries[0])
    else Gap(style, level) + PrintEntry(style, level, entries[0]) + "," + PrintEntries(style, level, entries[1..])
  }

  function PrintEntry(style: Style, level: nat, e: Entry): string
    decreases e
  {
    KeyText(e.key) + Colon(style) + Print(style, level, e.value)
  }

  // ---------------------------------------------------------------------------
  // Normal forms
  // ---------------------------------------------------------------------------

  function Codes(s: string): Text {
    seq(|s|, i requires 0 <= i < |s| => CharCode(s[i]))
  }

  function CharCode(c: char): Code {
    c as int
  }

  /** `_enum_safe`: tuples become lists, enum members their values, decimals their canonical text. */
  function EnumSafe(v: Value): Value
    decreases v
  {
    match v
    case List(items) => List(EnumSafeItems(items))
    case Tuple(items) => List(EnumSafeItems(items))
    case Dict(entries) => Dict(EnumSafeEntries(entries))
    case EnumMember(m) => m
    case Dec(d) => if MoneyText(d).Ok? then Str(Codes(MoneyText(d).value)) else v
    case _ => v
  }

  function EnumSafeItems(items: seq<Value>): (r: seq<Value>)
    decreases items
  {
    if items == [] then [] else [EnumSafe(items[0])] + EnumSafeItems(items[1..])
  }

  function EnumSafeEntries(entries: seq<Entry>): (r: seq<Entry>)
    decreases entries
  {
    if entries == [] then []
    else [EnumSafeEntry(entries[0])] + EnumSafeEntries(entries[1..])
  }

  function EnumSafeEntry(e: Entry): Entry
    decreases e
  {
    Entry(e.key, EnumSafe(e.value))
  }

  /** Python's order on strings: by code point, a prefix first. */
  predicate TextLess(a: Text, b: Text) {
    if b == [] then false
    else if a == [] then true
    else a[0] < b[0] || (a[0] == b[0] && TextLess(a[1..], b[1..]))
  }

  /** The number a key compares as. */
  function KeyNumber(k: Key): Option<real> {
    match BareKey(k)
    case IntKey(n) => Some(n as real)
    case BoolKey(b) => Some(if b then 1.0 else 0.0)
    case FloatKey(_, number) => Some(number)
    case _ => None
  }

  predicate EntryLess(a: Entry, b: Entry) {
    || (BareKey(a.key).StrKey? && BareKey(b.key).StrKey? && TextLess(BareKey(a.key).text, BareKey(b.key).text))
    || (KeyNumber(a.key).Some? && KeyNumber(b.key).Some? && KeyNumber(a.key).value < KeyNumber(b.key).value)
  }

  function Insert(e: Entry, es: seq<Entry>): seq<Entry> {
    if es == [] || EntryLess(e, es[0]) then [e] + es else [es[0]] + Insert(e, es[1..])
  }

  function Sort(es: seq<Entry>): seq<Entry> {
    if es == [] then [] else Insert(es[0], Sort(es[1..]))
  }

  /** `sort_keys`: every dictionary's entries in key order. */
  function SortTree(v: Value): Value
    decreases v
  {
    match v
    case List(items) => List(SortItems(items))
    case Tuple(items) => Tuple(SortItems(items))
    case Dict(entries) => Dict(Sort(SortEntries(entries)))
    case _ => v
  }

  function SortItems(items: seq<Value>): seq<Value>
    decreases items
  {
    if items == [] then [] else [SortTree(items[0])] + SortItems(items[1..])
  }

  function SortEntries(entries: seq<Entry>): seq<Entry>
    decreases entries
  {
    if entries == [] then []
    else [SortEntry(entries[0])] + SortEntries(entries[1..])
  }

  function SortEntry(e: Entry): Entry
    decreases e
  {
    Entry(e.key, SortTree(e.value))
  }

  /** The text that is hashed. */
  function CanonicalText(v: Value): string {
    Print(Compact, 0, SortTree(EnumSafe(v)))
  }

  /** The text that is stored. */
  function StateText(v: Value): string {
    Print(Indented, 0, SortTree(v))
  }
}
