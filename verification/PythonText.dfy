/** Text as the program handles it: strings of code points, and decimal and hexadecimal digits. */
module PythonText {

  /** A code point. A Python string may also hold lone surrogates. */
  type Code = c: int | 0 <= c < 0x11_0000

  type Text = seq<Code>

  predicate High(c: Code) { 0xD800 <= c < 0xDC00 }

  predicate Low(c: Code) { 0xDC00 <= c < 0xE000 }

  /** The code point that a high and a low surrogate spell together. */
  function Combine(high: Code, low: Code): Code
    requires High(high) && Low(low)
  {
    0x10000 + (high - 0xD800) * 0x400 + (low - 0xDC00)
  }

  /** The surrogates that spell a code point above U+FFFF. */
  function HighHalf(c: Code): (u: Code)
    requires c > 0xFFFF
    ensures High(u)
  {
    0xD800 + (c - 0x10000) / 0x400
  }

  function LowHalf(c: Code): (u: Code)
    requires c > 0xFFFF
    ensures Low(u)
  {
    0xDC00 + (c - 0x10000) % 0x400
  }

  lemma HalvesCombine(c: Code)
    requires c > 0xFFFF
    ensures Combine(HighHalf(c), LowHalf(c)) == c
  {
  }

  /** No high surrogate stands directly before a low one. */
  ghost predicate NoSplitPair(s: Text) {
    forall i :: 0 <= i < |s| - 1 ==> !(High(s[i]) && Low(s[i + 1]))
  }

  /** `str.isspace` for one character. */
  predicate IsSpace(c: char) {
    || '\U{9}' <= c <= '\U{D}'
    || '\U{1C}' <= c <= '\U{20}'
    || c == '\U{85}' || c == '\U{A0}' || c == '\U{1680}'
    || '\U{2000}' <= c <= '\U{200A}'
    || c == '\U{2028}' || c == '\U{2029}' || c == '\U{202F}' || c == '\U{205F}' || c == '\U{3000}'
  }

  predicate SpaceCode(c: Code) {
    !High(c) && !Low(c) && IsSpace(c as char)
  }

  /** Non-empty and unchanged by `str.strip`. */
  predicate Trimmed(t: Text) {
    t != [] && !SpaceCode(t[0]) && !SpaceCode(t[|t| - 1])
  }

  predicate IsDigit(c: char) { '0' <= c <= '9' }

  ghost predicate AllDigits(s: string) {
    forall i :: 0 <= i < |s| ==> IsDigit(s[i])
  }

  function DigitChar(d: int): char
    requires 0 <= d < 10
  {
    (d + '0' as int) as char
  }

  function NatText(n: nat): string {
    if n < 10 then [DigitChar(n)] else NatText(n / 10) + [DigitChar(n % 10)]
  }

  /** `int.__repr__`. */
  function IntText(n: int): string {
    if n < 0 then "-" + NatText(-n) else NatText(n)
  }

  /** The number that a run of decimal digits spells. */
  function DigitsValue(s: string): int {
    if s == "" then 0
    else DigitsValue(s[..|s| - 1]) * 10 + (s[|s| - 1] as int - '0' as int)
  }

  /** n * 10^k. */
  function Shift(n: int, k: nat): (m: int)
    ensures n >= 0 ==> m >= 0
  {
    if k == 0 then n else 10 * Shift(n, k - 1)
  }

  function Pow10(n: nat): int {
    Shift(1, n)
  }

  lemma {:induction false} NatTextSpells(n: nat)
    ensures AllDigits(NatText(n)) && NatText(n) != ""
    ensures DigitsValue(NatText(n)) == n
    ensures NatText(n)[0] == '0' ==> n == 0
  {
    var t := NatText(n);
    if n >= 10 {
      NatTextSpells(n / 10);
      assert t[..|t| - 1] == NatText(n / 10);
      assert t[0] == NatText(n / 10)[0];
    } else {
      assert t[..0] == "";
    }
  }

  /** Decimal length is logarithmic: a text of k digits spells a number below 10^k and no smaller than 10^(k-1). */
  lemma {:induction false} NatTextLength(n: nat)
    ensures n < Pow10(|NatText(n)|)
    ensures n > 0 ==> Pow10(|NatText(n)| - 1) <= n
  {
    if n >= 10 {
      NatTextLength(n / 10);
      var k := |NatText(n / 10)|;
      assert |NatText(n)| == k + 1;
    }
  }

  lemma {:induction false} Pow10Monotone(a: nat, b: nat)
    requires a <= b
    ensures 0 < Pow10(a) <= Pow10(b)
    decreases b
  {
    if a < b {
      Pow10Monotone(a, b - 1);
    } else if a > 0 {
      Pow10Monotone(a - 1, b - 1);
    }
  }

  lemma {:induction false} ShiftTwice(n: int, a: nat, b: nat)
    ensures Shift(n, a + b) == Shift(Shift(n, a), b)
  {
    if b > 0 {
      ShiftTwice(n, a, b - 1);
    }
  }

  lemma {:induction false} ShiftInjective(m: int, n: int, k: nat)
    ensures Shift(m, k) == Shift(n, k) <==> m == n
    ensures Shift(0, k) == 0 && (n > 0 ==> Shift(n, k) > 0)
  {
    if k > 0 {
      ShiftInjective(m, n, k - 1);
    }
  }

  function HexChar(d: int): char
    requires 0 <= d < 16
  {
    if d < 10 then DigitChar(d) else (d - 10 + 'a' as int) as char
  }

  predicate IsHex(c: char) {
    '0' <= c <= '9' || 'a' <= c <= 'f' || 'A' <= c <= 'F'
  }

  function HexValue(c: char): (d: int)
    requires IsHex(c)
    ensures 0 <= d < 16
  {
    if '0' <= c <= '9' then c as int - '0' as int
    else if 'a' <= c <= 'f' then c as int - 'a' as int + 10
    else c as int - 'A' as int + 10
  }
}
