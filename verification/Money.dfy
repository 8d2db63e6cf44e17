/**
 Decimal money and its canonical text (`money.py`), and the bounded form that computes the same
 text without first formatting an attacker-sized exponent (`_bounded_money_text` in `contracts.py`).
 */
module Money {
  import opened PythonText
  import opened Wrappers

  /** A `decimal.Decimal`: a sign, the coefficient's digits without leading zeros, and an exponent. */
  datatype Decimal = Finite(negative: bool, digits: string, exponent: int) | NonFinite

  ghost predicate WellFormed(d: Decimal) {
    d.Finite? ==>
      && d.digits != "" && AllDigits(d.digits)
      && (d.digits[0] == '0' ==> d.digits == "0")
  }

  predicate IsZero(d: Decimal)
    requires d.Finite?
  {
    d.digits == "0"
  }

  datatype MoneyError = NotFinite | Negative | TooLong

  function Money(d: Decimal): Result<Decimal, MoneyError> {
    if d.NonFinite? then Err(NotFinite)
    else if d.negative && !IsZero(d) then Err(Negative)
    else Ok(d)
  }

  function Zeros(n: nat): (s: string)
    ensures |s| == n && forall i :: 0 <= i < n ==> s[i] == '0'
  {
    seq(n, _ => '0')
  }

  /** `format(value, "f")`. */
  function FixedText(d: Decimal): string
    requires d.Finite?
  {
    var exponent := if IsZero(d) && d.exponent > 0 then 0 else d.exponent;
    var point := |d.digits| + exponent;
    (if d.negative then "-" else "") +
    if point < 0 then "0." + Zeros(-point) + d.digits
    else if point > |d.digits| then d.digits + Zeros(exponent)
    else
      (if point == 0 then "0" else d.digits[..point]) +
      (if point == |d.digits| then "" else "." + d.digits[point..])
  }

  function RStrip(s: string, c: char): string {
    if s != "" && s[|s| - 1] == c then RStrip(s[..|s| - 1], c) else s
  }

  /** `text.rstrip("0").rstrip(".")`. */
  function StripFraction(text: string): string {
    RStrip(RStrip(text, '0'), '.')
  }

  /** `money_text`. */
  function MoneyText(d: Decimal): Result<string, MoneyError> {
    match Money(d)
    case Err(e) => Err(e)
    case Ok(result) =>
      var text := FixedText(result);
      var stripped := if '.' in text then StripFraction(text) else text;
      Ok(if stripped == "" then "0" else stripped)
  }

  function TrailingZeros(digits: string): (n: nat)
    ensures n <= |digits|
    ensures forall i :: |digits| - n <= i < |digits| ==> digits[i] == '0'
    ensures n < |digits| ==> digits[|digits| - n - 1] != '0'
  {
    if digits != "" && digits[|digits| - 1] == '0' then 1 + TrailingZeros(digits[..|digits| - 1]) else 0
  }

  method CountTrailingZeros(digits: string) returns (n: nat)
    ensures n == TrailingZeros(digits)
  {
    n := 0;
    var i := |digits|;
    while i > 0
      invariant 0 <= i <= |digits| && n == |digits| - i
      invariant TrailingZeros(digits) == n + TrailingZeros(digits[..i])
    {
      if digits[i - 1] != '0' {
        break;
      }
      assert digits[..i][..i - 1] == digits[..i - 1];
      n, i := n + 1, i - 1;
    }
  }

  /** `_canonical_money_components`: how many digits are kept, and the exponent they then have. */
  function Components(d: Decimal): (r: (nat, int))
    requires d.Finite?
    ensures r.0 <= |d.digits|
  {
    if d.exponent >= 0 then (|d.digits|, d.exponent)
    else
      var zeros := TrailingZeros(d.digits);
      var removed := if -d.exponent < zeros then -d.exponent else zeros;
      (|d.digits| - removed, d.exponent + removed)
  }

  /** `_canonical_money_text_length`. */
  function TextLength(retained: nat, exponent: int): int {
    if exponent >= 0 then retained + exponent
    else if -exponent >= retained then 2 - exponent
    else retained + 1
  }

  /** `_bounded_money_text`. */
  function BoundedMoneyText(d: Decimal, limit: nat): Result<string, MoneyError> {
    match Money(d)
    case Err(e) => Err(e)
    case Ok(result) =>
      if IsZero(result) then Ok("0")
      else if |result.digits| > limit then Err(TooLong)
      else
        var (retained, exponent) := Components(result);
        if TextLength(retained, exponent) > limit then Err(TooLong)
        else
          var coefficient := result.digits[..retained];
          if exponent >= 0 then Ok(coefficient + Zeros(exponent))
          else if -exponent >= retained then Ok("0." + Zeros(-exponent - retained) + coefficient)
          else Ok(coefficient[..retained + exponent] + "." + coefficient[retained + exponent..])
  }

  // ---------------------------------------------------------------------------
  // What a money text means
  // ---------------------------------------------------------------------------

  /** The number n / 10^scale, scaled down as far as it goes. */
  datatype Scaled = Scaled(n: nat, scale: nat)

  ghost predicate Reduced(x: Scaled) {
    x.scale > 0 ==> x.n % 10 != 0
  }

  /** The plain decimal text of n / 10^scale. */
  function Spell(x: Scaled): string {
    var t := NatText(x.n);
    if x.scale == 0 then t
    else if x.scale >= |t| then "0." + Zeros(x.scale - |t|) + t
    else t[..|t| - x.scale] + "." + t[|t| - x.scale..]
  }

  /** Reading a plain decimal text back. */
  function Read(text: string): (int, int) {
    if '.' in text then
      var p := PointIndex(text);
      (DigitsValue(text[..p] + text[p + 1..]), |text| - p - 1)
    else (DigitsValue(text), 0)
  }

  function PointIndex(text: string): (p: nat)
    requires '.' in text
    ensures p < |text| && text[p] == '.' && forall i :: 0 <= i < p ==> text[i] != '.'
  {
    if text[0] == '.' then 0 else 1 + PointIndex(text[1..])
  }

  /** The value of a decimal, as a reduced scaled integer. */
  ghost function Value(d: Decimal): Scaled
    requires d.Finite? && WellFormed(d)
  {
    if IsZero(d) then Scaled(0, 0)
    else
      var (retained, exponent) := Components(d);
      var n := DigitsNat(d.digits[..retained]);
      if exponent >= 0 then Scaled(Shift(n, exponent), 0) else Scaled(n, -exponent)
  }

  ghost function DigitsNat(s: string): (n: nat)
    requires AllDigits(s)
    ensures n == DigitsValue(s)
  {
    if s == "" then 0
    else
      assert IsDigit(s[|s| - 1]);
      DigitsNat(s[..|s| - 1]) * 10 + (s[|s| - 1] as int - '0' as int)
  }

  /** Two decimals denote the same number: equal coefficients once both have the smaller exponent. */
  ghost predicate SameNumber(a: Decimal, b: Decimal)
    requires a.Finite? && b.Finite?
  {
    var low := if a.exponent < b.exponent then a.exponent else b.exponent;
    Shift(DigitsValue(a.digits), a.exponent - low) == Shift(DigitsValue(b.digits), b.exponent - low)
  }

  lemma {:induction false} DigitsValueAppend(a: string, b: string)
    requires AllDigits(b)
    ensures DigitsValue(a + b) == Shift(DigitsValue(a), |b|) + DigitsValue(b)
  {
    if b == "" {
      assert a + b == a;
    } else {
      var m := |b| - 1;
      assert (a + b)[..|a + b| - 1] == a + b[..m];
      DigitsValueAppend(a, b[..m]);
    }
  }

  lemma {:induction false} ZerosValue(k: nat)
    ensures DigitsValue(Zeros(k)) == 0
  {
    if k > 0 {
      assert Zeros(k)[..k - 1] == Zeros(k - 1);
      ZerosValue(k - 1);
    }
  }

  /** Digits without a leading zero are the decimal text of what they spell. */
  lemma {:induction false} SpelledDigits(s: string)
    requires s != "" && AllDigits(s) && (s[0] == '0' ==> s == "0")
    ensures DigitsValue(s) >= 0 && NatText(DigitsValue(s)) == s
    ensures s != "0" ==> DigitsValue(s) > 0
  {
    var last := s[|s| - 1];
    assert IsDigit(last);
    assert DigitChar(last as int - '0' as int) == last;
    if |s| == 1 {
      assert s[..0] == "";
      assert s == [last];
    } else {
      SpelledDigits(s[..|s| - 1]);
      assert s[..|s| - 1] != "0";
      var n := DigitsValue(s[..|s| - 1]);
      assert (n * 10 + (last as int - '0' as int)) / 10 == n;
      assert s == s[..|s| - 1] + [last];
    }
  }

  lemma {:induction false} NatTextShift(n: nat, k: nat)
    requires n > 0
    ensures Shift(n, k) > 0 && NatText(Shift(n, k)) == NatText(n) + Zeros(k)
  {
    if k == 0 {
      assert NatText(n) + Zeros(0) == NatText(n);
    } else {
      NatTextShift(n, k - 1);
      assert NatText(10 * Shift(n, k - 1)) == NatText(Shift(n, k - 1)) + "0";
      assert Zeros(k) == Zeros(k - 1) + "0";
    }
  }

  lemma {:induction false} RStripZeros(a: string, k: nat)
    requires a == "" || a[|a| - 1] != '0'
    ensures RStrip(a + Zeros(k), '0') == a
  {
    if k == 0 {
      assert a + Zeros(0) == a;
    } else {
      RStripZeros(a, k - 1);
      assert (a + Zeros(k))[..|a| + k - 1] == a + Zeros(k - 1);
    }
  }

  /** What the retained digits are: the coefficient up to its strippable zeros. */
  lemma RetainedDigits(d: Decimal)
    requires d.Finite? && WellFormed(d) && !IsZero(d)
    ensures var (retained, exponent) := Components(d);
            && 0 < retained
            && d.digits == d.digits[..retained] + Zeros(|d.digits| - retained)
            && exponent == d.exponent + |d.digits| - retained
            && AllDigits(d.digits[..retained])
            && (exponent < 0 ==> d.digits[retained - 1] != '0')
            && NatText(DigitsNat(d.digits[..retained])) == d.digits[..retained]
            && DigitsNat(d.digits[..retained]) > 0
            && (exponent < 0 ==> DigitsNat(d.digits[..retained]) % 10 != 0)
  {
    var (retained, exponent) := Components(d);
    var kept := d.digits[..retained];
    assert d.digits[0] != '0';
    assert kept[0] == d.digits[0];
    SpelledDigits(kept);
    assert kept != "0";
  }

  /** Both texts spell the value: the fast form needs no formatting, the slow one strips its zeros. */
  lemma TextSpellsValue(d: Decimal)
    requires d.Finite? && WellFormed(d) && !d.negative
    ensures MoneyText(d) == Ok(Spell(Value(d)))
    ensures Reduced(Value(d))
  {
    if IsZero(d) {
      ZeroText(d);
    } else {
      RetainedDigits(d);
      if d.exponent >= 0 {
        WholeText(d);
      } else {
        StrippedText(d);
      }
    }
  }

  lemma WholeText(d: Decimal)
    requires d.Finite? && WellFormed(d) && !d.negative && !IsZero(d) && d.exponent >= 0
    ensures MoneyText(d) == Ok(d.digits + Zeros(d.exponent))
    ensures Spell(Value(d)) == d.digits + Zeros(d.exponent)
  {
    WholeFixedText(d);
    WholeSpelling(d);
  }

  lemma WholeSpelling(d: Decimal)
    requires d.Finite? && WellFormed(d) && !IsZero(d) && d.exponent >= 0
    ensures Spell(Value(d)) == d.digits + Zeros(d.exponent)
  {
    SpelledDigits(d.digits);
    NatTextShift(DigitsNat(d.digits), d.exponent);
    assert d.digits[..|d.digits|] == d.digits;
  }

  lemma WholeFixedText(d: Decimal)
    requires d.Finite? && WellFormed(d) && !d.negative && !IsZero(d) && d.exponent >= 0
    ensures FixedText(d) == d.digits + Zeros(d.exponent)
    ensures '.' !in FixedText(d) && FixedText(d) != ""
  {
  }

  /** Stripping removes exactly the zeros after the last significant digit of a fraction. */
  lemma StripsFraction(sign: string, whole: string, frac: string, k: nat)
    requires sign == "" || sign == "-"
    requires whole != "" && AllDigits(whole) && AllDigits(frac)
    requires frac == "" || frac[|frac| - 1] != '0'
    ensures var text := sign + whole + "." + (frac + Zeros(k));
            && '.' in text
            && StripFraction(text) == if frac == "" then sign + whole else sign + whole + "." + frac
  {
    var text := sign + whole + "." + (frac + Zeros(k));
    var body := sign + whole + "." + frac;
    assert text == body + Zeros(k);
    assert text[|sign| + |whole|] == '.';
    RStripZeros(body, k);
    if frac == "" {
      assert body[|body| - 1] == '.' && body[..|body| - 1] == sign + whole;
      assert RStrip(body, '.') == RStrip(sign + whole, '.');
      assert (sign + whole)[|sign + whole| - 1] == whole[|whole| - 1];
      assert IsDigit(whole[|whole| - 1]);
    } else {
      assert body[|body| - 1] == frac[|frac| - 1];
      assert IsDigit(frac[|frac| - 1]);
    }
  }

  lemma ZeroText(d: Decimal)
    requires d.Finite? && IsZero(d)
    ensures MoneyText(d) == Ok(if d.negative then "-0" else "0")
  {
    var sign := if d.negative then "-" else "";
    if d.exponent < 0 {
      var k := -d.exponent;
      if k == 1 {
        assert FixedText(d) == sign + ("0" + ("." + d.digits[0..]));
        assert d.digits[0..] == "0" == Zeros(1);
      } else {
        assert FixedText(d) == sign + ("0." + Zeros(k - 1) + "0");
        assert Zeros(k - 1) + "0" == Zeros(k);
      }
      assert FixedText(d) == sign + "0" + "." + ("" + Zeros(k));
      assert sign + "0" == if d.negative then "-0" else "0";
      StripsFraction(sign, "0", "", k);
    } else {
      assert d.digits[..1] == "0";
      assert FixedText(d) == sign + ("0" + "");
      assert FixedText(d) == sign + "0";
      assert '.' !in FixedText(d);
      assert sign + "0" == if d.negative then "-0" else "0";
    }
  }

  /** Where the point goes among the retained digits, with the zeros that stripping removes. */
  lemma StrippedText(d: Decimal)
    requires d.Finite? && WellFormed(d) && !d.negative && !IsZero(d) && d.exponent < 0
    ensures MoneyText(d) == Ok(Spell(Value(d)))
  {
    FractionSpelling(d);
    FractionFixedText(d);
    StrippedIsMoneyText(d, FixedText(d), Spell(Value(d)));
  }

  lemma StrippedIsMoneyText(d: Decimal, text: string, stripped: string)
    requires d.Finite? && !d.negative && FixedText(d) == text && '.' in text
    requires StripFraction(text) == stripped && stripped != ""
    ensures MoneyText(d) == Ok(stripped)
  {
  }

  lemma FractionTextForms(d: Decimal)
    requires d.Finite? && d.exponent < 0 && Components(d).0 > 0
    ensures var kept, point := d.digits[..Components(d).0], |d.digits| + d.exponent;
            && (point <= 0 ==> FractionText(d) == "0." + Zeros(-d.exponent - |d.digits|) + kept)
            && (0 < point ==> point <= |kept|)
            && (0 < point ==> FractionText(d) == if point == |kept| then kept else kept[..point] + "." + kept[point..])
  {
  }

  lemma FractionFixedText(d: Decimal)
    requires d.Finite? && WellFormed(d) && !d.negative && !IsZero(d) && d.exponent < 0
    ensures '.' in FixedText(d) && StripFraction(FixedText(d)) == FractionText(d)
  {
    hide FixedText, StripFraction, AllDigits, TrailingZeros, Zeros, FractionText, Components;
    RetainedDigits(d);
    FractionTextForms(d);
    var kept := d.digits[..Components(d).0];
    var dropped := |d.digits| - Components(d).0;
    if |d.digits| + d.exponent <= 0 {
      FractionBeforeDigits(d, kept, dropped);
    } else {
      FractionAmongDigits(d, kept, dropped);
    }
  }

  lemma FractionBeforeDigits(d: Decimal, kept: string, dropped: nat)
    requires d.Finite? && !d.negative && !IsZero(d) && d.digits == kept + Zeros(dropped)
    requires kept != "" && AllDigits(kept) && kept[|kept| - 1] != '0' && |d.digits| + d.exponent <= 0
    ensures '.' in FixedText(d)
    ensures StripFraction(FixedText(d)) == "0." + Zeros(-d.exponent - |d.digits|) + kept
  {
    SmallFixedText(d, kept, dropped);
    StripsPadded(-d.exponent - |d.digits|, kept, dropped);
  }

  lemma FractionAmongDigits(d: Decimal, kept: string, dropped: nat)
    requires d.Finite? && !d.negative && !IsZero(d) && d.digits == kept + Zeros(dropped)
    requires AllDigits(kept) && d.exponent < 0 && 0 < |d.digits| + d.exponent <= |kept|
    requires |d.digits| + d.exponent < |kept| ==> kept[|kept| - 1] != '0'
    ensures var point := |d.digits| + d.exponent;
            && '.' in FixedText(d)
            && StripFraction(FixedText(d)) ==
               if point == |kept| then kept else kept[..point] + "." + kept[point..]
  {
    LargeFixedText(d, kept, dropped);
    StripsInside(kept, |d.digits| + d.exponent, dropped);
  }

  /** The retained digits with the point among or before them. */
  function FractionText(d: Decimal): string
    requires d.Finite?
  {
    var (retained, exponent) := Components(d);
    var kept := d.digits[..retained];
    if exponent >= 0 then kept
    else if -exponent >= retained then "0." + Zeros(-exponent - retained) + kept
    else kept[..retained + exponent] + "." + kept[retained + exponent..]
  }

  lemma StripsPadded(pad: nat, kept: string, k: nat)
    requires kept != "" && AllDigits(kept) && kept[|kept| - 1] != '0'
    ensures var text := "" + "0" + "." + (Zeros(pad) + kept + Zeros(k));
            '.' in text && StripFraction(text) == "0." + Zeros(pad) + kept
  {
    var frac := Zeros(pad) + kept;
    assert frac[|frac| - 1] == kept[|kept| - 1];
    StripsFraction("", "0", frac, k);
    assert "" + "0" + "." + frac == "0." + Zeros(pad) + kept;
  }

  lemma StripsInside(kept: string, point: nat, k: nat)
    requires 0 < point <= |kept| && AllDigits(kept) && (point < |kept| ==> kept[|kept| - 1] != '0')
    ensures var text := "" + kept[..point] + "." + (kept[point..] + Zeros(k));
            && '.' in text
            && StripFraction(text) == if point == |kept| then kept else kept[..point] + "." + kept[point..]
  {
    StripsFraction("", kept[..point], kept[point..], k);
    assert "" + kept[..point] == kept[..point];
    assert point == |kept| ==> kept[..point] == kept;
  }

  /** The spelling of a value with a negative exponent, in terms of the retained digits. */
  lemma FractionSpelling(d: Decimal)
    requires d.Finite? && WellFormed(d) && !IsZero(d) && d.exponent < 0
    ensures Spell(Value(d)) == FractionText(d) != ""
    ensures Components(d).0 > 0
  {
    RetainedDigits(d);
  }

  lemma SmallFixedText(d: Decimal, kept: string, dropped: nat)
    requires d.Finite? && !d.negative && !IsZero(d) && d.digits == kept + Zeros(dropped)
    requires |d.digits| + d.exponent <= 0 && d.digits != ""
    ensures FixedText(d) ==
            "" + "0" + "." + (Zeros(-d.exponent - |d.digits|) + kept + Zeros(dropped))
  {
  }

  lemma LargeFixedText(d: Decimal, kept: string, dropped: nat)
    requires d.Finite? && !d.negative && !IsZero(d) && d.digits == kept + Zeros(dropped)
    requires d.exponent < 0 && 0 < |d.digits| + d.exponent <= |kept|
    ensures var point := |d.digits| + d.exponent;
            FixedText(d) == "" + kept[..point] + "." + (kept[point..] + Zeros(dropped))
  {
  }

  lemma BoundedSpells(d: Decimal, limit: nat)
    requires d.Finite? && WellFormed(d) && !d.negative && !IsZero(d)
    ensures TextLength(Components(d).0, Components(d).1) == |Spell(Value(d))|
    ensures BoundedMoneyText(d, limit) ==
            if |d.digits| <= limit && |Spell(Value(d))| <= limit then Ok(Spell(Value(d))) else Err(TooLong)
  {
    if d.exponent >= 0 {
      WholeSpelling(d);
      BoundedWhole(d, limit);
    } else {
      FractionSpelling(d);
      BoundedFraction(d, limit);
    }
  }

  lemma BoundedWhole(d: Decimal, limit: nat)
    requires d.Finite? && !d.negative && !IsZero(d) && d.exponent >= 0
    ensures TextLength(Components(d).0, Components(d).1) == |d.digits| + d.exponent
    ensures BoundedMoneyText(d, limit) ==
            if |d.digits| + d.exponent <= limit then Ok(d.digits + Zeros(d.exponent)) else Err(TooLong)
  {
    assert d.digits[..|d.digits|] == d.digits;
  }

  lemma BoundedFraction(d: Decimal, limit: nat)
    requires d.Finite? && !d.negative && !IsZero(d) && d.exponent < 0 && Components(d).0 > 0
    ensures TextLength(Components(d).0, Components(d).1) == |FractionText(d)|
    ensures BoundedMoneyText(d, limit) ==
            if |d.digits| <= limit && |FractionText(d)| <= limit then Ok(FractionText(d)) else Err(TooLong)
  {
    var kept := d.digits[..Components(d).0];
    assert kept + Zeros(0) == kept;
  }

  /**
   The bounded form refines the plain one on every decimal that `money` accepts: it accepts exactly zero and
   the decimals whose coefficient and text are within the limit, and then predicts the text's length.
   Its answer is `money_text` exactly when the sign bit is clear: on a negative zero the two texts differ.
   */
  lemma BoundedRefines(d: Decimal, limit: nat)
    requires WellFormed(d) && Money(d).Ok?
    ensures MoneyText(d).Ok?
    ensures BoundedMoneyText(d, limit).Ok? <==>
            IsZero(d) || (|d.digits| <= limit && |MoneyText(d).value| <= limit)
    ensures BoundedMoneyText(d, limit).Err? ==> BoundedMoneyText(d, limit).error == TooLong
    ensures BoundedMoneyText(d, limit).Ok? ==>
              (BoundedMoneyText(d, limit) == MoneyText(d) <==> !d.negative)
    ensures !IsZero(d) ==> TextLength(Components(d).0, Components(d).1) == |MoneyText(d).value|
  {
    if IsZero(d) {
      ZeroText(d);
    } else {
      TextSpellsValue(d);
      BoundedSpells(d, limit);
    }
  }

  lemma ReadParts(whole: string, frac: string)
    requires AllDigits(whole) && AllDigits(frac)
    ensures Read(whole) == (DigitsValue(whole), 0)
    ensures Read(whole + "." + frac) == (DigitsValue(whole + frac), |frac|)
  {
    var text := whole + "." + frac;
    assert forall i :: 0 <= i < |whole| ==> IsDigit(whole[i]) && text[i] == whole[i];
    assert text[|whole|] == '.';
    assert PointIndex(text) == |whole|;
    assert text[..|whole|] + text[|whole| + 1..] == whole + frac;
  }

  /** Reading the text of a scaled integer gives the integer and the scale back. */
  lemma ReadSpell(x: Scaled)
    ensures Read(Spell(x)) == (x.n, x.scale)
  {
    hide NatText, DigitsValue, Read;
    var t := NatText(x.n);
    NatTextSpells(x.n);
    if x.scale == 0 {
      ReadParts(t, "");
    } else if x.scale >= |t| {
      ReadPadded(t, x.scale - |t|);
    } else {
      ReadParts(t[..|t| - x.scale], t[|t| - x.scale..]);
      assert t[..|t| - x.scale] + t[|t| - x.scale..] == t;
    }
  }

  lemma ReadPadded(t: string, pad: nat)
    requires AllDigits(t)
    ensures Read("0." + Zeros(pad) + t) == (DigitsValue(t), pad + |t|)
  {
    PaddedText(t, pad);
    ReadParts(Zeros(1), Zeros(pad) + t);
    LeadingZeros(t, pad + 1);
  }

  lemma PaddedText(t: string, pad: nat)
    requires AllDigits(t)
    ensures AllDigits(Zeros(1)) && AllDigits(Zeros(pad) + t)
    ensures Zeros(1) + "." + (Zeros(pad) + t) == "0." + Zeros(pad) + t
    ensures Zeros(1) + (Zeros(pad) + t) == Zeros(pad + 1) + t
  {
  }

  lemma LeadingZeros(t: string, k: nat)
    requires AllDigits(t)
    ensures DigitsValue(Zeros(k) + t) == DigitsValue(t)
  {
    DigitsValueAppend(Zeros(k), t);
    ZerosValue(k);
    ShiftInjective(0, 0, |t|);
  }

  /** Appending zeros up to a common scale `top` tells reduced scaled integers apart. */
  lemma ReducedUnique(x: Scaled, y: Scaled, top: nat)
    requires Reduced(x) && Reduced(y) && x.scale <= y.scale <= top
    ensures x == y <==> Shift(x.n, top - x.scale) == Shift(y.n, top - y.scale)
  {
    var gap := y.scale - x.scale;
    ShiftTwice(x.n, gap, top - y.scale);
    ShiftInjective(Shift(x.n, gap), y.n, top - y.scale);
  }

  /** Written with `top` decimals, the decimal and the scaled integer are the same integer. */
  ghost predicate AgreesAt(d: Decimal, x: Scaled, top: nat)
    requires d.Finite? && 0 <= d.exponent + top
  {
    x.scale <= top && Shift(DigitsValue(d.digits), d.exponent + top) == Shift(x.n, top - x.scale)
  }

  /** The decimal is the number x: they agree at every scale fine enough for the decimal. */
  ghost predicate Denotes(d: Decimal, x: Scaled)
    requires d.Finite?
  {
    forall top: nat | 0 <= d.exponent + top :: AgreesAt(d, x, top)
  }

  lemma ValueDenotes(d: Decimal)
    requires d.Finite? && WellFormed(d)
    ensures Denotes(d, Value(d))
  {
    forall top: nat | 0 <= d.exponent + top
      ensures AgreesAt(d, Value(d), top)
    {
      if IsZero(d) {
        assert d.digits[..0] == "";
        ShiftInjective(0, 0, d.exponent + top);
        ShiftInjective(0, 0, top);
      } else {
        RetainedDigits(d);
        var (retained, exponent) := Components(d);
        RetainedAgrees(d, Value(d), d.digits[..retained], |d.digits| - retained, exponent, top);
      }
    }
  }

  lemma RetainedAgrees(d: Decimal, x: Scaled, kept: string, dropped: nat, exponent: int, top: nat)
    requires d.Finite? && d.digits == kept + Zeros(dropped) && exponent == d.exponent + dropped
    requires 0 <= d.exponent + top
    requires x.scale == (if exponent >= 0 then 0 else -exponent)
    requires x.n == (if exponent >= 0 then Shift(DigitsValue(kept), exponent) else DigitsValue(kept))
    ensures AgreesAt(d, x, top)
  {
    DigitsValueAppend(kept, Zeros(dropped));
    ZerosValue(dropped);
    ShiftTwice(DigitsValue(kept), dropped, d.exponent + top);
    if exponent >= 0 {
      ShiftTwice(DigitsValue(kept), exponent, top);
    }
  }

  /** Reduced numbers are equal exactly when the decimals that denote them are numerically equal. */
  lemma SameNumberIffSameValue(a: Decimal, x: Scaled, b: Decimal, y: Scaled)
    requires a.Finite? && b.Finite? && Denotes(a, x) && Denotes(b, y) && Reduced(x) && Reduced(y)
    ensures x == y <==> SameNumber(a, b)
  {
    var low := if a.exponent < b.exponent then a.exponent else b.exponent;
    var top: nat := if low < 0 then -low else 0;
    assert AgreesAt(a, x, top) && AgreesAt(b, y, top);
    ReducedComparison(x, y, top);
    CommonShift(DigitsValue(a.digits), DigitsValue(b.digits), a.exponent - low, b.exponent - low, low + top);
  }

  lemma ReducedComparison(x: Scaled, y: Scaled, top: nat)
    requires Reduced(x) && Reduced(y) && x.scale <= top && y.scale <= top
    ensures x == y <==> Shift(x.n, top - x.scale) == Shift(y.n, top - y.scale)
  {
    if x.scale <= y.scale {
      ReducedUnique(x, y, top);
    } else {
      ReducedUnique(y, x, top);
    }
  }

  lemma CommonShift(m: int, n: int, j: nat, k: nat, shift: nat)
    ensures Shift(m, j) == Shift(n, k) <==> Shift(m, j + shift) == Shift(n, k + shift)
  {
    ShiftTwice(m, j, shift);
    ShiftTwice(n, k, shift);
    ShiftInjective(Shift(m, j), Shift(n, k), shift);
  }

  /** Canonical texts are equal exactly when the amounts are equal numbers. */
  lemma SameTextIffSameNumber(a: Decimal, b: Decimal)
    requires a.Finite? && b.Finite? && WellFormed(a) && WellFormed(b) && !a.negative && !b.negative
    ensures MoneyText(a) == MoneyText(b) <==> SameNumber(a, b)
  {
    TextSpellsValue(a);
    TextSpellsValue(b);
    ReadSpell(Value(a));
    ReadSpell(Value(b));
    ValueDenotes(a);
    ValueDenotes(b);
    SameNumberIffSameValue(a, Value(a), b, Value(b));
  }

  /** Parsing a canonical text gives the amount back, whatever the decimal's own exponent was. */
  lemma TextReadsBack(d: Decimal)
    requires d.Finite? && WellFormed(d) && !d.negative
    ensures MoneyText(d).Ok?
    ensures var (n, scale) := Read(MoneyText(d).value);
            n >= 0 && scale >= 0 && Denotes(d, Scaled(n, scale))
  {
    TextSpellsValue(d);
    ReadSpell(Value(d));
    ValueDenotes(d);
  }

  /** `_validate_action_hash_integer`: Ok carries the width. */
  function IntegerWidth(value: int, limit: nat): Result<nat, MoneyError> {
    var allowed := limit - if value < 0 then 1 else 0;
    if allowed <= 0 then Err(TooLong)
    else if value >= Pow10(allowed) || -value >= Pow10(allowed) then Err(TooLong)
    else Ok(|IntText(value)|)
  }

  /** The boundary test on integers rejects exactly when the printed form is too long. */
  lemma IntegerBoundExact(value: int, limit: nat)
    ensures IntegerWidth(value, limit).Ok? <==> |IntText(value)| <= limit
    ensures IntegerWidth(value, limit).Ok? ==> IntegerWidth(value, limit).value == |IntText(value)|
  {
    var magnitude := if value < 0 then -value else value;
    var allowed := limit - if value < 0 then 1 else 0;
    var k := |NatText(magnitude)|;
    NatTextSpells(magnitude);
    NatTextLength(magnitude);
    if allowed > 0 {
      if k <= allowed {
        Pow10Monotone(k, allowed);
      } else if magnitude > 0 {
        Pow10Monotone(allowed, k - 1);
      }
    }
  }
}
