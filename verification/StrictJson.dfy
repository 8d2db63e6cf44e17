/**
 The strict loader's first pass (`_preflight_structure` in `strict_json.py`): one scan over the characters that
 bounds nesting, tokens, strings and numbers before any value is built.
 */
module StrictJson {
  import opened PythonText
  import opened Wrappers

  datatype Limits = Limits(depth: nat, tokens: nat, stringChars: nat, numberChars: nat)

  /** The ceilings of `limits.py`. */
  const STRICT_LIMITS := Limits(64, 1_000_000, 8 * 1024 * 1024, 1024)

  datatype Refusal = StringTooLong | NumberTooLong | TooDeep | TooManyTokens

  /** The scanner's variables. Outside a string or a scalar the corresponding counters are zero. */
  datatype Scanner = Scanner(
    depth: nat, tokens: nat,
    inString: bool, escaped: bool, stringChars: nat,
    inScalar: bool, scalarIsNumber: bool, scalarChars: nat)

  const START := Scanner(0, 0, false, false, 0, false, false, 0)

  predicate EndsScalar(c: char) {
    IsSpace(c) || c in "{}[],:\""
  }

  predicate StartsNumber(c: char) {
    c in "-0123456789"
  }

  function Settle(st: Scanner): Scanner {
    st.(inScalar := false, scalarIsNumber := false, scalarChars := 0)
  }

  /** One character, without any ceiling. */
  function Advance(st: Scanner, c: char): Scanner {
    if st.inString then
      if !st.escaped && c == '"' then st.(inString := false, stringChars := 0)
      else st.(escaped := !st.escaped && c == '\\', stringChars := st.stringChars + 1)
    else if st.inScalar && !EndsScalar(c) then st.(scalarChars := st.scalarChars + 1)
    else
      var s := Settle(st);
      if c == '"' then s.(inString := true, stringChars := 0, tokens := s.tokens + 1)
      else if c in "[{" then s.(depth := s.depth + 1, tokens := s.tokens + 1)
      else if c in "]}" then s.(depth := if s.depth > 0 then s.depth - 1 else 0)
      else if IsSpace(c) || c in ",:" then s
      else s.(inScalar := true, scalarIsNumber := StartsNumber(c), scalarChars := 1, tokens := s.tokens + 1)
  }

  /** One character under the ceilings, with the refusal the program raises. */
  function Step(limits: Limits, st: Scanner, c: char): Result<Scanner, Refusal> {
    var next := Advance(st, c);
    if next.inString && next.stringChars > limits.stringChars then Err(StringTooLong)
    else if next.inScalar && next.scalarIsNumber && next.scalarChars > limits.numberChars then Err(NumberTooLong)
    else if next.depth > st.depth && next.depth > limits.depth then Err(TooDeep)
    else if next.tokens > st.tokens && next.tokens > limits.tokens then Err(TooManyTokens)
    else Ok(next)
  }

  function Scan(limits: Limits, st: Scanner, text: string): Result<Scanner, Refusal>
    decreases |text|
  {
    if text == "" then Ok(st)
    else
      match Step(limits, st, text[0])
      case Err(e) => Err(e)
      case Ok(next) => Scan(limits, next, text[1..])
  }

  lemma {:induction false} ScanSnoc(limits: Limits, st: Scanner, text: string, c: char)
    ensures Scan(limits, st, text + [c]) ==
            match Scan(limits, st, text) case Err(e) => Err(e) case Ok(mid) => Step(limits, mid, c)
    decreases |text|
  {
    if text == "" {
      assert (text + [c])[1..] == "";
      if Step(limits, st, c).Ok? {
        assert Scan(limits, Step(limits, st, c).value, "") == Step(limits, st, c);
      }
    } else {
      assert (text + [c])[0] == text[0] && (text + [c])[1..] == text[1..] + [c];
      if Step(limits, st, text[0]).Ok? {
        ScanSnoc(limits, Step(limits, st, text[0]).value, text[1..], c);
      }
    }
  }

  lemma {:induction false} ScanStops(limits: Limits, st: Scanner, text: string, rest: string)
    requires Scan(limits, st, text).Err?
    ensures Scan(limits, st, text + rest) == Scan(limits, st, text)
    decreases |text|
  {
    assert (text + rest)[0] == text[0] && (text + rest)[1..] == text[1..] + rest;
    if Step(limits, st, text[0]).Ok? {
      ScanStops(limits, Step(limits, st, text[0]).value, text[1..], rest);
    }
  }

  lemma ScanEmpty(limits: Limits, st: Scanner)
    ensures Scan(limits, st, "") == Ok(st)
  {
  }

  /** `_preflight_structure`. */
  method Preflight(text: string, limits: Limits) returns (refusal: Option<Refusal>)
    ensures refusal == match Scan(limits, START, text) case Ok(_) => None case Err(e) => Some(e)
  {
    hide Scan;
    ScanEmpty(limits, START);
    var depth, tokens := 0, 0;
    var inString, escaped, stringChars := false, false, 0;
    var inScalar, scalarIsNumber, scalarChars := false, false, 0;
    refusal := None;
    var i := 0;
    while i < |text|
      invariant 0 <= i <= |text|
      invariant depth >= 0 && 0 <= tokens <= limits.tokens && stringChars >= 0 && scalarChars >= 0
      invariant (!inString ==> !escaped) && !(inString && inScalar)
      invariant !inScalar ==> scalarChars == 0 && !scalarIsNumber
      invariant Scan(limits, START, text[..i]) ==
                Ok(Scanner(depth, tokens, inString, escaped, if inString then stringChars else 0,
                           inScalar, scalarIsNumber, scalarChars))
    {
      var character := text[i];
      ghost var before := Scan(limits, START, text[..i]).value;
      ScanSnoc(limits, START, text[..i], character);
      assert text[..i + 1] == text[..i] + [character];
      assert text == text[..i + 1] + text[i + 1..];
      if Step(limits, before, character).Err? {
        ScanStops(limits, START, text[..i + 1], text[i + 1..]);
      }
      i := i + 1;
      if inString {
        if escaped {
          escaped := false;
        } else if character == '\\' {
          escaped := true;
        } else if character == '"' {
          inString := false;
          continue;
        }
        stringChars := stringChars + 1;
        if stringChars > limits.stringChars {
          return Some(StringTooLong);
        }
        continue;
      }
      if inScalar {
        if EndsScalar(character) {
          inScalar, scalarIsNumber, scalarChars := false, false, 0;
        } else {
          scalarChars := scalarChars + 1;
          if scalarIsNumber && scalarChars > limits.numberChars {
            return Some(NumberTooLong);
          }
          continue;
        }
      }
      if character == '"' {
        inString, stringChars, tokens := true, 0, tokens + 1;
      } else if character in "[{" {
        depth, tokens := depth + 1, tokens + 1;
        if depth > limits.depth {
          return Some(TooDeep);
        }
      } else if character in "]}" {
        if depth > 0 {
          depth := depth - 1;
        }
      } else if IsSpace(character) || character in ",:" {
        continue;
      } else {
        inScalar, scalarIsNumber, scalarChars := true, StartsNumber(character), 1;
        if scalarIsNumber && scalarChars > limits.numberChars {
          return Some(NumberTooLong);
        }
        tokens := tokens + 1;
      }
      if tokens > limits.tokens {
        return Some(TooManyTokens);
      }
    }
    assert text[..i] == text;
  }

  // ---------------------------------------------------------------------------
  // Acceptance is four maxima
  // ---------------------------------------------------------------------------

  function Max(a: nat, b: nat): nat { if a < b then b else a }

  /** The unbounded scanner with the largest depth, string and number it has seen. */
  datatype Meter = Meter(st: Scanner, depth: nat, stringChars: nat, numberChars: nat)

  const START_METER := Meter(START, 0, 0, 0)

  function Move(m: Meter, c: char): Meter {
    var next := Advance(m.st, c);
    Meter(next,
          Max(m.depth, next.depth),
          Max(m.stringChars, next.stringChars),
          if next.inScalar && next.scalarIsNumber then Max(m.numberChars, next.scalarChars) else m.numberChars)
  }

  function Run(m: Meter, text: string): Meter
    decreases |text|
  {
    if text == "" then m else Run(Move(m, text[0]), text[1..])
  }

  predicate Fits(limits: Limits, m: Meter) {
    && m.depth <= limits.depth
    && m.st.tokens <= limits.tokens
    && m.stringChars <= limits.stringChars
    && m.numberChars <= limits.numberChars
  }

  lemma {:induction false} RunGrows(m: Meter, text: string)
    ensures m.depth <= Run(m, text).depth && m.st.tokens <= Run(m, text).st.tokens
    ensures m.stringChars <= Run(m, text).stringChars && m.numberChars <= Run(m, text).numberChars
    decreases |text|
  {
    if text != "" {
      RunGrows(Move(m, text[0]), text[1..]);
    }
  }

  ghost predicate Coherent(st: Scanner) {
    && (!st.inString ==> st.stringChars == 0 && !st.escaped)
    && (!st.inScalar ==> st.scalarChars == 0 && !st.scalarIsNumber)
    && !(st.inString && st.inScalar)
  }

  /** The bounded scan accepts exactly the texts whose four maxima are within the ceilings. */
  lemma {:induction false} ScanIsMeasured(limits: Limits, m: Meter, text: string)
    requires Coherent(m.st) && m.st.depth <= m.depth && Fits(limits, m)
    ensures Scan(limits, m.st, text).Ok? <==> Fits(limits, Run(m, text))
    ensures Scan(limits, m.st, text).Ok? ==> Scan(limits, m.st, text).value == Run(m, text).st
    decreases |text|
  {
    if text != "" {
      var next := Move(m, text[0]);
      assert Step(limits, m.st, text[0]).Ok? <==> Fits(limits, next);
      if Fits(limits, next) {
        ScanIsMeasured(limits, next, text[1..]);
      } else {
        RunGrows(next, text[1..]);
      }
    }
  }
}
