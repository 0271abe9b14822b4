/** JavaScript number behaviour the screens depend on: `Math.round`, `parseFloat`,
    `Number(...)`, `x || 0` and rounded percentages. Where only a finite result matters, NaN and
    Infinity are `None`. */
module JsNumber {
  import opened Wrappers
  import opened Text

  /** `Math.round(x)`: the nearest integer, halves rounded up. */
  function Round(x: real): (r: int)
    ensures x - 0.5 < r as real <= x + 0.5
  {
    (x + 0.5).Floor
  }

  /** Rounding an integer gives it back. */
  lemma RoundInt(n: int)
    ensures Round(n as real) == n
  {
  }

  /** Rounding is monotone. */
  lemma RoundMonotone(x: real, y: real)
    requires x <= y
    ensures Round(x) <= Round(y)
  {
  }

  /** `Math.round(x * 10) / 10`: one decimal place. */
  function RoundTenth(x: real): (r: real)
    ensures x - 0.05 < r <= x + 0.05
    ensures (r * 10.0).Floor as real == r * 10.0
  {
    Round(x * 10.0) as real / 10.0
  }

  /** Those two facts determine the result: the only tenth within 0.05 of `x` is `RoundTenth(x)`. */
  lemma RoundTenthUnique(x: real, r: real)
    requires x - 0.05 < r <= x + 0.05 && (r * 10.0).Floor as real == r * 10.0
    ensures r == RoundTenth(x)
  {
    var n := (r * 10.0).Floor;
    assert x * 10.0 - 0.5 < n as real <= x * 10.0 + 0.5;
    assert Round(x * 10.0) == n;
  }

  /** `Math.round(part / whole * 100)`; `None` where JavaScript divides by zero. */
  function Percent(part: real, whole: real): (r: Option<int>)
    ensures r.None? <==> whole == 0.0
    ensures r.Some? ==> part / whole * 100.0 - 0.5 < r.value as real <= part / whole * 100.0 + 0.5
  {
    if whole == 0.0 then None else Some(Round(part / whole * 100.0))
  }

  /** The value of `Math.round(part / whole * 100)`: a whole number, or NaN for `0 / 0`, or
      Infinity or -Infinity for a non-zero part over a zero whole. */
  datatype Percentage = Pct(value: int) | NotANumber | Infinite | NegativeInfinite

  /** `Math.round(part / whole * 100)` with JavaScript's division by zero. */
  function PercentOf(part: real, whole: real): (r: Percentage)
    ensures r == NotANumber <==> whole == 0.0 && part == 0.0
    ensures r == Infinite <==> whole == 0.0 && part > 0.0
    ensures r == NegativeInfinite <==> whole == 0.0 && part < 0.0
    ensures r.Pct? <==> Percent(part, whole).Some?
    ensures r.Pct? ==> r.value == Percent(part, whole).value
  {
    if whole != 0.0 then Pct(Round(part / whole * 100.0))
    else if part == 0.0 then NotANumber
    else if part > 0.0 then Infinite
    else NegativeInfinite
  }

  /** A share of a positive whole rounds to a percentage between 0 and 100. */
  lemma PercentBounds(part: real, whole: real)
    requires whole > 0.0 && 0.0 <= part <= whole
    ensures Percent(part, whole).Some?
    ensures 0 <= Percent(part, whole).value <= 100
  {
    assert part / whole <= 1.0;
    RoundMonotone(part / whole * 100.0, 100.0);
    RoundMonotone(0.0, part / whole * 100.0);
  }

  /** The whole rounds to exactly 100 per cent. */
  lemma PercentOfWhole(whole: real)
    requires whole != 0.0
    ensures Percent(whole, whole) == Some(100)
  {
    assert whole / whole == 1.0;
  }

  /** `Math.round(part / whole * 100)` for a count out of a non-zero total: within [0, 100] when the
      count does not exceed a positive total, and exactly 100 for the whole. */
  lemma RoundedShare(part: nat, whole: int)
    requires whole != 0
    ensures 0 < whole && part <= whole ==> 0 <= Round(part as real / whole as real * 100.0) <= 100
    ensures part == whole ==> Round(part as real / whole as real * 100.0) == 100
  {
    if 0 < whole && part <= whole {
      PercentBounds(part as real, whole as real);
    }
    if part == whole {
      PercentOfWhole(whole as real);
    }
  }

  /** Length of the run of decimal digits at the start of `s`. */
  function DigitRun(s: string): (n: nat)
    ensures n <= |s| && AllDigits(s[..n])
    ensures n < |s| ==> !IsDigit(s[n])
  {
    if s != [] && IsDigit(s[0]) then
      var n := 1 + DigitRun(s[1..]);
      assert s[..n] == [s[0]] + s[1..][..n - 1];
      n
    else 0
  }

  /** The value of the digits after a decimal point: `0.d1d2d3...`. */
  function Fraction(digits: string): (r: real)
    requires AllDigits(digits)
    ensures 0.0 <= r < 1.0
  {
    if digits == [] then 0.0
    else ((digits[0] as int - '0' as int) as real + Fraction(digits[1..])) / 10.0
  }

  /** The longest unsigned decimal literal (`ddd`, `ddd.`, `ddd.ddd`, `.ddd`) at the start of `s`:
      its value and its length. */
  function UnsignedPrefix(s: string): (r: Option<(real, nat)>)
    ensures r.Some? ==> 0.0 <= r.value.0 && 0 < r.value.1 <= |s|
  {
    var i := DigitRun(s);
    var whole := DigitsValue(s[..i]) as real;
    if i < |s| && s[i] == '.' then
      var j := DigitRun(s[i + 1..]);
      if i + j == 0 then None
      else Some((whole + Fraction(s[i + 1..][..j]), i + 1 + j))
    else if i == 0 then None
    else Some((whole, i))
  }

  /** The longest decimal literal with an optional `+` or `-` sign at the start of `s`. */
  function SignedPrefix(s: string): (r: Option<(real, nat)>)
    ensures r.Some? ==> 0 < r.value.1 <= |s|
  {
    if s != [] && (s[0] == '+' || s[0] == '-') then
      match UnsignedPrefix(s[1..])
      case None => None
      case Some((v, n)) => Some((if s[0] == '-' then -v else v, n + 1))
    else UnsignedPrefix(s)
  }

  /** `parseFloat(s)`: leading white space skipped, the longest decimal prefix read, the rest ignored. */
  function ParseFloat(s: string): Option<real>
  {
    if s != [] && IsSpace(s[0]) then ParseFloat(s[1..])
    else
      var p := SignedPrefix(s);
      if p.None? then None else Some(p.value.0)
  }

  /** `parseFloat` reads the literal at the start of the text with its leading white space trimmed. */
  lemma {:induction false} ParseFloatSkipsSpace(s: string)
    ensures ParseFloat(s).Some? <==> SignedPrefix(TrimStart(s)).Some?
    ensures ParseFloat(s).Some? ==> ParseFloat(s).value == SignedPrefix(TrimStart(s)).value.0
  {
    if s != [] && IsSpace(s[0]) {
      ParseFloatSkipsSpace(s[1..]);
    }
  }

  /** `Number(s)`: white space at both ends is ignored; what is left must be empty (giving 0) or a
      decimal literal with nothing after it. */
  function ToNumber(s: string): Option<real>
  {
    if s != [] && IsSpace(s[0]) then ToNumber(s[1..])
    else if s != [] && IsSpace(s[|s| - 1]) then ToNumber(s[..|s| - 1])
    else if s == [] then Some(0.0)
    else match SignedPrefix(s)
      case Some((v, n)) => if n == |s| then Some(v) else None
      case None => None
  }

  /** `Number` reads the trimmed text: empty means 0, otherwise the literal must fill it. */
  lemma {:induction false} ToNumberTrims(s: string)
    ensures Trim(s) == [] ==> ToNumber(s) == Some(0.0)
    ensures Trim(s) != [] ==> ToNumber(s) == match SignedPrefix(Trim(s))
                                            case Some((v, n)) => if n == |Trim(s)| then Some(v) else None
                                            case None => None
  {
    if s != [] && IsSpace(s[0]) {
      ToNumberTrims(s[1..]);
      assert TrimStart(s) == TrimStart(s[1..]);
    } else if s != [] && IsSpace(s[|s| - 1]) {
      ToNumberTrims(s[..|s| - 1]);
      assert TrimStart(s) == s;
      assert TrimStart(s[..|s| - 1]) == s[..|s| - 1];
    } else {
      assert TrimStart(s) == s;
      assert TrimEnd(s) == s;
    }
  }

  /** `x || 0` applied to a parsed number: NaN (and 0) become 0. */
  function OrZero(x: Option<real>): (r: real)
    ensures x.Some? ==> r == x.value
    ensures x.None? ==> r == 0.0
  {
    match x
    case Some(v) => v
    case None => 0.0
  }

  /** A string of digits reads as the number it denotes, with either parser. */
  lemma DigitsParse(s: string)
    requires s != [] && AllDigits(s)
    ensures ParseFloat(s) == Some(DigitsValue(s) as real)
    ensures ToNumber(s) == Some(DigitsValue(s) as real)
  {
    assert !IsSpace(s[0]) && !IsSpace(s[|s| - 1]);
    assert TrimStart(s) == s;
    assert Trim(s) == s;
    UnsignedDigits(s);
    assert SignedPrefix(s) == UnsignedPrefix(s);
    ToNumberTrims(s);
  }

  /** An all-digit string is read whole as an unsigned literal. */
  lemma UnsignedDigits(s: string)
    requires s != [] && AllDigits(s)
    ensures UnsignedPrefix(s) == Some((DigitsValue(s) as real, |s|))
  {
    DigitRunAll(s);
    assert s[..|s|] == s;
  }

  /** `parseFloat(n.toString())` gives back the integer `n`. */
  lemma IntToStringParses(n: int)
    ensures ParseFloat(IntToString(n)) == Some(n as real)
  {
    if n < 0 {
      NegativeParses(-n);
    } else {
      NatToStringRoundTrip(n);
      DigitsParse(NatToString(n));
    }
  }

  /** A minus sign before the digits of `m` reads as `-m`. */
  lemma NegativeParses(m: nat)
    requires m > 0
    ensures ParseFloat("-" + NatToString(m)) == Some(-(m as real))
  {
    UnsignedNatString(m);
    MinusDigitsParse(NatToString(m), m as real);
  }

  /** The rendered digits of `m` read whole as `m`. */
  lemma UnsignedNatString(m: nat)
    ensures UnsignedPrefix(NatToString(m)) == Some((m as real, |NatToString(m)|))
  {
    NatToStringRoundTrip(m);
    UnsignedDigits(NatToString(m));
  }

  /** A minus sign before an unsigned literal that spans the whole text negates its value. */
  lemma MinusDigitsParse(d: string, v: real)
    requires UnsignedPrefix(d) == Some((v, |d|))
    ensures ParseFloat("-" + d) == Some(-v)
  {
    MinusPrefix(d, v, |d|);
    MinusParse(d, v, |d|);
  }

  /** A minus sign before an unsigned literal negates it. */
  lemma MinusPrefix(d: string, v: real, n: nat)
    requires UnsignedPrefix(d) == Some((v, n))
    ensures SignedPrefix("-" + d) == Some((-v, n + 1))
  {
    var s := "-" + d;
    assert s[0] == '-' && s[1..] == d;
    SignedMinus(s);
  }

  /** Text starting with a minus sign reads as the value of its literal prefix. */
  lemma MinusParse(d: string, v: real, n: nat)
    requires SignedPrefix("-" + d) == Some((-v, n + 1))
    ensures ParseFloat("-" + d) == Some(-v)
  {
    var s := "-" + d;
    assert s[0] == '-';
    assert TrimStart(s) == s;
  }

  /** A leading minus sign negates the unsigned literal after it. */
  lemma SignedMinus(s: string)
    requires s != [] && s[0] == '-'
    ensures SignedPrefix(s) == match UnsignedPrefix(s[1..]) case None => None case Some((v, n)) => Some((-v, n + 1))
  {
  }

  /** The digit run of an all-digit string is the whole string. */
  lemma {:induction false} DigitRunAll(s: string)
    requires AllDigits(s)
    ensures DigitRun(s) == |s|
  {
    if s != [] {
      DigitRunAll(s[1..]);
    }
  }

  /** The empty string, `Number("") == 0`. */
  lemma ToNumberEmpty()
    ensures ToNumber("") == Some(0.0)
  {
  }

  /** The two parsers disagree on blank text: `Number` reads 0, `parseFloat` reads NaN. */
  lemma BlankParses(s: string)
    requires IsBlank(s)
    ensures ToNumber(s) == Some(0.0)
    ensures ParseFloat(s) == None
  {
    BlankIffAllSpace(s);
    ToNumberTrims(s);
  }

  /** A string whose first non-space character cannot start a number does not parse. */
  lemma ParseFloatRejects(s: string)
    requires TrimStart(s) != []
    requires var c := TrimStart(s)[0]; !IsDigit(c) && c != '+' && c != '-' && c != '.'
    ensures ParseFloat(s) == None
  {
  }

}
