/**
 * The part of Python's `float(str)` grammar that the metric deriver relies on: surrounding
 * whitespace, an optional sign, `inf`/`infinity`/`nan` in any case, and decimal numbers
 * `digits[.digits]` or `.digits` with an optional exponent. Values are exact reals.
 */
module FloatParsing {
  import opened Wrappers
  import opened Schemas
  import opened PyText

  predicate IsDigit(c: char) {
    '0' <= c <= '9'
  }

  predicate AllDigits(s: string) {
    forall i :: 0 <= i < |s| ==> IsDigit(s[i])
  }

  /** The number a string of decimal digits denotes, most significant digit first. */
  function DigitsValue(s: string): nat
    requires AllDigits(s)
  {
    if s == [] then 0 else 10 * DigitsValue(s[..|s| - 1]) + (s[|s| - 1] as int - '0' as int)
  }

  /** The index of the first `c` in `s`, or `|s|` when there is none. */
  function IndexOf(s: string, c: char): (k: nat)
    ensures k <= |s| && c !in s[..k]
    ensures k < |s| ==> s[k] == c
  {
    if s == [] then 0
    else if s[0] == c then 0
    else
      var k := 1 + IndexOf(s[1..], c);
      assert s[..k] == [s[0]] + s[1..][..k - 1];
      k
  }

  /** The index of the first exponent marker `e` or `E`, or `|s|`. */
  function IndexOfExponent(s: string): (k: nat)
    ensures k <= |s| && 'e' !in s[..k] && 'E' !in s[..k]
    ensures k < |s| ==> s[k] == 'e' || s[k] == 'E'
  {
    if s == [] then 0
    else if s[0] == 'e' || s[0] == 'E' then 0
    else
      var k := 1 + IndexOfExponent(s[1..]);
      assert s[..k] == [s[0]] + s[1..][..k - 1];
      k
  }

  /** The value of the digits after a decimal point: `0.d1d2...` as an exact real. */
  function FractionValue(s: string): real
    requires AllDigits(s)
  {
    if s == [] then 0.0 else ((s[0] as int - '0' as int) as real + FractionValue(s[1..])) / 10.0
  }

  /** `digits "." [digits] | "." digits | digits`: the significand of a decimal number. */
  function ParseSignificand(m: string): Option<real> {
    var p := IndexOf(m, '.');
    var whole := m[..p];
    var fraction := if p < |m| then m[p + 1..] else [];
    if AllDigits(whole) && AllDigits(fraction) && |whole| + |fraction| > 0 then
      Some(DigitsValue(whole) as real + FractionValue(fraction))
    else None
  }

  /** `[sign] digits` after the exponent marker. */
  function ParseExponent(e: string): Option<int> {
    var negative := |e| > 0 && e[0] == '-';
    var digits := if |e| > 0 && (e[0] == '+' || e[0] == '-') then e[1..] else e;
    if |digits| > 0 && AllDigits(digits) then
      var magnitude: int := DigitsValue(digits);
      Some(if negative then -magnitude else magnitude)
    else None
  }

  /** `x * 10 ** e`, exactly, one factor of ten at a time. */
  function Scale(x: real, e: int): real
    decreases if e >= 0 then e else -e
  {
    if e == 0 then x
    else if e > 0 then Scale(x, e - 1) * 10.0
    else Scale(x, e + 1) / 10.0
  }

  /** An unsigned float literal: an infinity, NaN, or a decimal number. */
  function ParseUnsigned(body: string): Option<Num> {
    var lowered := Lower(body);
    if lowered == "inf" || lowered == "infinity" then Some(PosInf)
    else if lowered == "nan" then Some(NaN)
    else
      var k := IndexOfExponent(body);
      match ParseSignificand(body[..k])
      case None => None
      case Some(significand) =>
        if k == |body| then Some(Finite(significand))
        else
          match ParseExponent(body[k + 1..])
          case None => None
          case Some(e) => Some(Finite(Scale(significand, e)))
  }

  /** `-x` on a float. */
  function Negate(x: Num): Num {
    match x
    case Finite(r) => Finite(-r)
    case PosInf => NegInf
    case NegInf => PosInf
    case NaN => NaN
  }

  /** `float(s)`: the value of `s`, or None where Python raises ValueError. */
  function ParseFloat(s: string): Option<Num> {
    var t := Strip(s);
    if |t| > 0 && (t[0] == '+' || t[0] == '-') then
      match ParseUnsigned(t[1..])
      case None => None
      case Some(x) => Some(if t[0] == '-' then Negate(x) else x)
    else ParseUnsigned(t)
  }

  // ---------------------------------------------------------------------------
  // Decimal rendering of naturals, the inverse direction
  // ---------------------------------------------------------------------------

  function DigitChar(d: nat): char
    requires d < 10
  {
    ('0' as int + d) as char
  }

  /** `str(n)` for a natural number. */
  function ShowNat(n: nat): (s: string)
    ensures |s| > 0 && AllDigits(s)
  {
    if n < 10 then [DigitChar(n)] else ShowNat(n / 10) + [DigitChar(n % 10)]
  }

  /** Reading back the digits of `n` gives `n`. */
  lemma {:induction false} DigitsOfShowNat(n: nat)
    ensures DigitsValue(ShowNat(n)) == n
  {
    if n >= 10 {
      var s := ShowNat(n);
      assert s[..|s| - 1] == ShowNat(n / 10);
      DigitsOfShowNat(n / 10);
    }
  }

  lemma AllDigitsHasNoMarkers(s: string)
    requires AllDigits(s)
    ensures '.' !in s && 'e' !in s && 'E' !in s
    ensures |s| > 0 ==> !IsSpace(s[0]) && !IsSpace(s[|s| - 1]) && s[0] != '+' && s[0] != '-'
    ensures Lower(s) == s
  {
    assert Lower(s) == s by {
      forall i | 0 <= i < |s| ensures Lower(s)[i] == s[i] { }
    }
  }

  /** A run of digits is neither an infinity nor NaN. */
  lemma DigitsAreNotWords(s: string)
    requires |s| > 0 && AllDigits(s)
    ensures Lower(s) != "inf" && Lower(s) != "infinity" && Lower(s) != "nan"
  {
    AllDigitsHasNoMarkers(s);
    assert IsDigit(s[0]);
  }

  /** A run of digits has no decimal point. */
  lemma DigitsHaveNoPoint(s: string)
    requires AllDigits(s)
    ensures IndexOf(s, '.') == |s|
  {
    assert '.' !in s by {
      forall i | 0 <= i < |s| ensures s[i] != '.' {
        assert IsDigit(s[i]);
      }
    }
  }

  /** A run of digits is a significand without fraction. */
  lemma DigitsSignificand(s: string)
    requires |s| > 0 && AllDigits(s)
    ensures ParseSignificand(s) == Some(DigitsValue(s) as real)
  {
    DigitsHaveNoPoint(s);
    assert s[..|s|] == s;
    var fraction: string := [];
    assert AllDigits(fraction);
    assert DigitsValue(s) as real + FractionValue(fraction) == DigitsValue(s) as real;
  }

  /** A plain run of digits parses to the number it denotes. */
  lemma ParseDigits(s: string)
    requires |s| > 0 && AllDigits(s)
    ensures ParseUnsigned(s) == Some(Finite(DigitsValue(s) as real))
  {
    AllDigitsHasNoMarkers(s);
    DigitsAreNotWords(s);
    DigitsSignificand(s);
    assert IndexOfExponent(s) == |s|;
    assert s[..|s|] == s;
  }

  /** `float(str(n)) == n`: the parser reads every decimal rendering of a natural back. */
  lemma ParseShowNat(n: nat)
    ensures ParseFloat(ShowNat(n)) == Some(Finite(n as real))
  {
    var s := ShowNat(n);
    AllDigitsHasNoMarkers(s);
    StripUnchanged(s);
    ParseDigits(s);
    DigitsOfShowNat(n);
  }
}
