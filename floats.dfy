/**
 * Python's `float(token)` on a whitespace-free token, and `bool()` of the
 * result. The strings accepted are those of Python's grammar
 *
 *   floatvalue  ::= [sign] (floatnumber | "inf" | "infinity" | "nan")   (words in any case)
 *   floatnumber ::= number [exponent]
 *   number      ::= [digitpart] "." digitpart | digitpart ["."]
 *   exponent    ::= ("e" | "E") [sign] digitpart
 *   digitpart   ::= digit (["_"] digit)*
 *
 * read left to right, one function per part of `floatnumber`. A finite value is
 * kept exactly, as a sign, an integer mantissa and a power of ten; rounding to
 * the nearest double is not modelled.
 */
module Floats {
  import opened Wrappers

  datatype PyFloat =
    | Finite(negative: bool, mantissa: nat, exponent: int)  // (-1)^negative * mantissa * 10^exponent
    | Infinity(negative: bool)
    | NaN

  /** `bool(x)`: only a zero (of either sign) is false; NaN is true. */
  predicate Truthy(x: PyFloat) {
    match x
    case Finite(_, m, _) => m != 0
    case _ => true
  }

  predicate IsDigit(c: char) {
    '0' <= c <= '9'
  }

  function DigitValue(c: char): nat
    requires IsDigit(c)
  {
    (c as int) - ('0' as int)
  }

  predicate AllDigits(s: string) {
    forall i :: 0 <= i < |s| ==> IsDigit(s[i])
  }

  /** `m` followed by the decimal digits `s`: the value of the digit string m·s. */
  function Accumulate(m: nat, s: string): nat
    requires AllDigits(s)
    decreases |s|
  {
    if s == [] then m else Accumulate(10 * m + DigitValue(s[0]), s[1..])
  }

  /** `s` is the lower-case ASCII word `w`, in any mix of case. */
  predicate IsWordIgnoringCase(s: string, w: string) {
    if s == [] || w == [] then s == [] && w == []
    else
      && (s[0] == w[0] || ('A' <= s[0] <= 'Z' && (s[0] as int) + 32 == w[0] as int))
      && IsWordIgnoringCase(s[1..], w[1..])
  }

  /**
   * The `digitpart` before the point, its digits accumulated in `m`. `seen`:
   * some character of the part has been read; `afterDigit`: the last one was a
   * digit, which an underscore, the point, an exponent and the end all need
   * (the point also goes after an empty part).
   */
  function Whole(s: string, m: nat, seen: bool, afterDigit: bool): Option<(nat, int)> {
    if s == [] then
      if afterDigit then Some((m, 0)) else None
    else if IsDigit(s[0]) then Whole(s[1..], 10 * m + DigitValue(s[0]), true, true)
    else if s[0] == '_' then
      if afterDigit then Whole(s[1..], m, seen, false) else None
    else if s[0] == '.' then
      if !seen || afterDigit then Fraction(s[1..], m, 0, seen, false, false) else None
    else if s[0] == 'e' || s[0] == 'E' then
      if afterDigit then ExponentSign(s[1..], m, 0) else None
    else None
  }

  /**
   * The `digitpart` after the point; `scale` counts its digits. A `number` needs
   * digits on at least one side of the point, and a non-empty fraction part
   * must end in a digit.
   */
  function Fraction(s: string, m: nat, scale: nat, wholeSeen: bool, seen: bool, afterDigit: bool)
    : Option<(nat, int)>
  {
    var complete := if seen then afterDigit else wholeSeen;
    if s == [] then
      if complete then Some((m, 0 - scale)) else None
    else if IsDigit(s[0]) then Fraction(s[1..], 10 * m + DigitValue(s[0]), scale + 1, wholeSeen, true, true)
    else if s[0] == '_' then
      if afterDigit then Fraction(s[1..], m, scale, wholeSeen, seen, false) else None
    else if s[0] == 'e' || s[0] == 'E' then
      if complete then ExponentSign(s[1..], m, scale) else None
    else None
  }

  /** The optional sign of the `exponent`. */
  function ExponentSign(s: string, m: nat, scale: nat): Option<(nat, int)> {
    if s != [] && (s[0] == '+' || s[0] == '-') then ExponentDigits(s[1..], m, scale, s[0] == '-', 0, false)
    else ExponentDigits(s, m, scale, false, 0, false)
  }

  /** The `digitpart` of the `exponent`, accumulated in `x`. */
  function ExponentDigits(s: string, m: nat, scale: nat, expNegative: bool, x: nat, afterDigit: bool)
    : Option<(nat, int)>
  {
    if s == [] then
      if afterDigit then Some((m, (if expNegative then 0 - x else x) - scale)) else None
    else if IsDigit(s[0]) then ExponentDigits(s[1..], m, scale, expNegative, 10 * x + DigitValue(s[0]), true)
    else if s[0] == '_' then
      if afterDigit then ExponentDigits(s[1..], m, scale, expNegative, x, false) else None
    else None
  }

  /** `float(t)`: `None` where Python raises `ValueError`. */
  function ParseFloat(t: string): Option<PyFloat> {
    var negative := |t| > 0 && t[0] == '-';
    var body := if |t| > 0 && (t[0] == '+' || t[0] == '-') then t[1..] else t;
    if IsWordIgnoringCase(body, "inf") || IsWordIgnoringCase(body, "infinity") then Some(Infinity(negative))
    else if IsWordIgnoringCase(body, "nan") then Some(NaN)
    else match Whole(body, 0, false, false)
      case None => None
      case Some((m, e)) => Some(Finite(negative, m, e))
  }

  /** The decimal numeral of `n` without leading zeros, as a device writes a count. */
  function Numeral(n: nat): (s: string)
    ensures |s| > 0 && AllDigits(s)
  {
    var d := ['0' + ((n % 10) as char)];
    if n < 10 then d else Numeral(n / 10) + d
  }

  /** A digit string is worth zero exactly when its prefix value is zero and every digit is `0`. */
  lemma {:induction false} AccumulateZero(m: nat, s: string)
    requires AllDigits(s)
    ensures Accumulate(m, s) == 0 <==> m == 0 && forall i :: 0 <= i < |s| ==> s[i] == '0'
    decreases |s|
  {
    if s != [] {
      AccumulateZero(10 * m + DigitValue(s[0]), s[1..]);
      assert forall i :: 1 <= i < |s| ==> s[i] == s[1..][i - 1];
    }
  }

  /** Appending a digit multiplies by ten and adds it. */
  lemma {:induction false} AccumulateSnoc(m: nat, s: string, c: char)
    requires AllDigits(s) && IsDigit(c)
    ensures AllDigits(s + [c]) && Accumulate(m, s + [c]) == 10 * Accumulate(m, s) + DigitValue(c)
    decreases |s|
  {
    assert AllDigits(s + [c]);
    if s != [] {
      assert (s + [c])[1..] == s[1..] + [c];
      AccumulateSnoc(10 * m + DigitValue(s[0]), s[1..], c);
    }
  }

  lemma {:induction false} NumeralValue(n: nat)
    ensures Accumulate(0, Numeral(n)) == n
  {
    if n >= 10 {
      NumeralValue(n / 10);
      AccumulateSnoc(0, Numeral(n / 10), '0' + ((n % 10) as char));
    }
  }

  /** The digits of a whole part without underscores are accumulated in order. */
  lemma {:induction false} WholeDigits(s: string, m: nat, seen: bool, afterDigit: bool)
    requires |s| > 0 && AllDigits(s)
    ensures Whole(s, m, seen, afterDigit) == Some((Accumulate(m, s), 0))
    decreases |s|
  {
    if |s| > 1 {
      WholeDigits(s[1..], 10 * m + DigitValue(s[0]), true, true);
    }
  }

  /** A plain digit string is read as that integer. */
  lemma DigitStringParses(s: string)
    requires |s| > 0 && AllDigits(s)
    ensures ParseFloat(s) == Some(Finite(false, Accumulate(0, s), 0))
  {
    WholeDigits(s, 0, false, false);
  }

  /** Round trip: `float` of the numeral of `n` is `n`, true exactly when `n` is not zero. */
  lemma NumeralParses(n: nat)
    ensures ParseFloat(Numeral(n)) == Some(Finite(false, n, 0))
    ensures Truthy(ParseFloat(Numeral(n)).value) <==> n != 0
  {
    DigitStringParses(Numeral(n));
    NumeralValue(n);
  }

  /** `bool(float(s))` of a plain digit string: true exactly when some digit is not `0`. */
  lemma DigitStringTruthy(s: string)
    requires |s| > 0 && AllDigits(s)
    ensures ParseFloat(s).Some?
    ensures Truthy(ParseFloat(s).value) <==> exists i :: 0 <= i < |s| && s[i] != '0'
  {
    DigitStringParses(s);
    AccumulateZero(0, s);
  }

  /**
   * A sign in front: `+` changes nothing, `-` negates a number or an infinity,
   * keeps NaN, and never changes whether the token is accepted or true.
   */
  lemma SignKeepsTruth(t: string)
    requires t == [] || (t[0] != '+' && t[0] != '-')
    ensures ParseFloat("+" + t) == ParseFloat(t)
    ensures ParseFloat("-" + t).Some? <==> ParseFloat(t).Some?
    ensures ParseFloat(t).Some? && !ParseFloat(t).value.NaN? ==>
      !ParseFloat(t).value.negative && ParseFloat("-" + t) == Some(ParseFloat(t).value.(negative := true))
    ensures ParseFloat(t) == Some(NaN) ==> ParseFloat("-" + t) == Some(NaN)
    ensures ParseFloat(t).Some? ==> Truthy(ParseFloat("-" + t).value) == Truthy(ParseFloat(t).value)
  {
    assert ("+" + t)[1..] == t;
    assert ("-" + t)[1..] == t;
  }

  /** Every word matches itself. */
  lemma {:induction false} WordMatchesItself(w: string)
    ensures IsWordIgnoringCase(w, w)
  {
    if w != [] {
      WordMatchesItself(w[1..]);
    }
  }

  /** Tokens a device might send, against what `float` and `bool` make of them. */
  lemma Accepted()
    ensures ParseFloat("1") == Some(Finite(false, 1, 0)) && ParseFloat("0") == Some(Finite(false, 0, 0))
    ensures ParseFloat(".5") == Some(Finite(false, 5, -1)) && ParseFloat("5.") == Some(Finite(false, 5, 0))
    ensures ParseFloat("nAn") == Some(NaN)
  {
  }

  /** Negative zero is false. */
  lemma NegativeZero()
    ensures ParseFloat("-0.0") == Some(Finite(true, 0, -1)) && !Truthy(ParseFloat("-0.0").value)
  {
    assert Fraction("0", 0, 0, true, false, false) == Some((0, -1));
    assert Whole(".0", 0, true, true) == Some((0, -1));
    assert Whole("0.0", 0, false, false) == Some((0, -1));
  }

  /** Underscores go between digits. */
  lemma Underscores()
    ensures ParseFloat("1_000") == Some(Finite(false, 1000, 0))
  {
    assert Whole("00", 10, true, true) == Some((1000, 0));
    assert Whole("000", 1, true, false) == Some((1000, 0));
    assert Whole("1_000", 0, false, false) == Some((1000, 0));
  }

  /** A fraction and a signed exponent combine into one power of ten. */
  lemma Exponent()
    ensures ParseFloat("2.5E-3") == Some(Finite(false, 25, -4))
  {
    assert ExponentSign("-3", 25, 1) == Some((25, -4));
    assert Fraction("5E-3", 2, 0, true, false, false) == Some((25, -4));
    assert Whole("2.5E-3", 0, false, false) == Some((25, -4));
  }

  /** The infinity words in any case, after a sign. */
  lemma SignedInfinity()
    ensures ParseFloat("-Infinity") == Some(Infinity(true))
  {
    WordMatchesItself("nfinity");
    assert "Infinity"[1..] == "infinity"[1..];
  }

  /** Strings `float` refuses: no digits, or an underscore not between two digits. */
  lemma RefusedDigits()
    ensures ParseFloat("") == None && ParseFloat(".") == None && ParseFloat("1__0") == None
    ensures ParseFloat("_1") == None && ParseFloat("1_") == None && ParseFloat("1._5") == None
  {
  }

  /** Strings `float` refuses: an exponent without digits or mantissa, two signs, other words. */
  lemma RefusedOther()
    ensures ParseFloat("1e") == None && ParseFloat("e5") == None && ParseFloat("--1") == None
    ensures ParseFloat("on") == None && ParseFloat("infin") == None
  {
  }
}
