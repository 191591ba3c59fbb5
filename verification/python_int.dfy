/**
 * The pieces of Python integer semantics the YAML transforms rely on:
 * floor division `//`, the matching remainder `%`, and `str(int)`.
 * Dafny's own `/` and `%` are Euclidean; Python rounds the quotient toward
 * negative infinity, which differs when the divisor is negative.
 */
module PythonInt {
  import opened Wrappers

  /** Python's `a // b` for a non-negative dividend. */
  function FloorDiv(a: nat, b: int): (q: int)
    requires b != 0
    // q is the floor of the rational a / b
    ensures b > 0 ==> b * q <= a < b * q + b
    ensures b < 0 ==> b * q + b < a <= b * q
  {
    if b > 0 then a / b else -((a - b - 1) / -b)
  }

  /** Python's `a % b` for a non-negative dividend: it has the sign of the divisor. */
  function FloorMod(a: nat, b: int): (r: int)
    requires b != 0
    ensures a == b * FloorDiv(a, b) + r
    ensures b > 0 ==> 0 <= r < b
    ensures b < 0 ==> b < r <= 0
  {
    a - b * FloorDiv(a, b)
  }

  /** For a positive divisor Python's `//` and `%` agree with Dafny's. */
  lemma FloorMatchesEuclidean(a: nat, b: int)
    requires b > 0
    ensures FloorDiv(a, b) == a / b && FloorMod(a, b) == a % b
  {
  }

  /** A dividend is determined by its floor quotient and remainder. */
  lemma FloorDivModDetermine(a: nat, c: nat, b: int)
    requires b != 0
    requires FloorDiv(a, b) == FloorDiv(c, b) && FloorMod(a, b) == FloorMod(c, b)
    ensures a == c
  {
    assert a == b * FloorDiv(a, b) + FloorMod(a, b);
    assert c == b * FloorDiv(c, b) + FloorMod(c, b);
  }

  predicate IsDigit(ch: char) {
    '0' <= ch <= '9'
  }

  predicate AllDigits(s: string) {
    forall i | 0 <= i < |s| :: IsDigit(s[i])
  }

  function DigitChar(d: nat): (ch: char)
    requires d < 10
    ensures IsDigit(ch)
  {
    (48 + d) as char
  }

  function DigitValue(ch: char): (d: nat)
    requires IsDigit(ch)
    ensures d < 10
  {
    ch as int - 48
  }

  /** The decimal digits of `n`, without leading zeros, as Python's `str` writes them. */
  function NatToDecimal(n: nat): (s: string)
    ensures |s| >= 1 && AllDigits(s)
    ensures |s| > 1 ==> s[0] != '0'
    decreases n
  {
    if n < 10 then [DigitChar(n)] else NatToDecimal(n / 10) + [DigitChar(n % 10)]
  }

  /** The value of a string of decimal digits (the reference reading of a numeral). */
  function DecimalValue(s: string): nat
    requires AllDigits(s)
    decreases |s|
  {
    if s == [] then 0 else 10 * DecimalValue(s[..|s| - 1]) + DigitValue(s[|s| - 1])
  }

  /** Reading back what NatToDecimal writes gives the number it was given. */
  lemma {:induction false} DecimalRoundTrip(n: nat)
    ensures DecimalValue(NatToDecimal(n)) == n
    decreases n
  {
    var s := NatToDecimal(n);
    if n >= 10 {
      DecimalRoundTrip(n / 10);
      assert s[..|s| - 1] == NatToDecimal(n / 10);
    }
  }

  /** Python's `str(i)` for an integer: an optional minus sign, then the digits. */
  function Str(i: int): (s: string)
    ensures |s| >= 1
    ensures s[0] == '-' <==> i < 0
    ensures i < 0 ==> |s| >= 2 && AllDigits(s[1..]) && s[1] != '0'
    ensures i >= 0 ==> AllDigits(s) && (|s| > 1 ==> s[0] != '0')
  {
    if i < 0 then "-" + NatToDecimal(-i) else NatToDecimal(i)
  }

  /** Reads a numeral in the form Str writes: an optional '-', then at least one digit. */
  function ParseInt(s: string): (r: Option<int>)
  {
    if |s| >= 2 && s[0] == '-' && AllDigits(s[1..]) then Some(-(DecimalValue(s[1..]) as int))
    else if |s| >= 1 && AllDigits(s) then Some(DecimalValue(s))
    else None
  }

  /** ParseInt inverts Str on every integer. */
  lemma {:induction false} StrRoundTrip(i: int)
    ensures ParseInt(Str(i)) == Some(i)
  {
    var s := Str(i);
    if i < 0 {
      DecimalRoundTrip(-i);
      assert s[1..] == NatToDecimal(-i);
    } else {
      DecimalRoundTrip(i);
      assert !IsDigit('-');
    }
  }

  /** Distinct integers print differently. */
  lemma StrInjective(i: int, j: int)
    ensures Str(i) == Str(j) <==> i == j
  {
    StrRoundTrip(i);
    StrRoundTrip(j);
  }
}
