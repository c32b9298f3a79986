/**
 * The C arithmetic the evaluator relies on, written out over unbounded integers:
 * `/` and `%` truncate toward zero (section 6.5.5 of ISO/IEC 9899:1999), while
 * Dafny's own operators are Euclidean; `**` is a repeated-multiplication loop;
 * `atoi` reads the leading decimal digits of a literal.
 */
module CArith {

  function Abs(x: int): nat
  {
    if x < 0 then -x else x
  }

  /** C's `a / b`: the quotient of the magnitudes, negated when the signs differ. */
  function TruncDiv(a: int, b: int): int
    requires b != 0
  {
    var q := Abs(a) / Abs(b);
    if (a < 0) == (b < 0) then q else -q
  }

  /** C's `a % b`: the remainder of the magnitudes, with the sign of the dividend. */
  function TruncMod(a: int, b: int): int
    requires b != 0
  {
    var m := Abs(a) % Abs(b);
    if a < 0 then -m else m
  }

  /** The C99 laws: `(a/b)*b + a%b == a`, the remainder is smaller than the divisor
      in magnitude and never has the opposite sign of `a`, and the quotient is
      rounded toward zero (it never overshoots `a`). */
  lemma TruncDivMod(a: int, b: int)
    requires b != 0
    ensures a == TruncDiv(a, b) * b + TruncMod(a, b)
    ensures Abs(TruncMod(a, b)) < Abs(b)
    ensures a >= 0 ==> TruncMod(a, b) >= 0
    ensures a <= 0 ==> TruncMod(a, b) <= 0
    ensures Abs(TruncDiv(a, b) * b) <= Abs(a)
  {
    var A, B := Abs(a), Abs(b);
    NatDivMod(A, B);
    SignedParts(a, b, A / B, A % B, TruncDiv(a, b), TruncMod(a, b));
  }

  lemma NatDivMod(x: nat, y: nat)
    requires y > 0
    ensures x == (x / y) * y + x % y && 0 <= x % y < y
  {
  }

  /** Re-attaching the signs to the quotient and remainder of the magnitudes. */
  lemma SignedParts(a: int, b: int, q: int, m: int, d: int, r: int)
    requires b != 0 && q >= 0 && m >= 0
    requires Abs(a) == q * Abs(b) + m && m < Abs(b)
    requires d == (if (a < 0) == (b < 0) then q else -q)
    requires r == (if a < 0 then -m else m)
    ensures a == d * b + r
    ensures d * b == (if a < 0 then -(q * Abs(b)) else q * Abs(b))
  {
    if a < 0 && b > 0 {
      assert d * b == (-q) * Abs(b);
    } else if a >= 0 && b < 0 {
      assert d * b == (-q) * -(Abs(b) as int);
    } else if a < 0 && b < 0 {
      assert d * b == q * -(Abs(b) as int);
    }
  }

  /** On non-negative operands truncation and Euclidean division agree. */
  lemma TruncDivNonNegative(a: int, b: int)
    requires a >= 0 && b > 0
    ensures TruncDiv(a, b) == a / b && TruncMod(a, b) == a % b
  {
  }

  /** Truncation is symmetric in sign: negating the dividend negates both results. */
  lemma TruncDivNegate(a: int, b: int)
    requires b != 0
    ensures TruncDiv(-a, b) == -TruncDiv(a, b)
    ensures TruncMod(-a, b) == -TruncMod(a, b)
  {
  }

  /** `base` raised to `exp`, the mathematical power. */
  function IntPow(base: int, exp: nat): int
  {
    if exp == 0 then 1 else base * IntPow(base, exp - 1)
  }

  lemma {:induction false} IntPowAdd(base: int, m: nat, n: nat)
    ensures IntPow(base, m + n) == IntPow(base, m) * IntPow(base, n)
  {
    if m > 0 {
      IntPowAdd(base, m - 1, n);
      calc {
        IntPow(base, m + n);
        base * IntPow(base, (m - 1) + n);
        base * (IntPow(base, m - 1) * IntPow(base, n));
        (base * IntPow(base, m - 1)) * IntPow(base, n);
      }
    }
  }

  /** The `**` loop of the evaluator: `acc` starts at 1 and is multiplied by `left`
      once for each `i` in `0 .. right-1`, so a non-positive exponent gives 1. */
  method Power(left: int, right: int) returns (acc: int)
    ensures right >= 0 ==> acc == IntPow(left, right)
    ensures right <= 0 ==> acc == 1
  {
    acc := 1;
    var i := 0;
    while i < right
      invariant 0 <= i
      invariant i == 0 || i <= right
      invariant acc == IntPow(left, i)
    {
      IntPowAdd(left, i, 1);
      acc := acc * left;
      i := i + 1;
    }
  }

  predicate IsDigit(c: char)
  {
    '0' <= c <= '9'
  }

  predicate AllDigits(s: string)
  {
    forall i :: 0 <= i < |s| ==> IsDigit(s[i])
  }

  function DigitValue(c: char): nat
    requires IsDigit(c)
  {
    (c as int) - ('0' as int)
  }

  function DigitChar(d: nat): (c: char)
    requires d < 10
    ensures IsDigit(c) && DigitValue(c) == d
  {
    ('0' as int + d) as char
  }

  /** The length of the leading run of digits. */
  function DigitRun(s: string): (n: nat)
    ensures n <= |s| && AllDigits(s[..n])
    ensures n < |s| ==> !IsDigit(s[n])
  {
    if s == [] || !IsDigit(s[0]) then 0
    else
      var n := 1 + DigitRun(s[1..]);
      assert s[..n] == [s[0]] + s[1..][..n - 1];
      n
  }

  /** The number a string of decimal digits denotes. */
  function DecimalValue(s: string): nat
    requires AllDigits(s)
  {
    if s == [] then 0 else DecimalValue(s[..|s| - 1]) * 10 + DigitValue(s[|s| - 1])
  }

  /** `atoi` on an integer literal: the value of its leading decimal digits. */
  function Atoi(s: string): nat
  {
    DecimalValue(s[..DigitRun(s)])
  }

  /** The decimal rendering of a natural number, without leading zeros. */
  function Decimal(n: nat): (s: string)
    ensures |s| > 0 && AllDigits(s)
  {
    if n < 10 then [DigitChar(n)] else Decimal(n / 10) + [DigitChar(n % 10)]
  }

  lemma {:induction false} DecimalValueOfDecimal(n: nat)
    ensures DecimalValue(Decimal(n)) == n
  {
    if n >= 10 {
      var s := Decimal(n);
      assert s[..|s| - 1] == Decimal(n / 10);
      DecimalValueOfDecimal(n / 10);
    }
  }

  lemma DigitRunAllDigits(s: string)
    requires AllDigits(s)
    ensures DigitRun(s) == |s|
  {
  }

  /** Reading back a rendered number gives the number: `atoi` inverts `%d`
      on non-negative values. */
  lemma AtoiDecimal(n: nat)
    ensures Atoi(Decimal(n)) == n
  {
    var s := Decimal(n);
    DigitRunAllDigits(s);
    assert s[..|s|] == s;
    DecimalValueOfDecimal(n);
  }

  /** A leading zero does not change the value of a literal. */
  lemma {:induction false} AtoiLeadingZero(s: string)
    requires AllDigits(s)
    ensures Atoi("0" + s) == Atoi(s)
  {
    DigitRunAllDigits(s);
    DigitRunAllDigits("0" + s);
    assert s[..|s|] == s;
    assert ("0" + s)[..|s| + 1] == "0" + s;
    DecimalValueLeadingZero(s);
  }

  lemma {:induction false} DecimalValueLeadingZero(s: string)
    requires AllDigits(s)
    ensures DecimalValue("0" + s) == DecimalValue(s)
  {
    if s != [] {
      var t := "0" + s;
      assert t[..|t| - 1] == "0" + s[..|s| - 1];
      DecimalValueLeadingZero(s[..|s| - 1]);
    }
  }
}
