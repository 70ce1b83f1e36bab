/** Python floats, as far as the endpoints use them: a division of two whole
    numbers, a product with a whole number, `int()` of the result, and the
    fixed-point text `format(x, '.nf')` prints. A double is kept exactly, as
    a mantissa and a binary exponent; every operation rounds to the nearest
    double, a tie to the even mantissa, as IEEE 754 does. The values met here
    are far from overflow and from subnormals, so those are not modelled. */
module Floats {
  import opened Text

  /** 2 to the power `n`. */
  function Pow2(n: nat): (p: nat)
    ensures p >= 1
  {
    if n == 0 then 1 else 2 * Pow2(n - 1)
  }

  /** 10 to the power `n`. */
  function Pow10(n: nat): (p: nat)
    ensures p >= 1
  {
    if n == 0 then 1 else 10 * Pow10(n - 1)
  }

  /** `n / d` rounded to the nearest integer, a tie to the even one: how IEEE
      arithmetic rounds a mantissa and how Python's `format` rounds digits. */
  function RoundHalfEven(n: nat, d: nat): (r: nat)
    requires d > 0
    ensures r * d <= n + d && n <= r * d + d
  {
    var q := n / d;
    var rem := n % d;
    if 2 * rem > d || (2 * rem == d && q % 2 == 1) then q + 1 else q
  }

  /** The exponent of the leading binary digit of `p / q`: the `e` with
      2^e <= p / q < 2^(e + 1). */
  function Log2Floor(p: nat, q: nat): int
    requires p > 0 && q > 0
    decreases p < q, if p < q then q - p else p - q
  {
    if p < q then Log2Floor(2 * p, q) - 1
    else if p >= 2 * q then Log2Floor(p, 2 * q) + 1
    else 0
  }

  /** A non-negative double: the value mantissa·2^exponent. */
  datatype Double = Double(mantissa: nat, exponent: int)

  /** The double nearest to `p / q` (both positive), with a 53-bit mantissa;
      the mantissa may round up to 2^53. */
  function NearestDouble(p: nat, q: nat): Double
    requires p > 0 && q > 0
  {
    var j := 52 - Log2Floor(p, q);
    if j >= 0 then Double(RoundHalfEven(p * Pow2(j), q), -j)
    else Double(RoundHalfEven(p, q * Pow2(-j)), -j)
  }

  /** `p / q` on Python integers, which rounds the exact quotient once. */
  function Quotient(p: nat, q: nat): Double
    requires q > 0
  {
    if p == 0 then Double(0, 0) else NearestDouble(p, q)
  }

  /** `x * k` for a whole number `k` that is itself a double, as 100 is: the
      exact product rounded once. */
  function Times(x: Double, k: nat): Double
  {
    if x.mantissa == 0 || k == 0 then Double(0, 0)
    else if x.exponent >= 0 then NearestDouble(x.mantissa * k * Pow2(x.exponent), 1)
    else NearestDouble(x.mantissa * k, Pow2(-x.exponent))
  }

  /** `int(x)`, which drops the fraction. */
  function Truncate(x: Double): (n: nat)
    ensures x.exponent >= 0 ==> n == x.mantissa * Pow2(x.exponent)
    ensures x.exponent < 0 ==> n * Pow2(-x.exponent) <= x.mantissa < (n + 1) * Pow2(-x.exponent)
  {
    if x.exponent >= 0 then x.mantissa * Pow2(x.exponent)
    else
      FloorQuotient(x.mantissa, Pow2(-x.exponent));
      x.mantissa / Pow2(-x.exponent)
  }

  /** `x` times `scale` rounded to a whole number, a tie to the even one. */
  function Scaled(x: Double, scale: nat): nat
  {
    if x.exponent >= 0 then x.mantissa * scale * Pow2(x.exponent)
    else RoundHalfEven(x.mantissa * scale, Pow2(-x.exponent))
  }

  /** `format(x, '.nf')` for n = `digits` >= 1: Python rounds the exact binary
      value of `x` to that many decimals, a tie to the even digit. */
  function FixedText(x: Double, digits: nat): (s: string)
    requires digits >= 1
    ensures |s| >= digits + 2
  {
    var p := Pow10(digits);
    var n := Scaled(x, p);
    FloorQuotient(n, p);
    var whole := NatToString(n / p);
    var fraction := ZeroPad(n % p, digits);
    whole + "." + fraction
  }

  /** The quotient brackets the dividend. */
  lemma FloorQuotient(m: int, n: int)
    requires m >= 0 && n > 0
    ensures m / n >= 0
    ensures (m / n) * n <= m < (m / n + 1) * n
  {
  }

  lemma {:induction false} Pow2Add(a: nat, b: nat)
    ensures Pow2(a + b) == Pow2(a) * Pow2(b)
  {
    if a > 0 {
      Pow2Add(a - 1, b);
    }
  }

  lemma Pow2Of16()
    ensures Pow2(16) == 65536
  {
    assert Pow2(8) == 256;
    Pow2Add(8, 8);
  }

  lemma Pow2Of48()
    ensures Pow2(48) == 281474976710656
  {
    Pow2Of16();
    Pow2Add(16, 16);
    Pow2Add(32, 16);
  }

  lemma Pow2Values()
    ensures Pow2(46) == 70368744177664
    ensures Pow2(47) == 140737488355328
    ensures Pow2(48) == 281474976710656
    ensures Pow2(52) == 4503599627370496
    ensures Pow2(53) == 9007199254740992
    ensures Pow2(54) == 18014398509481984
    ensures Pow2(55) == 36028797018963968
  {
    Pow2Of48();
    assert Pow2(2) == 4 && Pow2(4) == 16 && Pow2(7) == 128;
    Pow2Add(46, 2);
    Pow2Add(46, 1);
    Pow2Add(48, 4);
    Pow2Add(48, 5);
    Pow2Add(48, 6);
    Pow2Add(48, 7);
  }
}
