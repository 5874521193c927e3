/** Scalar helpers shared by the whole renderer.
    Floating-point numbers are modelled as exact reals. The operations the renderer takes from
    the platform's maths library are either defined exactly here (floor, round, the float
    remainder operator) or, for the transcendental ones, passed in as function parameters whose
    laws are stated by ghost predicates. */
module Numerics {

  /** An unsigned machine-word index (Rust's `usize`, 64 bits). */
  type usize = n: int | 0 <= n < 0x1_0000_0000_0000_0000

  /** `f64::EPSILON`, the gap between 1.0 and the next larger double: 2^-52. */
  const F64Epsilon: real := 1.0 / 4503599627370496.0

  /** `f32::EPSILON` (2^-23), which is also the approx crate's default epsilon for f32. */
  const F32Epsilon: real := 1.0 / 8388608.0

  function Abs(x: real): (r: real)
    ensures r >= 0.0 && (r == x || r == -x)
  {
    if x < 0.0 then -x else x
  }

  /** Division where the divisor may be zero. The source divides floats, for which a zero
      divisor yields an infinity or NaN; reals have neither, and the model yields 0 there. */
  function Quot(a: real, b: real): (r: real)
    ensures b != 0.0 ==> r * b == a
  {
    if b == 0.0 then 0.0 else a / b
  }

  /** What a square-root function must satisfy. Lemmas that need sqrt's meaning require it. */
  ghost predicate IsSqrt(sqrt: real -> real)
  {
    forall x :: 0.0 <= x ==> 0.0 <= sqrt(x) && sqrt(x) * sqrt(x) == x
  }

  /** Rounding toward zero of a real (the integer part). */
  function Trunc(x: real): (r: int)
    ensures Abs(r as real) <= Abs(x) < Abs(r as real) + 1.0
    ensures x >= 0.0 ==> r >= 0
    ensures x < 0.0 ==> r <= 0
  {
    if x >= 0.0 then x.Floor else -((-x).Floor)
  }

  /** `f32::round`: the nearest integer, ties rounded away from zero. */
  function Round(x: real): (r: int)
    ensures -0.5 <= r as real - x <= 0.5
    ensures x >= 0.0 ==> r as real - x > -0.5
    ensures x < 0.0 ==> r as real - x < 0.5
  {
    if x >= 0.0 then (x + 0.5).Floor else -((0.5 - x).Floor)
  }

  /** Rust's `%` on floats: the remainder of division truncated toward zero, so it takes the
      sign of the dividend (`-1.0 % 2.0 == -1.0`) and does not depend on the divisor's sign. */
  function FRem(a: real, b: real): (r: real)
    requires b != 0.0
    ensures a >= 0.0 ==> 0.0 <= r < Abs(b)
    ensures a < 0.0 ==> -Abs(b) < r <= 0.0
  {
    RemPositive(a, Abs(b))
  }

  /** The truncated remainder for a positive divisor m: a minus the multiple of m obtained by
      truncating a / m. */
  function RemPositive(a: real, m: real): (r: real)
    requires m > 0.0
    ensures a >= 0.0 ==> 0.0 <= r < m
    ensures a < 0.0 ==> -m < r <= 0.0
  {
    var q := a / m;
    var f := q - Trunc(q) as real;
    FractionBounds(q);
    QuotientSign(a, m);
    PositiveMultiple(m, f);
    m * f
  }

  /** What truncation leaves over lies strictly between -1 and 1 and has the sign of x. */
  lemma FractionBounds(x: real)
    ensures -1.0 < x - Trunc(x) as real < 1.0
    ensures x >= 0.0 ==> x - Trunc(x) as real >= 0.0
    ensures x < 0.0 ==> x - Trunc(x) as real <= 0.0
  {
  }

  /** Dividing by a positive number keeps the sign. */
  lemma QuotientSign(a: real, b: real)
    requires b > 0.0
    ensures a >= 0.0 <==> a / b >= 0.0
  {
    assert a == (a / b) * b;
  }

  /** Scaling a fraction of magnitude below one by a positive c stays strictly within c and
      keeps the fraction's sign. */
  lemma PositiveMultiple(c: real, g: real)
    requires c > 0.0 && -1.0 < g < 1.0
    ensures -c < c * g < c
    ensures g >= 0.0 ==> c * g >= 0.0
    ensures g <= 0.0 ==> c * g <= 0.0
  {
    assert c * (g + 1.0) > 0.0;
    assert c * (1.0 - g) > 0.0;
    if g >= 0.0 { assert c * g >= 0.0; } else { assert c * (-g) >= 0.0; }
  }

  /** For an integer dividend and divisor 2, the truncated remainder vanishes exactly on even
      numbers, the same parity test as Euclidean `%`. */
  lemma FRemTwoZeroIffEven(n: int)
    ensures FRem(n as real, 2.0) == 0.0 <==> n % 2 == 0
  {
    var q := n / 2;
    assert n == 2 * q + n % 2;
    if n >= 0 {
      if n % 2 == 0 {
        assert (n as real / 2.0) == q as real;
        assert Trunc(n as real / 2.0) == q;
      } else {
        assert (n as real / 2.0) == q as real + 0.5;
        assert Trunc(n as real / 2.0) == q;
      }
    } else {
      if n % 2 == 0 {
        assert (n as real / 2.0) == q as real;
        assert Trunc(n as real / 2.0) == q;
      } else {
        assert (n as real / 2.0) == q as real + 0.5;
        assert Trunc(n as real / 2.0) == q + 1;
      }
    }
  }
}
