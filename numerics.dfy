/**
 * Numeric groundwork shared by every module of the model.
 *
 * The simulator computes over IEEE doubles; the model computes over `real`.
 * The transcendental functions the source takes from `f64` (sqrt, sin, cos,
 * atan) and the constant pi are not definable over `real`, so they travel as a
 * `Math` record of total functions, and `Lawful` states the few facts about
 * them that the proofs use. The conversions the source does by hand
 * (`round`, `as usize`, `as u16`, `%`) are written out exactly.
 */
module Numerics {

  datatype Option<T> = None | Some(value: T)

  /** The platform's transcendental functions, uninterpreted. */
  datatype Math = Math(
    pi: real,
    sqrt: real -> real,
    sin: real -> real,
    cos: real -> real,
    atan: real -> real)

  /** The record's functions applied, one plain function each. */
  function Sqrt(m: Math, x: real): real { m.sqrt(x) }
  function Sin(m: Math, a: real): real { m.sin(a) }
  function Cos(m: Math, a: real): real { m.cos(a) }
  function Atan(m: Math, x: real): real { m.atan(x) }

  /** The facts about `Math` that the proofs may rely on. */
  ghost predicate Lawful(m: Math) {
    && 3.14 < m.pi < 3.15
    && (forall x :: 0.0 <= x ==> 0.0 <= Sqrt(m, x) && Sqrt(m, x) * Sqrt(m, x) == x)
    && (forall a :: Sin(m, a) * Sin(m, a) + Cos(m, a) * Cos(m, a) == 1.0)
    && (forall a {:trigger Sin(m, -a)} :: Sin(m, -a) == -Sin(m, a))
    && (forall a {:trigger Cos(m, -a)} :: Cos(m, -a) == Cos(m, a))
    && Sin(m, 0.0) == 0.0 && Cos(m, 0.0) == 1.0
    && Sqrt(m, 0.0) == 0.0
    && Sin(m, m.pi / 2.0) == 1.0 && Cos(m, m.pi / 2.0) == 0.0
    && Sin(m, -(m.pi / 2.0)) == -1.0 && Cos(m, -(m.pi / 2.0)) == 0.0
    && Atan(m, 1.0) == m.pi / 4.0 && Atan(m, -1.0) == -m.pi / 4.0
  }

  /** The tangent half-angle substitution, which the extreme angles of the
    * bounding circle are computed with: for `theta = -2 atan(t)`,
    * `cos theta = (1 - t²) / (1 + t²)` and `sin theta = -2t / (1 + t²)`; and the
    * values at a half turn. */
  ghost predicate HalfAngleLawful(m: Math) {
    && (forall t {:trigger Atan(m, t)} ::
          && Cos(m, -2.0 * Atan(m, t)) == (1.0 - t * t) / (1.0 + t * t)
          && Sin(m, -2.0 * Atan(m, t)) == -2.0 * t / (1.0 + t * t))
    && Cos(m, m.pi) == -1.0 && Sin(m, m.pi) == 0.0
  }

  /** `f64::EPSILON`, that is 2^-52. */
  const EPSILON: real := 1.0 / 4503599627370496.0

  function Abs(x: real): (r: real)
    ensures 0.0 <= r && (r == x || r == -x)
  {
    if x < 0.0 then -x else x
  }

  /** The smaller of two values: `min` in star.rs, and `f64::min` on non-NaN values. */
  function Min(a: real, b: real): (r: real)
    ensures r <= a && r <= b
    ensures r == a || r == b
  {
    if a < b then a else b
  }

  /** `f64::round`: the nearest integer, halfway cases rounded away from zero. */
  function Round(x: real): (r: int)
    ensures -0.5 <= x - r as real <= 0.5
    ensures 0.0 <= x ==> 0 <= r && x - r as real < 0.5
    ensures x <= 0.0 ==> r <= 0 && -0.5 < x - r as real
  {
    if 0.0 <= x then (x + 0.5).Floor else -((-x + 0.5).Floor)
  }

  lemma RoundMonotone(x: real, y: real)
    requires x <= y
    ensures Round(x) <= Round(y)
  {
    if 0.0 <= x {
      assert x + 0.5 <= y + 0.5;
    } else if y <= 0.0 {
      assert -y + 0.5 <= -x + 0.5;
    }
  }

  /** Truncation toward zero, as `f64 as isize` does for in-range values. */
  function Trunc(x: real): (r: int)
    ensures 0.0 <= x ==> 0 <= r && r as real <= x < r as real + 1.0
    ensures x <= 0.0 ==> r <= 0 && r as real - 1.0 < x <= r as real
  {
    if 0.0 <= x then x.Floor else -((-x).Floor)
  }

  /** `f64 as usize`: truncation toward zero, negative values saturate at 0. */
  function AsUsize(x: real): (n: nat)
    ensures x < 1.0 ==> n == 0
    ensures 0.0 <= x ==> n as real <= x < n as real + 1.0
  {
    if x <= 0.0 then 0 else x.Floor
  }

  /** `f64 as u16`: truncation toward zero, saturating at both ends of 0..=65535. */
  function AsU16(x: real): (n: nat)
    ensures n <= 65535
    ensures 0.0 <= x < 65535.0 ==> n as real <= x < n as real + 1.0
    ensures x < 1.0 ==> n == 0
    ensures 65535.0 <= x ==> n == 65535
  {
    if x <= 0.0 then 0 else if 65535.0 <= x then 65535 else x.Floor
  }

  /** The `%` operator on `f64` (C's fmod): the remainder takes the sign of the dividend. */
  function FMod(x: real, y: real): real
    requires y != 0.0
  {
    x - Trunc(x / y) as real * y
  }

  /** `x * k == c * k` with `k` not zero gives `x == c`. */
  lemma DivideOut(x: real, c: real, k: real)
    requires k != 0.0 && x * k == c * k
    ensures x == c
  {
    assert x == x * k / k;
    assert c == c * k / k;
  }

  /** A product is zero exactly when a factor is. */
  lemma ProductZero(x: real, k: real)
    ensures x * k == 0.0 <==> x == 0.0 || k == 0.0
  {
    if x * k == 0.0 && k != 0.0 {
      DivideOut(x, 0.0, k);
    }
  }

  /** `x * x`, named so that a square written in two places is the same term. */
  function Square(x: real): real {
    x * x
  }

  lemma ProductNonnegative(a: real, b: real)
    requires 0.0 <= a && 0.0 <= b
    ensures 0.0 <= a * b
  {
    if 0.0 < a && 0.0 < b {
      assert 0.0 < a * b;
    }
  }

  /** Squaring keeps the order of non-negative numbers, strictly and not. */
  lemma SquareMonotone(a: real, b: real)
    requires 0.0 <= a <= b
    ensures a * a <= b * b
    ensures a < b ==> a * a < b * b
  {
    assert b * b - a * a == (b - a) * (b + a);
    if a < b {
      assert 0.0 < b + a;
      assert 0.0 < (b - a) * (b + a);
    }
  }

  /** The root of a non-negative number is the non-negative number whose square
    * it is, and it is zero only for zero. */
  lemma SqrtFacts(m: Math, x: real)
    requires Lawful(m) && 0.0 <= x
    ensures 0.0 <= Sqrt(m, x) && Sqrt(m, x) * Sqrt(m, x) == x
    ensures Sqrt(m, x) == 0.0 <==> x == 0.0
  {
  }

  /** The root of a square of a non-negative number is that number. */
  lemma SqrtOfSquare(m: Math, a: real)
    requires Lawful(m) && 0.0 <= a
    ensures Sqrt(m, a * a) == a
  {
    var r := Sqrt(m, a * a);
    assert 0.0 <= a * a;
    SqrtFacts(m, a * a);
    if r < a {
      SquareMonotone(r, a);
    } else if a < r {
      SquareMonotone(a, r);
    }
  }

  /** Sum of a sequence, first element first. */
  function Sum(s: seq<real>): real
    decreases |s|
  {
    if s == [] then 0.0 else s[0] + Sum(s[1..])
  }

  lemma {:induction false} SumAppend(s: seq<real>, x: real)
    ensures Sum(s + [x]) == Sum(s) + x
    decreases |s|
  {
    if s == [] {
      assert s + [x] == [x];
    } else {
      assert (s + [x])[1..] == s[1..] + [x];
      SumAppend(s[1..], x);
    }
  }

  /** A vector of `n` zeros. */
  function Zeros(n: nat): (z: seq<real>)
    ensures |z| == n && forall i :: 0 <= i < n ==> z[i] == 0.0
  {
    seq(n, _ => 0.0)
  }
}
