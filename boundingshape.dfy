/**
 * The bounding shape of a spot at one instant (boundingshape.rs): where on the
 * unit sphere its centre lies, how large it is while it grows or decays, the
 * circle that bounds it, whether it faces the observer, and the walks along a
 * row of the disk grid that find where the row enters and leaves the spot.
 *
 * Coordinates: `x` points at the observer, `y` and `z` span the sky plane, the
 * star is the unit sphere. A sky point `(y, z)` of the disk stands for the
 * visible surface point `(sqrt(1 - y² - z²), y, z)`.
 */
module Shapes {
  import opened Numerics
  import opened Intervals
  import Grids
  import Points
  import Stars
  import Spots

  /** `BoundingShape`. `a` and `b` span the plane of the bounding circle, which
    * is centred on `circleCenter` with radius `circleRadius`. */
  datatype Shape = Shape(
    center: Points.Point,
    circleCenter: Points.Point,
    a: Points.Point,
    b: Points.Point,
    radius: real,
    circleRadius: real,
    maxRadius: real,
    visible: bool,
    gridInterval: real)

  // ---------------------------------------------------------------------------
  // Vector helpers.

  function Dot(u: Points.Point, v: Points.Point): real {
    u.x * v.x + u.y * v.y + u.z * v.z
  }

  function Cross(u: Points.Point, v: Points.Point): Points.Point {
    Points.Point(u.y * v.z - u.z * v.y, u.z * v.x - u.x * v.z, u.x * v.y - u.y * v.x)
  }

  function Scale(u: Points.Point, k: real): Points.Point {
    Points.Point(u.x * k, u.y * k, u.z * k)
  }

  /** The squared distance of a point from the `x` axis. */
  function YZNormSq(u: Points.Point): real {
    u.y * u.y + u.z * u.z
  }

  function DistSq(u: Points.Point, v: Points.Point): real {
    (u.x - v.x) * (u.x - v.x) + (u.y - v.y) * (u.y - v.y) + (u.z - v.z) * (u.z - v.z)
  }

  // ---------------------------------------------------------------------------
  // Growth and decay.

  /** A tenth of the lifetime: how long a mortal spot takes to grow, and to decay. */
  function GrowthTime(lifetime: Bounds): real {
    0.1 * (lifetime.upper - lifetime.lower)
  }

  /** `full * elapsed / growthTime`: the radius a linear ramp reaches after `elapsed`. */
  function Ramp(full: real, elapsed: real, growthTime: real): (r: real)
    requires 0.0 <= elapsed < growthTime
    ensures 0.0 <= full ==> 0.0 <= r <= full
  {
    FractionBelowOne(elapsed, growthTime, full);
    full * elapsed / growthTime
  }

  lemma FractionBelowOne(d: real, g: real, r: real)
    requires 0.0 <= d < g
    ensures 0.0 <= r ==> 0.0 <= r * d / g <= r
  {
    if 0.0 <= r {
      assert r * d <= r * g;
      assert r * d / g <= r * g / g;
    }
  }

  /** The ramp rises with the time elapsed. */
  lemma RampMonotone(full: real, d1: real, d2: real, g: real)
    requires 0.0 <= full && 0.0 <= d1 <= d2 < g
    ensures Ramp(full, d1, g) <= Ramp(full, d2, g)
  {
    ScaledQuotientMonotone(full, d1, d2, g);
  }

  lemma ScaledQuotientMonotone(c: real, x: real, y: real, g: real)
    requires 0.0 <= c && x <= y && 0.0 < g
    ensures c * x / g <= c * y / g
  {
    var q := (c * y - c * x) / g;
    assert c * y - c * x == c * (y - x);
    assert 0.0 <= c * (y - x);
    assert 0.0 <= q;
    assert c * y / g == c * x / g + q;
  }

  /** The radius of a spot at `time`: an immortal spot always has its full radius
    * `maxRadius`. A mortal one living over `[appear, disappear]` grows linearly
    * from nothing over the first tenth of its lifetime and shrinks linearly to
    * nothing over the last tenth, measured as the distance in time from either end. */
  function GrowthRadius(mortality: Spots.Mortality, maxRadius: real, time: real): (r: real)
    ensures mortality.Immortal? ==> r == maxRadius
    ensures 0.0 <= maxRadius ==> 0.0 <= r <= maxRadius
  {
    match mortality
    case Immortal => maxRadius
    case Mortal(lifetime) =>
      var growthTime := GrowthTime(lifetime);
      if Abs(time - lifetime.lower) < growthTime then
        Ramp(maxRadius, Abs(time - lifetime.lower), growthTime)
      else if Abs(time - lifetime.upper) < growthTime then
        Ramp(maxRadius, Abs(time - lifetime.upper), growthTime)
      else maxRadius
  }

  /** A spot with a positive lifetime has no extent when it appears and when it
    * disappears, and its full extent once it has grown and before it decays. */
  lemma GrowthRadiusShape(lifetime: Bounds, maxRadius: real, time: real)
    requires lifetime.lower < lifetime.upper
    ensures GrowthRadius(Spots.Mortal(lifetime), maxRadius, lifetime.lower) == 0.0
    ensures GrowthRadius(Spots.Mortal(lifetime), maxRadius, lifetime.upper) == 0.0
    ensures lifetime.lower + GrowthTime(lifetime) <= time <= lifetime.upper - GrowthTime(lifetime) ==>
      GrowthRadius(Spots.Mortal(lifetime), maxRadius, time) == maxRadius
  {
    assert Abs(lifetime.lower - lifetime.lower) == 0.0;
    assert Abs(lifetime.upper - lifetime.upper) == 0.0;
  }

  /** While growing, over the first tenth of its lifetime, the radius only increases. */
  lemma GrowthRadiusGrows(lifetime: Bounds, maxRadius: real, t1: real, t2: real)
    requires lifetime.lower < lifetime.upper && 0.0 <= maxRadius && t1 <= t2
    requires lifetime.lower <= t1 && t2 < lifetime.lower + GrowthTime(lifetime)
    ensures GrowthRadius(Spots.Mortal(lifetime), maxRadius, t1) <= GrowthRadius(Spots.Mortal(lifetime), maxRadius, t2)
  {
    RampMonotone(maxRadius, Abs(t1 - lifetime.lower), Abs(t2 - lifetime.lower), GrowthTime(lifetime));
  }

  /** While decaying, over the last tenth of its lifetime, the radius only decreases. */
  lemma GrowthRadiusDecays(lifetime: Bounds, maxRadius: real, t1: real, t2: real)
    requires lifetime.lower < lifetime.upper && 0.0 <= maxRadius && t1 <= t2
    requires lifetime.upper - GrowthTime(lifetime) < t1 && t2 <= lifetime.upper
    ensures GrowthRadius(Spots.Mortal(lifetime), maxRadius, t2) <= GrowthRadius(Spots.Mortal(lifetime), maxRadius, t1)
  {
    RampMonotone(maxRadius, Abs(t2 - lifetime.upper), Abs(t1 - lifetime.upper), GrowthTime(lifetime));
  }

  /** Outside its lifetime by more than a tenth of it, a mortal spot has its full
    * radius again: the ramp measures the distance to either end, not the time
    * since the spot appeared. */
  lemma GrowthRadiusOutsideLifetime(lifetime: Bounds, maxRadius: real, time: real)
    requires lifetime.lower < lifetime.upper
    requires time <= lifetime.lower - GrowthTime(lifetime) || lifetime.upper + GrowthTime(lifetime) <= time
    ensures GrowthRadius(Spots.Mortal(lifetime), maxRadius, time) == maxRadius
  {
  }

  // ---------------------------------------------------------------------------
  // Position.

  /** The spot's centre at `time`: its latitude and longitude, advanced by the
    * rotation phase `(time % period) / period` of a full turn, on the unit sphere,
    * tilted by the star's inclination. */
  function Center(m: Math, star: Stars.Star, latitude: real, longitude: real, time: real): (c: Points.Point)
    requires star.period != 0.0
    ensures Lawful(m) ==> Points.NormSq(c) == 1.0
  {
    var phase := FMod(time, star.period) / star.period * 2.0 * m.pi;
    var theta := phase + longitude;
    var phi := m.pi / 2.0 - latitude;
    var p := Points.Point(Sin(m, phi) * Cos(m, theta), Sin(m, phi) * Sin(m, theta), Cos(m, phi));
    var c := Points.RotatedY(m, p, star.inclination - m.pi / 2.0);
    assert Lawful(m) ==> Points.NormSq(c) == 1.0 by {
      if Lawful(m) {
        SphericalUnit(Sin(m, phi), Cos(m, phi), Sin(m, theta), Cos(m, theta));
        Points.RotationKeepsNorm(m, p, star.inclination - m.pi / 2.0);
      }
    }
    c
  }

  /** A point given by the sine and cosine of its polar and azimuthal angles lies on the unit sphere. */
  lemma SphericalUnit(sp: real, cp: real, st: real, ct: real)
    requires sp * sp + cp * cp == 1.0 && st * st + ct * ct == 1.0
    ensures Points.NormSq(Points.Point(sp * ct, sp * st, cp)) == 1.0
  {
    assert (sp * ct) * (sp * ct) + (sp * st) * (sp * st) == (sp * sp) * (st * st + ct * ct);
  }

  // ---------------------------------------------------------------------------
  // The bounding circle.

  /** The first basis vector as written, for the root `s = sqrt(cc.y² + cc.z²)`:
    * no `x` part, `y` part `-cc.z / s`, and for the `z` part the non-negative
    * root that makes it a unit vector. */
  function AsWrittenAxis(m: Math, cc: Points.Point, s: real): (a: Points.Point)
    requires s != 0.0
    ensures a.x == 0.0 && a.y == -cc.z / s
  {
    Points.Point(0.0, -cc.z / s, Sqrt(m, AsWrittenSquare(cc, s)))
  }

  /** `1 - (cc.z / s)²`, the square the as-written `z` part is the root of. */
  function AsWrittenSquare(cc: Points.Point, s: real): real
    requires s != 0.0
  {
    var ay := -cc.z / s;
    1.0 - ay * ay
  }

  /** The first basis vector as intended: `(0, -cc.z, cc.y) / s`. */
  function IntendedAxis(cc: Points.Point, s: real): (a: Points.Point)
    requires s != 0.0
    ensures a.x == 0.0 && a.y == -cc.z / s && a.z == cc.y / s
  {
    Points.Point(0.0, -cc.z / s, cc.y / s)
  }

  /** The basis of the circle's plane as written (`a` from `AsWrittenAxis`, `b = cc × a`).
    * The source divides zero by zero when `cc.y == cc.z == 0` (the root is zero);
    * the model yields `None` there. */
  function BasisAsWritten(m: Math, cc: Points.Point): (ab: Option<(Points.Point, Points.Point)>)
    ensures ab.Some? <==> Sqrt(m, YZNormSq(cc)) != 0.0
    ensures ab.Some? ==> ab.value.0 == AsWrittenAxis(m, cc, Sqrt(m, YZNormSq(cc)))
    ensures ab.Some? ==> ab.value.1 == Cross(cc, ab.value.0)
  {
    var s := Sqrt(m, YZNormSq(cc));
    if s == 0.0 then None
    else
      var a := AsWrittenAxis(m, cc, s);
      Some((a, Cross(cc, a)))
  }

  /** The basis of the circle's plane as intended (`a` from `IntendedAxis`, `b = cc × a`). */
  function Basis(m: Math, cc: Points.Point): (ab: Option<(Points.Point, Points.Point)>)
    ensures ab.Some? <==> Sqrt(m, YZNormSq(cc)) != 0.0
    ensures ab.Some? ==> ab.value.0 == IntendedAxis(cc, Sqrt(m, YZNormSq(cc)))
    ensures ab.Some? ==> ab.value.1 == Cross(cc, ab.value.0)
  {
    var s := Sqrt(m, YZNormSq(cc));
    if s == 0.0 then None
    else
      var a := IntendedAxis(cc, s);
      Some((a, Cross(cc, a)))
  }

  /** The root `sqrt(cc.y² + cc.z²)` of a point off the `x` axis is positive and squares back. */
  lemma AxisRoot(m: Math, cc: Points.Point)
    requires Lawful(m) && YZNormSq(cc) != 0.0
    ensures 0.0 < Sqrt(m, YZNormSq(cc)) && Sqrt(m, YZNormSq(cc)) * Sqrt(m, YZNormSq(cc)) == YZNormSq(cc)
  {
    assert 0.0 <= cc.y * cc.y && 0.0 <= cc.z * cc.z;
    SqrtFacts(m, YZNormSq(cc));
  }

  /** The intended basis is orthogonal: `a` is a unit vector perpendicular to the
    * axis, `b` is perpendicular to both, as long as the axis itself, and its `x`
    * part is `sqrt(cc.y² + cc.z²)`, positive. */
  lemma BasisOrthogonal(m: Math, cc: Points.Point)
    requires Lawful(m) && YZNormSq(cc) != 0.0
    ensures Basis(m, cc).Some?
    ensures var (a, b) := Basis(m, cc).value;
      && Dot(a, cc) == 0.0 && Points.NormSq(a) == 1.0
      && Dot(b, cc) == 0.0 && Dot(a, b) == 0.0
      && Points.NormSq(b) == Points.NormSq(cc)
      && b.x == Sqrt(m, YZNormSq(cc)) && 0.0 < b.x
  {
    AxisRoot(m, cc);
    AxisBasis(cc, Sqrt(m, YZNormSq(cc)));
  }

  /** The algebra behind `BasisOrthogonal`, for any `s` with `s² = cc.y² + cc.z²`. */
  lemma AxisBasis(cc: Points.Point, s: real)
    requires 0.0 < s && s * s == YZNormSq(cc)
    ensures var a := IntendedAxis(cc, s);
      var b := Cross(cc, a);
      && Dot(a, cc) == 0.0 && Points.NormSq(a) == 1.0
      && Dot(b, cc) == 0.0 && Dot(a, b) == 0.0
      && Points.NormSq(b) == Points.NormSq(cc)
      && b.x == s
  {
    var a := IntendedAxis(cc, s);
    UnitAxis(cc.y, cc.z, s);
    CrossOrthogonal(cc, a);
    LagrangeIdentity(cc, a);
  }

  /** `(0, -z, y) / s` is a unit vector perpendicular to `(·, y, z)` when
    * `s² = y² + z²`, and `y * (y/s) - z * (-z/s) == s`. */
  lemma UnitAxis(y: real, z: real, s: real)
    requires s != 0.0 && s * s == y * y + z * z
    ensures (-z / s) * (-z / s) + (y / s) * (y / s) == 1.0
    ensures y * (y / s) - z * (-z / s) == s
    ensures (-z / s) * y + (y / s) * z == 0.0
  {
    var u, v := -z / s, y / s;
    assert u * s == -z && v * s == y;
    var t := u * u + v * v;
    assert t * (s * s) == (u * s) * (u * s) + (v * s) * (v * s);
    ProductZero(s, s);
    DivideOut(t, 1.0, s * s);
    assert (y * v - z * u) * s == y * (v * s) - z * (u * s);
    DivideOut(y * v - z * u, s, s);
    assert (u * y + v * z) * s == (u * s) * y + (v * s) * z;
    ProductZero(u * y + v * z, s);
  }

  /** The cross product is perpendicular to both its factors. */
  lemma CrossOrthogonal(u: Points.Point, v: Points.Point)
    ensures Dot(Cross(u, v), u) == 0.0 && Dot(v, Cross(u, v)) == 0.0
  {
  }

  /** `|u × v|² = |u|² |v|² - (u · v)²`. */
  lemma LagrangeIdentity(u: Points.Point, v: Points.Point)
    ensures Points.NormSq(Cross(u, v)) == Points.NormSq(u) * Points.NormSq(v) - Dot(u, v) * Dot(u, v)
  {
  }

  /** Where `cc.y` is not negative, the basis as written is the intended one. */
  lemma BasisAsWrittenAgrees(m: Math, cc: Points.Point)
    requires Lawful(m) && YZNormSq(cc) != 0.0 && 0.0 <= cc.y
    ensures BasisAsWritten(m, cc) == Basis(m, cc)
  {
    AxisRoot(m, cc);
    AsWrittenRoot(m, cc, Sqrt(m, YZNormSq(cc)));
  }

  /** Where `cc.y` is negative (and `cc.z` is not zero), the `a` written in the
    * source is not perpendicular to the axis: it takes the root `-cc.y / s` where
    * the intended vector has `cc.y / s`. */
  lemma BasisAsWrittenSkewed(m: Math, cc: Points.Point)
    requires Lawful(m) && cc.y < 0.0 && cc.z != 0.0
    ensures BasisAsWritten(m, cc).Some? && Dot(BasisAsWritten(m, cc).value.0, cc) != 0.0
  {
    PositiveOffAxis(cc);
    AxisRoot(m, cc);
    var s := Sqrt(m, YZNormSq(cc));
    AsWrittenRoot(m, cc, s);
    SkewAlgebra(cc.y, cc.z, s);
  }

  /** A point with a non-zero `y` part is off the `x` axis. */
  lemma PositiveOffAxis(cc: Points.Point)
    requires cc.y != 0.0
    ensures 0.0 < YZNormSq(cc)
  {
    var y := if cc.y < 0.0 then -cc.y else cc.y;
    SquareMonotone(0.0, y);
    assert cc.y * cc.y == y * y;
    assert 0.0 <= cc.z * cc.z;
  }

  /** The `z` part of `a` as written is `|cc.y| / s`: the intended `a` when
    * `cc.y` is not negative, its mirror image in the `x`-`y` plane otherwise. */
  lemma AsWrittenRoot(m: Math, cc: Points.Point, s: real)
    requires Lawful(m) && 0.0 < s && s * s == YZNormSq(cc)
    ensures 0.0 <= cc.y ==> AsWrittenAxis(m, cc, s) == IntendedAxis(cc, s)
    ensures cc.y < 0.0 ==> AsWrittenAxis(m, cc, s).z == -cc.y / s
  {
    SquareOfAxis(cc, s);
    if 0.0 <= cc.y {
      RootOf(m, AsWrittenSquare(cc, s), cc.y / s);
    } else {
      RootOf(m, AsWrittenSquare(cc, s), -cc.y / s);
    }
  }

  /** `1 - (cc.z / s)²` is `(cc.y / s)²`, which is also `(-cc.y / s)²`. */
  lemma SquareOfAxis(cc: Points.Point, s: real)
    requires 0.0 < s && s * s == YZNormSq(cc)
    ensures AsWrittenSquare(cc, s) == (cc.y / s) * (cc.y / s) == (-cc.y / s) * (-cc.y / s)
  {
    SkewAlgebra(cc.y, cc.z, s);
  }

  /** `sqrt(x) == a` for `x == a²`, `a` non-negative. */
  lemma RootOf(m: Math, x: real, a: real)
    requires Lawful(m) && 0.0 <= a && x == a * a
    ensures Sqrt(m, x) == a
  {
    SqrtOfSquare(m, a);
  }

  /** The algebra of the as-written root: `1 - (z/s)² = (y/s)² = (-y/s)²`, and
    * taking `-y/s` for the `z` part leaves a dot product of `-2yz/s` with the axis. */
  lemma SkewAlgebra(y: real, z: real, s: real)
    requires 0.0 < s && s * s == y * y + z * z
    ensures 1.0 - (-z / s) * (-z / s) == (y / s) * (y / s)
    ensures 1.0 - (-z / s) * (-z / s) == (-y / s) * (-y / s)
    ensures 0.0 <= y ==> 0.0 <= y / s
    ensures y < 0.0 ==> 0.0 < -y / s
    ensures y != 0.0 && z != 0.0 ==> 0.0 * 0.0 + (-z / s) * y + (-y / s) * z != 0.0
  {
    UnitAxis(y, z, s);
    assert (-y / s) * (-y / s) == (y / s) * (y / s);
    var d := (-z / s) * y + (-y / s) * z;
    assert d * s == ((-z / s) * s) * y + ((-y / s) * s) * z;
    assert d * s == -2.0 * (y * z);
    ProductZero(d, s);
    ProductZero(y, z);
  }

  /** The circle centre `(0.8, -0.3, 0.4)` (at distance 0.5 from the `x` axis) gets,
    * as written, `a = (0, -0.8, 0.6)`, at a dot product of 0.48 with the axis;
    * the intended `a` is `(0, -0.8, -0.6)`. */
  lemma BasisAsWrittenExample(m: Math)
    requires Lawful(m)
    ensures BasisAsWritten(m, Points.Point(0.8, -0.3, 0.4)).Some?
    ensures BasisAsWritten(m, Points.Point(0.8, -0.3, 0.4)).value.0 == Points.Point(0.0, -0.8, 0.6)
    ensures Dot(Points.Point(0.0, -0.8, 0.6), Points.Point(0.8, -0.3, 0.4)) == 0.48
    ensures Basis(m, Points.Point(0.8, -0.3, 0.4)).value.0 == Points.Point(0.0, -0.8, -0.6)
  {
    SqrtOfSquare(m, 0.5);
    assert Sqrt(m, 0.25) == 0.5;
    assert -0.4 / 0.5 == -0.8;
    SqrtOfSquare(m, 0.6);
    assert Sqrt(m, 0.36) == 0.6;
  }

  /** `-2 atan((a - sqrt(a² + b²)) / b)` (or with `+`): the angle along the circle
    * at which a coordinate with parts `a` and `b` in the basis is extreme. */
  function ExtremeAngle(m: Math, a: real, b: real, plus: bool): real
    requires b != 0.0
  {
    -2.0 * Atan(m, ExtremeRatio(m, a, b, plus))
  }

  /** `(a ∓ sqrt(a² + b²)) / b`, the argument of the arc tangent in `ExtremeAngle`. */
  function ExtremeRatio(m: Math, a: real, b: real, plus: bool): real
    requires b != 0.0
  {
    var root := Sqrt(m, SumSq(a, b));
    (if plus then a + root else a - root) / b
  }

  function SumSq(a: real, b: real): real {
    a * a + b * b
  }

  /** The `x` coordinate of the circle's point at angle `theta`. */
  function CircleX(m: Math, cc: Points.Point, cr: real, a: Points.Point, b: Points.Point, theta: real): real {
    cc.x + cr * (Cos(m, theta) * a.x + Sin(m, theta) * b.x)
  }

  /** Whether the spot faces the observer: either extreme `x` of the bounding
    * circle is positive. A zero `b.x` makes the source divide by zero and every
    * comparison with the result fail: not visible. */
  function Visible(m: Math, cc: Points.Point, cr: real, a: Points.Point, b: Points.Point): bool {
    if b.x == 0.0 then false
    else
      var x1 := CircleX(m, cc, cr, a, b, ExtremeAngle(m, a.x, b.x, false));
      var x2 := CircleX(m, cc, cr, a, b, ExtremeAngle(m, a.x, b.x, true));
      x1 > 0.0 || x2 > 0.0
  }

  /** With `a == 0` the extreme angles are a quarter turn, one each way: the
    * `-` root gives `+π/2` for positive `b`, the `+` root `-π/2`, and the other
    * way round for negative `b`. */
  lemma ExtremeAngleOnAxis(m: Math, bx: real, plus: bool)
    requires Lawful(m) && bx != 0.0
    ensures ExtremeAngle(m, 0.0, bx, plus) == if (0.0 < bx) == plus then -(m.pi / 2.0) else m.pi / 2.0
  {
    RatioOnAxis(m, bx, plus);
  }

  /** With `a == 0` the ratio is `±|b| / b`, one or minus one. */
  lemma RatioOnAxis(m: Math, bx: real, plus: bool)
    requires Lawful(m) && bx != 0.0
    ensures ExtremeRatio(m, 0.0, bx, plus) == if (0.0 < bx) == plus then 1.0 else -1.0
  {
    assert SumSq(0.0, bx) == Abs(bx) * Abs(bx);
    RootOf(m, SumSq(0.0, bx), Abs(bx));
    if 0.0 < bx {
      assert (0.0 + bx) / bx == 1.0 && (0.0 - bx) / bx == -1.0;
    } else {
      assert (0.0 + -bx) / bx == -1.0 && (0.0 - -bx) / bx == 1.0;
    }
  }

  /** On the circle with `a.x == 0`, the quarter turns reach `x = cc.x ± cr b.x`. */
  lemma CircleXQuarter(m: Math, cc: Points.Point, cr: real, a: Points.Point, b: Points.Point)
    requires Lawful(m) && a.x == 0.0
    ensures CircleX(m, cc, cr, a, b, m.pi / 2.0) == cc.x + cr * b.x
    ensures CircleX(m, cc, cr, a, b, -(m.pi / 2.0)) == cc.x - cr * b.x
  {
  }

  /** With `a.x == 0` the two extreme angles are a quarter turn either way, so the
    * test asks whether the circle's largest `x`, `cc.x + cr |b.x|`, is positive. */
  lemma VisibleMeaning(m: Math, cc: Points.Point, cr: real, a: Points.Point, b: Points.Point)
    requires Lawful(m) && a.x == 0.0 && b.x != 0.0 && 0.0 <= cr
    ensures Visible(m, cc, cr, a, b) <==> cc.x + cr * Abs(b.x) > 0.0
  {
    ExtremeAngleOnAxis(m, b.x, false);
    ExtremeAngleOnAxis(m, b.x, true);
    CircleXQuarter(m, cc, cr, a, b);
    assert cr * Abs(b.x) == if 0.0 < b.x then cr * b.x else -(cr * b.x);
    assert 0.0 <= cr * Abs(b.x);
  }

  // ---------------------------------------------------------------------------
  // The shape.

  /** The interval between grid rows, `2 / grid_size`. */
  function GridInterval(star: Stars.Star): (g: real)
    requires 0 < star.gridSize
    ensures 0.0 < g
  {
    2.0 / star.gridSize as real
  }

  /** `sqrt(1 - radius²)`: how far below the surface the bounding circle's plane lies,
    * as a fraction of the way from the centre of the star. */
  function Depth(m: Math, radius: real): real {
    Sqrt(m, DepthSquare(radius))
  }

  function DepthSquare(radius: real): real {
    1.0 - radius * radius
  }

  /** `sqrt(radius² - (1 - depth)²)`: the radius of the bounding circle. */
  function CircleRadius(m: Math, radius: real): real {
    Sqrt(m, CircleRadiusSquare(radius, Depth(m, radius)))
  }

  function CircleRadiusSquare(radius: real, depth: real): real {
    radius * radius - (1.0 - depth) * (1.0 - depth)
  }

  /** For a radius no larger than the star's, the depth lies in `[0, 1]` and the
    * circle's radius is a real number, `sqrt(2 depth (1 - depth))`. */
  lemma CircleRadiusReal(m: Math, radius: real)
    requires Lawful(m) && 0.0 <= DepthSquare(radius)
    ensures 0.0 <= Depth(m, radius) <= 1.0
    ensures 0.0 <= CircleRadius(m, radius)
    ensures CircleRadius(m, radius) * CircleRadius(m, radius) == 2.0 * Depth(m, radius) * (1.0 - Depth(m, radius))
  {
    var d := Depth(m, radius);
    SqrtFacts(m, DepthSquare(radius));
    assert 0.0 <= radius * radius;
    if 1.0 < d {
      SquareMonotone(1.0, d);
      assert false;
    }
    CircleAlgebra(radius, d);
    SqrtFacts(m, CircleRadiusSquare(radius, d));
  }

  /** With `depth² = 1 - radius²` and `0 <= depth <= 1`,
    * `radius² - (1 - depth)² = 2 depth (1 - depth)`, which is not negative. */
  lemma CircleAlgebra(radius: real, d: real)
    requires 0.0 <= d <= 1.0 && d * d == 1.0 - radius * radius
    ensures CircleRadiusSquare(radius, d) == 2.0 * d * (1.0 - d)
    ensures 0.0 <= CircleRadiusSquare(radius, d)
  {
    ProductNonnegative(d, 1.0 - d);
  }

  /** `BoundingShape::new`, with the intended basis. A radius beyond the star's
    * (`radius² > 1`) or a circle centred on the `x` axis makes the source compute
    * NaN and hence an invisible shape; the model says `visible == false` there and
    * puts zero vectors in `a` and `b`, which nothing reads for an invisible shape. */
  function New(m: Math, spot: Spots.Spot, time: real): (s: Shape)
    requires spot.star.period != 0.0 && 0 < spot.star.gridSize
    ensures s.maxRadius == spot.radius && s.radius == GrowthRadius(spot.mortality, spot.radius, time)
    ensures s.center == Center(m, spot.star, spot.latitude, spot.longitude, time)
    ensures s.circleCenter == Scale(s.center, Depth(m, s.radius))
    ensures s.circleRadius == CircleRadius(m, s.radius)
    ensures s.gridInterval == GridInterval(spot.star) && 0.0 < s.gridInterval
    ensures s.a.x == 0.0
    ensures s.visible ==> 0.0 <= DepthSquare(s.radius)
    ensures s.visible ==> Basis(m, s.circleCenter).Some?
    ensures s.visible ==> Basis(m, s.circleCenter).value.0 == s.a && Basis(m, s.circleCenter).value.1 == s.b
    ensures s.visible ==> Visible(m, s.circleCenter, s.circleRadius, s.a, s.b)
    ensures 0.0 <= DepthSquare(s.radius) && Basis(m, s.circleCenter).Some? ==>
      s.visible == Visible(m, s.circleCenter, s.circleRadius, Basis(m, s.circleCenter).value.0, Basis(m, s.circleCenter).value.1)
  {
    var radius := GrowthRadius(spot.mortality, spot.radius, time);
    var center := Center(m, spot.star, spot.latitude, spot.longitude, time);
    var circleRadius := CircleRadius(m, radius);
    var circleCenter := Scale(center, Depth(m, radius));
    var origin := Points.Point(0.0, 0.0, 0.0);
    var basis := Basis(m, circleCenter);
    if DepthSquare(radius) < 0.0 || basis.None? then
      Shape(center, circleCenter, origin, origin, radius, circleRadius, spot.radius, false, GridInterval(spot.star))
    else
      var a := basis.value.0;
      var b := basis.value.1;
      var visible := Visible(m, circleCenter, circleRadius, a, b);
      Shape(center, circleCenter, a, b, radius, circleRadius, spot.radius, visible, GridInterval(spot.star))
  }

  /** A visible shape's centre is on the unit sphere, its basis is orthogonal and
    * orthogonal to the circle's axis, `b` has a positive `x` part, and the
    * circle's point of largest `x`, `circleCenter + circleRadius b`, faces the observer. */
  lemma NewGeometry(m: Math, spot: Spots.Spot, time: real)
    requires Lawful(m) && spot.star.period != 0.0 && 0 < spot.star.gridSize
    ensures var s := New(m, spot, time);
      && Points.NormSq(s.center) == 1.0
      && (s.visible ==>
        && Dot(s.a, s.circleCenter) == 0.0 && Points.NormSq(s.a) == 1.0
        && Dot(s.b, s.circleCenter) == 0.0 && Dot(s.a, s.b) == 0.0
        && 0.0 < s.b.x && s.circleCenter.x + s.circleRadius * s.b.x > 0.0)
  {
    var s := New(m, spot, time);
    if s.visible {
      CircleRadiusReal(m, s.radius);
      BasisOrthogonal(m, s.circleCenter);
      VisibleMeaning(m, s.circleCenter, s.circleRadius, s.a, s.b);
    }
  }

  /** The `visible` flag boundingshape.rs computes for a circle centred on `cc`
    * with radius `cr`, from the basis as written; no basis (zero divided by zero)
    * and a zero `b.x` (a division by zero in the extreme angles) both make it false. */
  function VisibleAsWrittenAt(m: Math, cc: Points.Point, cr: real): bool {
    match BasisAsWritten(m, cc)
    case None => false
    case Some((a, b)) => Visible(m, cc, cr, a, b)
  }

  /** The `visible` flag boundingshape.rs computes for the shape's circle: a
    * radius beyond the star's makes the depth NaN, and the shape invisible. */
  function VisibleAsWritten(m: Math, s: Shape): bool {
    0.0 <= DepthSquare(s.radius) && VisibleAsWrittenAt(m, s.circleCenter, s.circleRadius)
  }

  /** The `x` part of `b` in the basis as written is `(cc.z² + cc.y |cc.y|) / s`:
    * the intended `s` where `cc.y >= 0`, and `(cc.z² - cc.y²) / s`, smaller in
    * size, where `cc.y < 0`. */
  lemma BasisAsWrittenBx(m: Math, cc: Points.Point)
    requires Lawful(m) && YZNormSq(cc) != 0.0
    ensures BasisAsWritten(m, cc).Some?
    ensures var s := Sqrt(m, YZNormSq(cc));
      BasisAsWritten(m, cc).value.1.x * s == cc.z * cc.z + cc.y * Abs(cc.y)
    ensures var s := Sqrt(m, YZNormSq(cc));
      Abs(BasisAsWritten(m, cc).value.1.x) <= s
  {
    AxisRoot(m, cc);
    var s := Sqrt(m, YZNormSq(cc));
    AsWrittenRoot(m, cc, s);
    assert AsWrittenAxis(m, cc, s).z == Abs(cc.y) / s;
    WrittenBxTimesRoot(m, cc, s);
    SignedSquares(cc);
    BelowRoot(BasisAsWritten(m, cc).value.1.x, s, cc.z * cc.z + cc.y * Abs(cc.y), YZNormSq(cc));
  }

  /** `b.x s = cc.z² + cc.y |cc.y|` for the basis as written, whose `a.z` is `|cc.y| / s`. */
  lemma WrittenBxTimesRoot(m: Math, cc: Points.Point, s: real)
    requires 0.0 < s && s == Sqrt(m, YZNormSq(cc)) && AsWrittenAxis(m, cc, s).z == Abs(cc.y) / s
    ensures BasisAsWritten(m, cc).Some?
    ensures BasisAsWritten(m, cc).value.1.x * s == cc.z * cc.z + cc.y * Abs(cc.y)
  {
    var a := AsWrittenAxis(m, cc, s);
    var bx := BasisAsWritten(m, cc).value.1.x;
    assert bx == cc.y * a.z - cc.z * a.y;
    WrittenBxAlgebra(cc.y, cc.z, s, a.y, a.z, bx);
  }

  /** `z² + y |y|` lies within `±(y² + z²)`. */
  lemma SignedSquares(cc: Points.Point)
    ensures -YZNormSq(cc) <= cc.z * cc.z + cc.y * Abs(cc.y) <= YZNormSq(cc)
  {
    assert 0.0 <= cc.z * cc.z && 0.0 <= cc.y * cc.y;
    if cc.y < 0.0 {
      assert cc.y * Abs(cc.y) == -(cc.y * cc.y);
    } else {
      assert cc.y * Abs(cc.y) == cc.y * cc.y;
    }
  }

  /** `(y az - z ay) s = z² + y |y|` for `ay = -z / s` and `az = |y| / s`. */
  lemma WrittenBxAlgebra(y: real, z: real, s: real, ay: real, az: real, bx: real)
    requires s != 0.0 && ay == -z / s && az == Abs(y) / s && bx == y * az - z * ay
    ensures bx * s == z * z + y * Abs(y)
  {
    assert ay * s == -z && az * s == Abs(y);
    assert bx * s == y * (az * s) - z * (ay * s);
  }

  /** `|x| <= s` from `x s = v` with `|v| <= s²`, `s` positive. */
  lemma BelowRoot(x: real, s: real, v: real, q: real)
    requires 0.0 < s && s * s == q && x * s == v && -q <= v <= q
    ensures Abs(x) <= s
  {
    assert Abs(x) * s == Abs(v);
    ScaleCancel(Abs(x), s, s);
  }

  /** `a s <= b s` with `s` positive gives `a <= b`. */
  lemma ScaleCancel(a: real, b: real, s: real)
    requires 0.0 < s && a * s <= b * s
    ensures a <= b
  {
    var d := b * s - a * s;
    assert d == (b - a) * s;
    assert b - a == d / s;
  }

  /** The written `visible` is never true where the model's is false, and agrees
    * with it where the circle's centre has `cc.y >= 0`. */
  lemma NewVisibleAsWritten(m: Math, spot: Spots.Spot, time: real)
    requires Lawful(m) && spot.star.period != 0.0 && 0 < spot.star.gridSize
    ensures var s := New(m, spot, time); VisibleAsWritten(m, s) ==> s.visible
    ensures var s := New(m, spot, time); 0.0 <= s.circleCenter.y ==> s.visible == VisibleAsWritten(m, s)
  {
    var s := New(m, spot, time);
    var cc, cr := s.circleCenter, s.circleRadius;
    if 0.0 <= DepthSquare(s.radius) {
      CircleRadiusReal(m, s.radius);
      if YZNormSq(cc) != 0.0 {
        AxisRoot(m, cc);
        VisibleAsWrittenAtImplies(m, cc, cr);
      }
    }
  }

  /** For a circle off the `x` axis with a real radius, the written `visible` is
    * never true where the intended one is false, and the two agree for `cc.y >= 0`. */
  lemma VisibleAsWrittenAtImplies(m: Math, cc: Points.Point, cr: real)
    requires Lawful(m) && YZNormSq(cc) != 0.0 && 0.0 <= cr
    ensures Basis(m, cc).Some?
    ensures VisibleAsWrittenAt(m, cc, cr) ==> Visible(m, cc, cr, Basis(m, cc).value.0, Basis(m, cc).value.1)
    ensures 0.0 <= cc.y ==> VisibleAsWrittenAt(m, cc, cr) == Visible(m, cc, cr, Basis(m, cc).value.0, Basis(m, cc).value.1)
  {
    AxisRoot(m, cc);
    BasisOrthogonal(m, cc);
    BasisAsWrittenBx(m, cc);
    var aw := BasisAsWritten(m, cc).value.0;
    var bw := BasisAsWritten(m, cc).value.1;
    var ai := Basis(m, cc).value.0;
    var bi := Basis(m, cc).value.1;
    VisibleMeaning(m, cc, cr, ai, bi);
    if bw.x != 0.0 {
      VisibleMeaning(m, cc, cr, aw, bw);
      WiderReach(cc.x, cr, Abs(bw.x), bi.x);
    }
    if 0.0 <= cc.y {
      BasisAsWrittenAgrees(m, cc);
    }
  }

  /** No basis exists for a circle centred on the `x` axis. */
  lemma AxisRoot0(m: Math, cc: Points.Point)
    requires Lawful(m) && YZNormSq(cc) == 0.0
    ensures BasisAsWritten(m, cc).None? && Basis(m, cc).None?
  {
  }

  /** A larger reach `b >= w` keeps a positive largest `x` positive. */
  lemma WiderReach(x: real, cr: real, w: real, b: real)
    requires 0.0 <= cr && w <= b
    ensures x + cr * w > 0.0 ==> x + cr * b > 0.0
  {
    ProductNonnegative(cr, b - w);
  }

  /** A spot the model sees and the source does not: the circle at depth 8/9 below
    * the surface point `(-0.28, -0.576, 0.768)`, whose radius at that depth is
    * 4/9. Its intended `b.x` is 7.68/9, which puts the largest `x` at 10.56/81;
    * the written `b.x` is 2.1504/9, which puts it at -11.5584/81. */
  lemma VisibleAsWrittenExample(m: Math)
    requires Lawful(m)
    ensures var cc := Points.Point(-2.24 / 9.0, -4.608 / 9.0, 6.144 / 9.0);
      && Basis(m, cc).Some?
      && Visible(m, cc, 4.0 / 9.0, Basis(m, cc).value.0, Basis(m, cc).value.1)
      && !VisibleAsWrittenAt(m, cc, 4.0 / 9.0)
    ensures 2.0 * (8.0 / 9.0) * (1.0 - 8.0 / 9.0) == (4.0 / 9.0) * (4.0 / 9.0)
    ensures Points.NormSq(Points.Point(-0.28, -0.576, 0.768)) == 1.0
  {
    var cc := Points.Point(-2.24 / 9.0, -4.608 / 9.0, 6.144 / 9.0);
    var s := 7.68 / 9.0;
    assert Sqrt(m, YZNormSq(cc)) == s by {
      assert YZNormSq(cc) == s * s;
      SqrtOfSquare(m, s);
    }
    ExampleIntendedVisible(m, cc, s);
    ExampleWrittenInvisible(m, cc, s);
  }

  lemma ExampleIntendedVisible(m: Math, cc: Points.Point, s: real)
    requires Lawful(m) && cc == Points.Point(-2.24 / 9.0, -4.608 / 9.0, 6.144 / 9.0)
    requires s == 7.68 / 9.0 && Sqrt(m, YZNormSq(cc)) == s
    ensures Basis(m, cc).Some? && Visible(m, cc, 4.0 / 9.0, Basis(m, cc).value.0, Basis(m, cc).value.1)
  {
    var a := Basis(m, cc).value.0;
    var b := Basis(m, cc).value.1;
    assert a.x == 0.0 && b.x == s by {
      BasisOrthogonal(m, cc);
    }
    assert cc.x + 4.0 / 9.0 * Abs(b.x) == 10.56 / 81.0;
    VisibleMeaning(m, cc, 4.0 / 9.0, a, b);
  }

  lemma ExampleWrittenInvisible(m: Math, cc: Points.Point, s: real)
    requires Lawful(m) && cc == Points.Point(-2.24 / 9.0, -4.608 / 9.0, 6.144 / 9.0)
    requires s == 7.68 / 9.0 && Sqrt(m, YZNormSq(cc)) == s
    ensures !VisibleAsWrittenAt(m, cc, 4.0 / 9.0)
  {
    BasisAsWrittenBx(m, cc);
    var (a, b) := BasisAsWritten(m, cc).value;
    assert b.x == 2.1504 / 9.0 by {
      assert b.x * s == 16.515072 / 81.0;
      DivideOut(b.x, 2.1504 / 9.0, s);
    }
    VisibleMeaning(m, cc, 4.0 / 9.0, a, b);
  }

  /** `cos theta * a + sin theta * b`: a coordinate whose parts in the circle's
    * basis are `a` and `b`, at angle `theta` along the circle, relative to the
    * circle's centre and radius. */
  function Along(m: Math, a: real, b: real, theta: real): real {
    Cos(m, theta) * a + Sin(m, theta) * b
  }

  /** `c + r along`: a coordinate of a circle's point, from the centre's coordinate `c`. */
  function OnCircle(c: real, r: real, along: real): real {
    c + r * along
  }

  /** The `y` coordinate of the bounding circle's point at angle `theta`. */
  function CircleY(m: Math, s: Shape, theta: real): real {
    OnCircle(s.circleCenter.y, s.circleRadius, Along(m, s.a.y, s.b.y, theta))
  }

  /** How far the bounding circle reaches from its centre in `y`:
    * `circleRadius sqrt(a.y² + b.y²)`. */
  function YReach(m: Math, s: Shape): real {
    s.circleRadius * Sqrt(m, SumSq(s.a.y, s.b.y))
  }

  /** The two angles `y_bounds` takes as the extremes of `y`: from the `+` and the
    * `-` root, or zero and a half turn when `b.y == 0`. */
  function YExtremeAngles(m: Math, s: Shape): (real, real) {
    if s.b.y != 0.0 then (ExtremeAngle(m, s.a.y, s.b.y, true), ExtremeAngle(m, s.a.y, s.b.y, false))
    else (0.0, m.pi)
  }

  /** `BoundingShape::y_bounds`: nothing for a shape that does not face the observer;
    * otherwise the `y` extent of the bounding circle, from the two extreme angles
    * of `y`, unless both of the matching `x` values, which the source forms from
    * the `y` parts of `a` and `b`, are negative. */
  function YBounds(m: Math, s: Shape): (r: Option<Bounds>)
    ensures !s.visible ==> r.None?
    ensures r.Some? ==> r.value.lower <= r.value.upper
    ensures r.Some? ==> r.value == Intervals.New(CircleY(m, s, YExtremeAngles(m, s).0), CircleY(m, s, YExtremeAngles(m, s).1))
  {
    if !s.visible then None
    else
      var (thetaMin, thetaMax) := YExtremeAngles(m, s);
      var alongMax := Along(m, s.a.y, s.b.y, thetaMax);
      var alongMin := Along(m, s.a.y, s.b.y, thetaMin);
      var yMax := OnCircle(s.circleCenter.y, s.circleRadius, alongMax);
      var yMin := OnCircle(s.circleCenter.y, s.circleRadius, alongMin);
      var xMax := OnCircle(s.circleCenter.x, s.circleRadius, alongMax);
      var xMin := OnCircle(s.circleCenter.x, s.circleRadius, alongMin);
      if xMin < 0.0 && xMax < 0.0 then None else Some(Intervals.New(yMin, yMax))
  }

  /** The `y` bounds are the bounding circle's extent in `y`: with
    * `R = sqrt(a.y² + b.y²)` they are `circleCenter.y ∓ circleRadius R`, no point
    * of the circle lies outside them, and the circle reaches both. */
  lemma YBoundsExtent(m: Math, s: Shape)
    requires Lawful(m) && HalfAngleLawful(m) && 0.0 <= s.circleRadius
    ensures var r := YBounds(m, s);
      r.Some? ==> r.value == Bounds(s.circleCenter.y - YReach(m, s), s.circleCenter.y + YReach(m, s))
    ensures var r := YBounds(m, s);
      r.Some? ==> forall theta :: r.value.lower <= CircleY(m, s, theta) <= r.value.upper
    ensures var r := YBounds(m, s);
      r.Some? ==>
        (exists theta :: CircleY(m, s, theta) == r.value.lower) &&
        (exists theta :: CircleY(m, s, theta) == r.value.upper)
  {
    var r := YBounds(m, s);
    if r.Some? {
      var A, B := s.a.y, s.b.y;
      var R := Sqrt(m, SumSq(A, B));
      var y, cr := s.circleCenter.y, s.circleRadius;
      assert YReach(m, s) == cr * R;
      var t0 := YExtremeAngles(m, s).0;
      var t1 := YExtremeAngles(m, s).1;
      var v0, v1 := Along(m, A, B, t0), Along(m, A, B, t1);
      assert r.value == Intervals.New(OnCircle(y, cr, v0), OnCircle(y, cr, v1));
      ExtremesOfAlong(m, A, B);
      ReachBounds(y, cr, R, v0, v1);
      forall theta
        ensures r.value.lower <= CircleY(m, s, theta) <= r.value.upper
      {
        AlongBound(m, A, B, theta);
        ScaledWithin(y, cr, R, Along(m, A, B, theta));
      }
      if v0 == -R {
        assert CircleY(m, s, t0) == r.value.lower && CircleY(m, s, t1) == r.value.upper;
      } else {
        assert CircleY(m, s, t1) == r.value.lower && CircleY(m, s, t0) == r.value.upper;
      }
    }
  }

  /** Two values `±R` scaled by a non-negative `cr` about `y` make the interval
    * `[y - cr R, y + cr R]`. */
  lemma ReachBounds(y: real, cr: real, R: real, v0: real, v1: real)
    requires 0.0 <= cr && 0.0 <= R
    requires (v0 == -R && v1 == R) || (v0 == R && v1 == -R)
    ensures Intervals.New(OnCircle(y, cr, v0), OnCircle(y, cr, v1)) == Bounds(y - cr * R, y + cr * R)
    ensures v0 == -R ==> OnCircle(y, cr, v0) == y - cr * R && OnCircle(y, cr, v1) == y + cr * R
    ensures v0 == R ==> OnCircle(y, cr, v1) == y - cr * R && OnCircle(y, cr, v0) == y + cr * R
  {
    ProductNonnegative(cr, R);
    assert cr * -R == -(cr * R);
  }

  /** `-R <= v <= R` scales to `y - cr R <= y + cr v <= y + cr R`. */
  lemma ScaledWithin(y: real, cr: real, R: real, v: real)
    requires 0.0 <= cr && -R <= v <= R
    ensures y - cr * R <= OnCircle(y, cr, v) <= y + cr * R
  {
    ProductNonnegative(cr, R - v);
    ProductNonnegative(cr, v + R);
  }

  /** At the two extreme angles of `y_bounds`, `Along` is `-R` and `R`, in some order,
    * for `R = sqrt(a² + b²)`. */
  lemma ExtremesOfAlong(m: Math, A: real, B: real)
    requires Lawful(m) && HalfAngleLawful(m)
    ensures var R := Sqrt(m, SumSq(A, B));
      var (t0, t1) := if B != 0.0 then (ExtremeAngle(m, A, B, true), ExtremeAngle(m, A, B, false)) else (0.0, m.pi);
      0.0 <= R &&
      ((Along(m, A, B, t0) == -R && Along(m, A, B, t1) == R) || (Along(m, A, B, t0) == R && Along(m, A, B, t1) == -R))
  {
    var R := Sqrt(m, SumSq(A, B));
    assert 0.0 <= A * A && 0.0 <= B * B;
    SqrtFacts(m, SumSq(A, B));
    if B != 0.0 {
      HalfAngleAlong(m, A, B, R, true);
      HalfAngleAlong(m, A, B, R, false);
    } else {
      assert SumSq(A, B) == Abs(A) * Abs(A);
      RootOf(m, SumSq(A, B), Abs(A));
    }
  }

  /** At the angle `-2 atan((A ± R) / B)`, `Along` is `∓R`. */
  lemma HalfAngleAlong(m: Math, A: real, B: real, R: real, plus: bool)
    requires Lawful(m) && HalfAngleLawful(m) && B != 0.0
    requires R == Sqrt(m, SumSq(A, B)) && 0.0 <= R && R * R == A * A + B * B
    ensures Along(m, A, B, ExtremeAngle(m, A, B, plus)) == if plus then -R else R
  {
    var t := ExtremeRatio(m, A, B, plus);
    var sigma := if plus then 1.0 else -1.0;
    assert Cos(m, -2.0 * Atan(m, t)) == HalfCos(t);
    assert Sin(m, -2.0 * Atan(m, t)) == HalfSin(t);
    assert t * B == A + sigma * R;
    HalfAngleAlgebra(A, B, R, sigma, t);
  }

  /** `(1 - t²) / (1 + t²)` and `-2t / (1 + t²)`: the cosine and the sine of `-2 atan(t)`. */
  function HalfCos(t: real): real {
    (1.0 - t * t) / (1.0 + t * t)
  }

  function HalfSin(t: real): real {
    -2.0 * t / (1.0 + t * t)
  }

  /** The algebra of the extreme angles: with `R² = A² + B²`, `B != 0`,
    * `t = (A + sigma R) / B` and `sigma = ±1`,
    * `A (1 - t²)/(1 + t²) + B (-2t)/(1 + t²) = -sigma R`. */
  lemma HalfAngleAlgebra(A: real, B: real, R: real, sigma: real, t: real)
    requires B != 0.0 && 0.0 <= R && R * R == A * A + B * B
    requires sigma == 1.0 || sigma == -1.0
    requires t * B == A + sigma * R
    ensures HalfCos(t) * A + HalfSin(t) * B == -sigma * R
  {
    var u := A + sigma * R;
    var w := R + sigma * A;
    ReachBeyond(A, B, R);
    PositiveGap(A, R, sigma);
    HalfTangentSquares(t, B, u);
    SigmaSquares(A, B, R, sigma);
    HalfCosPart(t, A, B, R, sigma, w);
    HalfSinPart(t, B, R, sigma, w);
    CombineParts(HalfCos(t), HalfSin(t), A, B, R, sigma);
  }

  /** `HalfCos(t) R = -sigma A`, given the squares `SigmaSquares` and `HalfTangentSquares` relate. */
  lemma HalfCosPart(t: real, A: real, B: real, R: real, sigma: real, w: real)
    requires 0.0 < w
    requires (1.0 + t * t) * (B * B) == 2.0 * R * w && (1.0 - t * t) * (B * B) == -2.0 * sigma * A * w
    ensures HalfCos(t) * R == -sigma * A
  {
    var c := HalfCos(t);
    assert 0.0 < 1.0 + t * t by {
      assert 0.0 <= t * t;
    }
    QuotientScaled(c, 1.0 - t * t, 1.0 + t * t, B * B, 2.0 * R * w, -2.0 * sigma * A * w);
    assert (c * R) * (2.0 * w) == (-sigma * A) * (2.0 * w);
    DivideOut(c * R, -sigma * A, 2.0 * w);
  }

  /** `HalfSin(t) R = -sigma B`, for `t B = sigma w`. */
  lemma HalfSinPart(t: real, B: real, R: real, sigma: real, w: real)
    requires 0.0 < w && t * B == sigma * w
    requires (1.0 + t * t) * (B * B) == 2.0 * R * w
    ensures HalfSin(t) * R == -sigma * B
  {
    var sn := HalfSin(t);
    assert 0.0 < 1.0 + t * t by {
      assert 0.0 <= t * t;
    }
    assert -2.0 * t * (B * B) == -2.0 * sigma * w * B by {
      assert t * (B * B) == (t * B) * B;
    }
    QuotientScaled(sn, -2.0 * t, 1.0 + t * t, B * B, 2.0 * R * w, -2.0 * sigma * w * B);
    assert (sn * R) * (2.0 * w) == (-sigma * B) * (2.0 * w);
    DivideOut(sn * R, -sigma * B, 2.0 * w);
  }

  /** `R + sigma A` is positive when `|A| < R`. */
  lemma PositiveGap(A: real, R: real, sigma: real)
    requires Abs(A) < R && (sigma == 1.0 || sigma == -1.0)
    ensures 0.0 < R + sigma * A && A + sigma * R == sigma * (R + sigma * A)
  {
  }

  /** With `t B = u`: `(1 ± t²) B² = B² ± u²`. */
  lemma HalfTangentSquares(t: real, B: real, u: real)
    requires t * B == u
    ensures (1.0 + t * t) * (B * B) == B * B + u * u
    ensures (1.0 - t * t) * (B * B) == B * B - u * u
  {
    assert (t * t) * (B * B) == (t * B) * (t * B);
  }

  /** With `R² = A² + B²` and `u = A + sigma R`: `B² + u² = 2 R (R + sigma A)` and
    * `B² - u² = -2 sigma A (R + sigma A)`. */
  lemma SigmaSquares(A: real, B: real, R: real, sigma: real)
    requires R * R == A * A + B * B && (sigma == 1.0 || sigma == -1.0)
    ensures var u := A + sigma * R;
      && B * B + u * u == 2.0 * R * (R + sigma * A)
      && B * B - u * u == -2.0 * sigma * A * (R + sigma * A)
  {
    if sigma == 1.0 {
      assert (A + R) * (A + R) == A * A + 2.0 * A * R + R * R;
    } else {
      assert (A - R) * (A - R) == A * A - 2.0 * A * R + R * R;
    }
  }

  /** `q = n / d` with `d * k = e` and `n * k = f` gives `q * e = f`. */
  lemma QuotientScaled(q: real, n: real, d: real, k: real, e: real, f: real)
    requires d != 0.0 && q == n / d && d * k == e && n * k == f
    ensures q * e == f
  {
    assert q * d == n;
    assert q * e == q * (d * k);
    assert q * (d * k) == (q * d) * k;
  }

  /** `c R = -sigma A` and `sn R = -sigma B` with `R² = A² + B² > 0` give `c A + sn B = -sigma R`. */
  lemma CombineParts(c: real, sn: real, A: real, B: real, R: real, sigma: real)
    requires 0.0 < R && R * R == A * A + B * B
    requires c * R == -sigma * A && sn * R == -sigma * B
    ensures c * A + sn * B == -sigma * R
  {
    assert (c * A + sn * B) * R == (c * R) * A + (sn * R) * B;
    assert (c * A + sn * B) * R == -sigma * (R * R);
    DivideOut(c * A + sn * B, -sigma * R, R);
  }

  /** With `B != 0`, `R = sqrt(A² + B²)` exceeds `|A|`. */
  lemma ReachBeyond(A: real, B: real, R: real)
    requires B != 0.0 && 0.0 <= R && R * R == A * A + B * B
    ensures Abs(A) < R
  {
    var b := Abs(B);
    SquareMonotone(0.0, b);
    assert B * B == b * b;
    assert Abs(A) * Abs(A) == A * A;
    if R <= Abs(A) {
      SquareMonotone(R, Abs(A));
    }
  }

  /** `|A cos theta + B sin theta| <= sqrt(A² + B²)`. */
  lemma AlongBound(m: Math, A: real, B: real, theta: real)
    requires Lawful(m)
    ensures var R := Sqrt(m, SumSq(A, B)); -R <= Along(m, A, B, theta) <= R
  {
    var c, sn := Cos(m, theta), Sin(m, theta);
    var v := Along(m, A, B, theta);
    var R := Sqrt(m, SumSq(A, B));
    assert 0.0 <= A * A && 0.0 <= B * B;
    SqrtFacts(m, SumSq(A, B));
    var q := A * sn - B * c;
    assert v * v + q * q == (A * A + B * B) * (c * c + sn * sn);
    assert c * c + sn * sn == 1.0;
    assert 0.0 <= q * q;
    assert v * v <= R * R;
    assert Abs(v) * Abs(v) == v * v;
    if R < Abs(v) {
      SquareMonotone(R, Abs(v));
    }
  }

  // ---------------------------------------------------------------------------
  // Membership.

  /** `on_star`: the sky point lies on the disk. */
  predicate OnStar(y: real, z: real) {
    SumSq(y, z) <= 1.0
  }

  /** `1 - y² - z²`, the square of the `x` part of the surface point behind `(y, z)`. */
  function SurfaceSquare(y: real, z: real): real {
    1.0 - SumSq(y, z)
  }

  /** `BoundingShape::on_spot`: the sky point lies on the disk and the visible
    * surface point behind it is within `radius` of the spot's centre. */
  predicate OnSpot(m: Math, s: Shape, y: real, z: real) {
    if !OnStar(y, z) then false
    else
      var x := Sqrt(m, SurfaceSquare(y, z));
      DistSq(Points.Point(x, y, z), s.center) <= s.radius * s.radius
  }

  /** `OnSpot` for a fixed row `y`, as the predicate the walks search with. */
  function OnSpotAt(m: Math, s: Shape, y: real): real -> bool {
    z => OnSpot(m, s, y, z)
  }

  /** The negation of `OnSpotAt`. */
  function OffSpotAt(m: Math, s: Shape, y: real): real -> bool {
    z => !OnSpot(m, s, y, z)
  }

  /** A point off the disk is on no spot. */
  lemma OnSpotOnStar(m: Math, s: Shape, y: real, z: real)
    ensures OnSpot(m, s, y, z) ==> OnStar(y, z)
  {
  }

  /** For a surface point `p` facing the observer, the sky point `(p.y, p.z)` is on
    * the spot exactly when `p` is within `radius` of the centre. */
  lemma OnSpotMeaning(m: Math, s: Shape, p: Points.Point)
    requires Lawful(m) && Points.NormSq(p) == 1.0 && 0.0 <= p.x
    ensures OnSpot(m, s, p.y, p.z) <==> DistSq(p, s.center) <= s.radius * s.radius
  {
    SurfaceOfUnit(p);
    RootOf(m, SurfaceSquare(p.y, p.z), p.x);
    assert Points.Point(Sqrt(m, SurfaceSquare(p.y, p.z)), p.y, p.z) == p;
  }

  /** A point of the unit sphere lies behind a point of the disk, at `x² = 1 - y² - z²`. */
  lemma SurfaceOfUnit(p: Points.Point)
    requires Points.NormSq(p) == 1.0
    ensures OnStar(p.y, p.z) && SurfaceSquare(p.y, p.z) == p.x * p.x
  {
    assert 0.0 <= p.x * p.x;
  }

  /** The centre of a spot facing the observer lies on the spot. */
  lemma CenterOnSpot(m: Math, s: Shape)
    requires Lawful(m) && Points.NormSq(s.center) == 1.0 && 0.0 <= s.center.x
    ensures OnSpot(m, s, s.center.y, s.center.z)
  {
    OnSpotMeaning(m, s, s.center);
    assert 0.0 <= s.radius * s.radius by {
      if s.radius < 0.0 {
        assert s.radius * s.radius == (-s.radius) * (-s.radius);
      }
    }
  }

  /** `BoundingShape::collides_with`: the centres are closer than the sum of the
    * two full radii. */
  predicate CollidesWith(m: Math, s: Shape, other: Shape) {
    Sqrt(m, DistSq(s.center, other.center)) < s.maxRadius + other.maxRadius
  }

  /** Collision is symmetric. */
  lemma CollidesWithSymmetric(m: Math, s: Shape, other: Shape)
    ensures CollidesWith(m, s, other) <==> CollidesWith(m, other, s)
  {
    DistSqSymmetric(s.center, other.center);
  }

  lemma DistSqSymmetric(u: Points.Point, v: Points.Point)
    ensures DistSq(u, v) == DistSq(v, u)
  {
    assert (u.x - v.x) * (u.x - v.x) == (v.x - u.x) * (v.x - u.x);
    assert (u.y - v.y) * (u.y - v.y) == (v.y - u.y) * (v.y - u.y);
    assert (u.z - v.z) * (u.z - v.z) == (v.z - u.z) * (v.z - u.z);
  }

  /** A shape collides with itself exactly when its full radius is positive. */
  lemma CollidesWithItself(m: Math, s: Shape)
    requires Lawful(m)
    ensures CollidesWith(m, s, s) <==> 0.0 < s.maxRadius
  {
    assert DistSq(s.center, s.center) == 0.0;
  }

  /** Collision compares squared distance with the squared sum of the radii. */
  lemma CollidesWithMeaning(m: Math, s: Shape, other: Shape)
    requires Lawful(m)
    ensures CollidesWith(m, s, other) <==>
      0.0 < s.maxRadius + other.maxRadius
      && DistSq(s.center, other.center) < Square(s.maxRadius + other.maxRadius)
  {
    var q := DistSq(s.center, other.center);
    var r := s.maxRadius + other.maxRadius;
    DistSqNonnegative(s.center, other.center);
    SqrtFacts(m, q);
    RootBelow(Sqrt(m, q), q, r);
  }

  lemma DistSqNonnegative(u: Points.Point, v: Points.Point)
    ensures 0.0 <= DistSq(u, v)
  {
    assert 0.0 <= (u.x - v.x) * (u.x - v.x);
    assert 0.0 <= (u.y - v.y) * (u.y - v.y);
    assert 0.0 <= (u.z - v.z) * (u.z - v.z);
  }

  /** For the non-negative root `d` of `q`: `d < r` exactly when `r` is positive and `q < r²`. */
  lemma RootBelow(d: real, q: real, r: real)
    requires 0.0 <= d && d * d == q
    ensures d < r <==> 0.0 < r && q < r * r
  {
    if d < r {
      SquareMonotone(d, r);
    } else if 0.0 < r {
      SquareMonotone(r, d);
    }
  }

  // ---------------------------------------------------------------------------
  // The walks along a row.

  /** The index of the first value satisfying `p`, or `|zs|` if there is none. */
  function FirstIndexWhere(zs: seq<real>, p: real -> bool): (i: nat)
    ensures i <= |zs|
    ensures forall j :: 0 <= j < i ==> !p(zs[j])
    ensures i < |zs| ==> p(zs[i])
    decreases |zs|
  {
    if zs == [] then 0
    else if p(zs[0]) then 0
    else 1 + FirstIndexWhere(zs[1..], p)
  }

  /** `Iterator::find`: the first value satisfying `p`. */
  function FirstWhere(zs: seq<real>, p: real -> bool): (r: Option<real>)
    ensures r.Some? ==> p(r.value)
    ensures r.Some? ==> exists i :: 0 <= i < |zs| && zs[i] == r.value && forall j :: 0 <= j < i ==> !p(zs[j])
    ensures r.None? ==> forall j :: 0 <= j < |zs| ==> !p(zs[j])
  {
    var i := FirstIndexWhere(zs, p);
    if i < |zs| then Some(zs[i]) else None
  }

  /** `find` over `floatrange(start, stop, step)`: the values are produced one at
    * a time and the walk stops at the first that satisfies `p`. */
  method Walk(start: real, stop: real, step: real, p: real -> bool) returns (r: Option<real>)
    requires step != 0.0
    ensures r == FirstWhere(Grids.FloatrangeValues(start, stop, step), p)
  {
    var it := new Grids.Floatrange(start, stop, step);
    ghost var all := it.Remaining();
    r := None;
    while true
      invariant fresh(it)
      invariant FirstWhere(all, p) == FirstWhere(it.Remaining(), p)
      decreases |it.Remaining()|
    {
      ghost var rest := it.Remaining();
      var z := it.Next();
      if z.None? {
        break;
      }
      if p(z.value) {
        assert FirstIndexWhere(rest, p) == 0;
        r := z;
        break;
      }
      FirstWhereSkip(rest, p);
    }
  }

  lemma FirstWhereSkip(zs: seq<real>, p: real -> bool)
    requires zs != [] && !p(zs[0])
    ensures FirstWhere(zs, p) == FirstWhere(zs[1..], p)
  {
  }

  /** The top and the bottom of the spot's `z` range, `center.z ± radius`. */
  function Top(s: Shape): real {
    s.center.z + s.radius
  }

  function Bottom(s: Shape): real {
    s.center.z - s.radius
  }

  /** The steps of the walks, `∓grid_interval / 1.0`. */
  function DownStep(s: Shape): real {
    -s.gridInterval / 1.0
  }

  function UpStep(s: Shape): real {
    s.gridInterval / 1.0
  }

  /** The grid points a walk visits from `from` down to the bottom of the spot's range. */
  function DownFrom(s: Shape, from: real): seq<real>
    requires s.gridInterval != 0.0
  {
    Grids.FloatrangeValues(from, Bottom(s), DownStep(s))
  }

  /** The grid points a walk visits from `from` up to the top of the spot's range. */
  function UpFrom(s: Shape, from: real): seq<real>
    requires s.gridInterval != 0.0
  {
    Grids.FloatrangeValues(from, Top(s), UpStep(s))
  }

  /** `z_bounds_brute`: walk down from the top of the spot's `z` range to the first
    * grid point on the spot and up from the bottom to the first grid point on the
    * spot; both must be found. */
  function ZBoundsBruteOf(m: Math, s: Shape, y: real): Option<Bounds>
    requires s.gridInterval != 0.0
  {
    var zMax := FirstWhere(DownFrom(s, Top(s)), OnSpotAt(m, s, y));
    var zMin := FirstWhere(UpFrom(s, Bottom(s)), OnSpotAt(m, s, y));
    if zMax.None? || zMin.None? then None else Some(Intervals.New(zMin.value, zMax.value))
  }

  /** The brute-force bounds are ordered and both ends lie on the spot; with no
    * bounds, one of the two walks met no grid point on the spot. */
  lemma ZBoundsBruteOnSpot(m: Math, s: Shape, y: real)
    requires s.gridInterval != 0.0
    ensures var r := ZBoundsBruteOf(m, s, y);
      r.Some? ==> r.value.lower <= r.value.upper && OnSpot(m, s, y, r.value.lower) && OnSpot(m, s, y, r.value.upper)
    ensures var down := DownFrom(s, Top(s));
      var up := UpFrom(s, Bottom(s));
      ZBoundsBruteOf(m, s, y).None? ==>
        (forall j :: 0 <= j < |down| ==> !OnSpot(m, s, y, down[j])) || (forall j :: 0 <= j < |up| ==> !OnSpot(m, s, y, up[j]))
  {
    var down := DownFrom(s, Top(s));
    var up := UpFrom(s, Bottom(s));
    var zMax := FirstWhere(down, OnSpotAt(m, s, y));
    var zMin := FirstWhere(up, OnSpotAt(m, s, y));
    if zMax.Some? && zMin.Some? {
      assert OnSpotAt(m, s, y)(zMax.value) && OnSpotAt(m, s, y)(zMin.value);
    }
    if zMax.None? {
      assert forall j :: 0 <= j < |down| ==> !OnSpotAt(m, s, y)(down[j]);
    }
    if zMin.None? {
      assert forall j :: 0 <= j < |up| ==> !OnSpotAt(m, s, y)(up[j]);
    }
  }

  /** The walk from one end of a guess: from a point off the spot walk towards the
    * spot (`inward`) to the first point on it; from a point on the spot walk away
    * to the first point off it. `towardsLower` tells which way is inward. */
  function EdgeFrom(m: Math, s: Shape, y: real, from: real, inwardDown: bool): Option<real>
    requires s.gridInterval != 0.0
  {
    var down := DownFrom(s, from);
    var up := UpFrom(s, from);
    if !OnSpot(m, s, y, from) then
      FirstWhere(if inwardDown then down else up, OnSpotAt(m, s, y))
    else
      FirstWhere(if inwardDown then up else down, OffSpotAt(m, s, y))
  }

  /** `z_bounds_ansatz`: start from the previous row's bounds and walk each end to
    * this row's edge of the spot: the upper end inward is downward, the lower end
    * inward is upward. Both walks must succeed. */
  function ZBoundsAnsatzOf(m: Math, s: Shape, y: real, guess: Bounds): Option<Bounds>
    requires s.gridInterval != 0.0
  {
    var zMax := EdgeFrom(m, s, y, guess.upper, true);
    var zMin := EdgeFrom(m, s, y, guess.lower, false);
    if zMin.Some? && zMax.Some? then Some(Intervals.New(zMin.value, zMax.value)) else None
  }

  /** The grid points one walk of the ansatz visits from `from`: downward when
    * it walks inward from off the spot with `inwardDown`, or outward from on the
    * spot without it. */
  function EdgeWalk(m: Math, s: Shape, y: real, from: real, inwardDown: bool): seq<real>
    requires s.gridInterval != 0.0
  {
    if inwardDown != OnSpot(m, s, y, from) then DownFrom(s, from) else UpFrom(s, from)
  }

  /** Each walk of the ansatz stops at the first grid point across the spot's edge:
    * its end is one of the points it visits, on the spot exactly when its start
    * is not, and every point it visits before the end is on the start's side.
    * A walk that finds nothing visits only points on the start's side. */
  lemma EdgeFromCrosses(m: Math, s: Shape, y: real, from: real, inwardDown: bool)
    requires s.gridInterval != 0.0
    ensures var e := EdgeFrom(m, s, y, from, inwardDown);
      var zs := EdgeWalk(m, s, y, from, inwardDown);
      && (e.Some? ==> OnSpot(m, s, y, e.value) != OnSpot(m, s, y, from))
      && (e.Some? ==>
            exists i :: 0 <= i < |zs| && zs[i] == e.value &&
              forall j :: 0 <= j < i ==> OnSpot(m, s, y, zs[j]) == OnSpot(m, s, y, from))
      && (e.None? ==> forall j :: 0 <= j < |zs| ==> OnSpot(m, s, y, zs[j]) == OnSpot(m, s, y, from))
  {
    var e := EdgeFrom(m, s, y, from, inwardDown);
    var zs := EdgeWalk(m, s, y, from, inwardDown);
    var on := OnSpot(m, s, y, from);
    var p := if on then OffSpotAt(m, s, y) else OnSpotAt(m, s, y);
    assert e == FirstWhere(zs, p);
    if e.Some? {
      assert p(e.value);
      var i :| 0 <= i < |zs| && zs[i] == e.value && forall j :: 0 <= j < i ==> !p(zs[j]);
      forall j | 0 <= j < i
        ensures OnSpot(m, s, y, zs[j]) == on
      {
        assert !p(zs[j]);
      }
    } else {
      forall j | 0 <= j < |zs|
        ensures OnSpot(m, s, y, zs[j]) == on
      {
        assert !p(zs[j]);
      }
    }
  }

  /** The ansatz bounds are ordered and each end lies across the edge from the
    * guess's end it was walked from. */
  lemma ZBoundsAnsatzEnds(m: Math, s: Shape, y: real, guess: Bounds)
    requires s.gridInterval != 0.0
    ensures var r := ZBoundsAnsatzOf(m, s, y, guess);
      r.Some? ==>
        && r.value.lower <= r.value.upper
        && EdgeFrom(m, s, y, guess.upper, true).Some? && EdgeFrom(m, s, y, guess.lower, false).Some?
        && r.value == Intervals.New(EdgeFrom(m, s, y, guess.lower, false).value, EdgeFrom(m, s, y, guess.upper, true).value)
  {
  }

  /** `z_bounds` as a function of the row and the guess in: the bounds, and the
    * guess out. */
  function ZBoundsOf(m: Math, s: Shape, y: real, guess: Option<Bounds>): (Option<Bounds>, Option<Bounds>)
    requires s.gridInterval != 0.0
  {
    if Abs(y) >= 1.0 then (None, guess)
    else
      var r := if guess.None? then ZBoundsBruteOf(m, s, y) else ZBoundsAnsatzOf(m, s, y, guess.value);
      (r, r)
  }

  /** Off the disk's rows `z_bounds` finds nothing and keeps the guess; on them it
    * searches by brute force without a guess and from the guess otherwise, and
    * the result becomes the next guess, even when it is `None`. */
  lemma ZBoundsGuess(m: Math, s: Shape, y: real, guess: Option<Bounds>)
    requires s.gridInterval != 0.0
    ensures Abs(y) >= 1.0 ==> ZBoundsOf(m, s, y, guess) == (None, guess)
    ensures Abs(y) < 1.0 ==> ZBoundsOf(m, s, y, guess).1 == ZBoundsOf(m, s, y, guess).0
    ensures Abs(y) < 1.0 && guess.None? ==> ZBoundsOf(m, s, y, guess).0 == ZBoundsBruteOf(m, s, y)
    ensures ZBoundsOf(m, s, y, guess).0.Some? ==> ZBoundsOf(m, s, y, guess).0.value.lower <= ZBoundsOf(m, s, y, guess).0.value.upper
  {
  }

  /** `z_bounds_brute`, walking the two floatranges. */
  method ZBoundsBrute(m: Math, s: Shape, y: real) returns (r: Option<Bounds>)
    requires s.gridInterval != 0.0
    ensures r == ZBoundsBruteOf(m, s, y)
  {
    var zMax := Walk(Top(s), Bottom(s), DownStep(s), OnSpotAt(m, s, y));
    var zMin := Walk(Bottom(s), Top(s), UpStep(s), OnSpotAt(m, s, y));
    if zMax.None? || zMin.None? {
      r := None;
    } else {
      r := Some(Intervals.New(zMin.value, zMax.value));
    }
  }

  /** One walk of `z_bounds_ansatz`. */
  method WalkEdge(m: Math, s: Shape, y: real, from: real, inwardDown: bool) returns (e: Option<real>)
    requires s.gridInterval != 0.0
    ensures e == EdgeFrom(m, s, y, from, inwardDown)
  {
    if !OnSpot(m, s, y, from) {
      if inwardDown {
        e := Walk(from, Bottom(s), DownStep(s), OnSpotAt(m, s, y));
      } else {
        e := Walk(from, Top(s), UpStep(s), OnSpotAt(m, s, y));
      }
    } else {
      if inwardDown {
        e := Walk(from, Top(s), UpStep(s), OffSpotAt(m, s, y));
      } else {
        e := Walk(from, Bottom(s), DownStep(s), OffSpotAt(m, s, y));
      }
    }
  }

  /** `z_bounds_ansatz`. */
  method ZBoundsAnsatz(m: Math, s: Shape, y: real, guess: Bounds) returns (r: Option<Bounds>)
    requires s.gridInterval != 0.0
    ensures r == ZBoundsAnsatzOf(m, s, y, guess)
  {
    var zMax := WalkEdge(m, s, y, guess.upper, true);
    var zMin := WalkEdge(m, s, y, guess.lower, false);
    if zMin.Some? && zMax.Some? {
      r := Some(Intervals.New(zMin.value, zMax.value));
    } else {
      r := None;
    }
  }

  /** `BoundingShape::z_bounds`: `guess` is the caller's `&mut Option<Bounds>`,
    * passed in and handed back. */
  method ZBounds(m: Math, s: Shape, y: real, guess: Option<Bounds>) returns (r: Option<Bounds>, guessOut: Option<Bounds>)
    requires s.gridInterval != 0.0
    ensures (r, guessOut) == ZBoundsOf(m, s, y, guess)
  {
    if Abs(y) >= 1.0 {
      return None, guess;
    }
    if guess.None? {
      r := ZBoundsBrute(m, s, y);
    } else {
      r := ZBoundsAnsatz(m, s, y, guess.value);
    }
    guessOut := r;
  }
}
