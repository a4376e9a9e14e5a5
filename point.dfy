/**
 * Points in the star's frame and their rotations about the three axes (point.rs).
 * Angles are in radians; sine and cosine come from the `Math` record.
 */
module Points {
  import opened Numerics

  datatype Point = Point(x: real, y: real, z: real)

  /** The squared distance from the origin. */
  function NormSq(p: Point): real {
    p.x * p.x + p.y * p.y + p.z * p.z
  }

  /** `Point::rotated_x` as written: the new `y` uses the sine of the angle where a
    * rotation uses its cosine. */
  function RotatedXAsWritten(m: Math, p: Point, angle: real): (r: Point)
    ensures r.x == p.x
  {
    Point(p.x, p.y * Sin(m, angle) - p.z * Sin(m, angle), p.y * Sin(m, angle) + p.z * Cos(m, angle))
  }

  /** Rotation about the x axis by `angle`, right-handed: what `rotated_x` is meant to be. */
  function RotatedX(m: Math, p: Point, angle: real): (r: Point)
    ensures r.x == p.x
  {
    TurnX(p, Sin(m, angle), Cos(m, angle))
  }

  /** `Point::rotated_y`: rotation about the y axis by `angle`, right-handed. */
  function RotatedY(m: Math, p: Point, angle: real): (r: Point)
    ensures r.y == p.y
  {
    TurnY(p, Sin(m, angle), Cos(m, angle))
  }

  /** `Point::rotated_z`: rotation about the z axis by `angle`, right-handed. */
  function RotatedZ(m: Math, p: Point, angle: real): (r: Point)
    ensures r.z == p.z
  {
    TurnZ(p, Sin(m, angle), Cos(m, angle))
  }

  /** The three turns, given the sine `s` and cosine `c` of the angle. */
  function TurnX(p: Point, s: real, c: real): Point {
    Point(p.x, p.y * c - p.z * s, p.y * s + p.z * c)
  }

  function TurnY(p: Point, s: real, c: real): Point {
    Point(p.z * s + p.x * c, p.y, p.z * c - p.x * s)
  }

  function TurnZ(p: Point, s: real, c: real): Point {
    Point(p.x * c - p.y * s, p.x * s + p.y * c, p.z)
  }

  /** Each rotation keeps a point's distance from the origin. */
  lemma RotationKeepsNorm(m: Math, p: Point, angle: real)
    requires Lawful(m)
    ensures NormSq(RotatedX(m, p, angle)) == NormSq(p)
    ensures NormSq(RotatedY(m, p, angle)) == NormSq(p)
    ensures NormSq(RotatedZ(m, p, angle)) == NormSq(p)
  {
    TurnsKeepNorm(p, Sin(m, angle), Cos(m, angle));
  }

  lemma TurnsKeepNorm(p: Point, s: real, c: real)
    requires s * s + c * c == 1.0
    ensures NormSq(TurnX(p, s, c)) == NormSq(p)
    ensures NormSq(TurnY(p, s, c)) == NormSq(p)
    ensures NormSq(TurnZ(p, s, c)) == NormSq(p)
  {
    PlaneRotation(p.y, p.z, s, c);
    PlaneRotation(p.z, p.x, s, c);
    PlaneRotation(p.x, p.y, s, c);
  }

  /** A rotation of the plane keeps the squared length of `(a, b)`. */
  lemma PlaneRotation(a: real, b: real, s: real, c: real)
    requires s * s + c * c == 1.0
    ensures (a * c - b * s) * (a * c - b * s) + (a * s + b * c) * (a * s + b * c) == a * a + b * b
  {
    var u := a * c - b * s;
    var v := a * s + b * c;
    assert u * u + v * v == (a * a + b * b) * (s * s + c * c);
  }

  /** Rotating by zero leaves every point where it is. */
  lemma ZeroRotation(m: Math, p: Point)
    requires Lawful(m)
    ensures RotatedX(m, p, 0.0) == p
    ensures RotatedY(m, p, 0.0) == p
    ensures RotatedZ(m, p, 0.0) == p
  {
  }

  /** Rotating back by the same angle undoes each rotation. */
  lemma RotationInverse(m: Math, p: Point, angle: real)
    requires Lawful(m)
    ensures RotatedX(m, RotatedX(m, p, angle), -angle) == p
    ensures RotatedY(m, RotatedY(m, p, angle), -angle) == p
    ensures RotatedZ(m, RotatedZ(m, p, angle), -angle) == p
  {
    TurnsUndo(p, Sin(m, angle), Cos(m, angle));
  }

  lemma TurnsUndo(p: Point, s: real, c: real)
    requires s * s + c * c == 1.0
    ensures TurnX(TurnX(p, s, c), -s, c) == p
    ensures TurnY(TurnY(p, s, c), -s, c) == p
    ensures TurnZ(TurnZ(p, s, c), -s, c) == p
  {
    TurnXUndo(p, s, c);
    TurnYUndo(p, s, c);
    TurnZUndo(p, s, c);
  }

  lemma TurnXUndo(p: Point, s: real, c: real)
    requires s * s + c * c == 1.0
    ensures TurnX(TurnX(p, s, c), -s, c) == p
  {
    PlaneUndo(p.y, p.z, s, c);
  }

  lemma TurnYUndo(p: Point, s: real, c: real)
    requires s * s + c * c == 1.0
    ensures TurnY(TurnY(p, s, c), -s, c) == p
  {
    PlaneUndo(p.z, p.x, s, c);
  }

  lemma TurnZUndo(p: Point, s: real, c: real)
    requires s * s + c * c == 1.0
    ensures TurnZ(TurnZ(p, s, c), -s, c) == p
  {
    PlaneUndo(p.x, p.y, s, c);
  }

  /** Turning `(a, b)` by `(s, c)` and then by `(-s, c)` gives `(a, b)` back. */
  lemma PlaneUndo(a: real, b: real, s: real, c: real)
    requires s * s + c * c == 1.0
    ensures var u := a * c - b * s; var v := a * s + b * c;
      u * c - v * -s == a && u * -s + v * c == b
  {
    var u := a * c - b * s;
    var v := a * s + b * c;
    assert u * c + v * s == a * (c * c + s * s);
    assert v * c - u * s == b * (c * c + s * s);
  }

  /** The rotation tests of point.rs: `(1, 1, 1)` turned by a quarter of pi (where sine
    * and cosine are equal and positive) about each axis. */
  lemma QuarterTurnExamples(m: Math, angle: real)
    requires Lawful(m) && Sin(m, angle) == Cos(m, angle) && 0.0 < Sin(m, angle)
    ensures RotatedX(m, Point(1.0, 1.0, 1.0), angle) == Point(1.0, 0.0, Sqrt(m, 2.0))
    ensures RotatedY(m, Point(1.0, 1.0, 1.0), angle) == Point(Sqrt(m, 2.0), 1.0, 0.0)
    ensures RotatedZ(m, Point(1.0, 1.0, 1.0), angle) == Point(0.0, Sqrt(m, 2.0), 1.0)
  {
    var h := Sin(m, angle);
    assert h * h == 0.5;
    RootUnique(Sqrt(m, 2.0), h + h, 2.0);
  }

  /** Two non-negative roots of the same square are equal. */
  lemma RootUnique(a: real, b: real, x: real)
    requires 0.0 <= a && 0.0 <= b && a * a == x && b * b == x
    ensures a == b
  {
    assert (a - b) * (a + b) == 0.0;
    if a + b != 0.0 {
      assert a - b == (a - b) * (a + b) / (a + b);
    }
  }

  /** As written, the x rotation passes the test of point.rs, because there sine and
    * cosine agree; the corrected rotation agrees with it exactly at such angles. */
  lemma AsWrittenAgreesWhenSineIsCosine(m: Math, p: Point, angle: real)
    requires Sin(m, angle) == Cos(m, angle)
    ensures RotatedXAsWritten(m, p, angle) == RotatedX(m, p, angle)
  {
  }

  /** As written, turning `(0, 1, 0)` by zero about the x axis sends it to the origin:
    * it is neither the identity nor length-preserving. */
  lemma RotatedXAsWrittenCollapses(m: Math)
    requires Lawful(m)
    ensures RotatedXAsWritten(m, Point(0.0, 1.0, 0.0), 0.0) == Point(0.0, 0.0, 0.0)
    ensures RotatedX(m, Point(0.0, 1.0, 0.0), 0.0) == Point(0.0, 1.0, 0.0)
    ensures NormSq(RotatedXAsWritten(m, Point(0.0, 1.0, 0.0), 0.0)) != NormSq(Point(0.0, 1.0, 0.0))
    ensures NormSq(RotatedX(m, Point(0.0, 1.0, 0.0), 0.0)) == NormSq(Point(0.0, 1.0, 0.0))
  {
  }
}
