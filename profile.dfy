/**
 * A cross-correlation profile sampled on a radial-velocity grid, shifted to a
 * new velocity by moving each sample along its precomputed forward slope (profile.rs).
 */
module Profiles {
  import opened Numerics

  /** `Profile`: the grid `rv`, the samples `ccf`, the slope between each sample
    * and the next (`derivative`), and the grid spacing `stepsize`. */
  datatype Profile = Profile(rv: seq<real>, ccf: seq<real>, derivative: seq<real>, stepsize: real)

  /** What the source requires of a grid: at least two points (it reads `rv[1]`),
    * one sample per point, and no two neighbouring points equal (their difference
    * is a divisor). */
  predicate GridOk(rv: seq<real>, ccf: seq<real>) {
    && 2 <= |rv|
    && |ccf| == |rv|
    && forall j :: 0 <= j < |rv| - 1 ==> Gap(rv, j) != 0.0
  }

  /** The difference between neighbours `j` and `j + 1`, first minus second. */
  function Gap(xs: seq<real>, j: nat): real
    requires j + 1 < |xs|
  {
    xs[j] - xs[j + 1]
  }

  /** The invariant every profile built by `New` keeps. */
  predicate Valid(p: Profile) {
    && GridOk(p.rv, p.ccf)
    && |p.derivative| == |p.ccf|
    && p.stepsize == Abs(p.rv[0] - p.rv[1])
    && 0.0 < p.stepsize
    && p.derivative == Slopes(p.rv, p.ccf)
  }

  /** The slope of each sample towards the next, with a final 0: what the
    * `windows(2)` / `zip` / `chain(once(0.0))` pipeline collects. */
  function Slopes(rv: seq<real>, ccf: seq<real>): (d: seq<real>)
    requires 1 <= |rv| == |ccf|
    requires forall j :: 0 <= j < |rv| - 1 ==> Gap(rv, j) != 0.0
    ensures |d| == |ccf|
  {
    seq(|ccf|, j requires 0 <= j < |ccf| => if j < |ccf| - 1 then Gap(ccf, j) / Gap(rv, j) else 0.0)
  }

  /** `Profile::new` (the scalar build): computes the slopes and the step size.
    * Each slope times the step to the next point is the change to the next sample. */
  function New(rv: seq<real>, ccf: seq<real>): (p: Profile)
    requires GridOk(rv, ccf)
    ensures Valid(p)
    ensures p.rv == rv && p.ccf == ccf && |p.derivative| == |ccf|
    ensures p.derivative[|ccf| - 1] == 0.0
    ensures forall j :: 0 <= j < |ccf| - 1 ==> p.derivative[j] * Gap(rv, j) == Gap(ccf, j)
    ensures 0.0 < p.stepsize && (p.stepsize == rv[1] - rv[0] || p.stepsize == rv[0] - rv[1])
  {
    SlopeMeaning(rv, ccf);
    assert Gap(rv, 0) != 0.0;
    Profile(rv, ccf, Slopes(rv, ccf), Abs(rv[0] - rv[1]))
  }

  lemma SlopeMeaning(rv: seq<real>, ccf: seq<real>)
    requires GridOk(rv, ccf)
    ensures var d := Slopes(rv, ccf);
      forall j :: 0 <= j < |ccf| - 1 ==> d[j] * Gap(rv, j) == Gap(ccf, j)
  {
    var d := Slopes(rv, ccf);
    forall j | 0 <= j < |ccf| - 1
      ensures d[j] * Gap(rv, j) == Gap(ccf, j)
    {
      QuotientTimes(Gap(ccf, j), Gap(rv, j));
    }
  }

  lemma QuotientTimes(a: real, b: real)
    requires b != 0.0
    ensures a / b * b == a
  {
  }

  /** `Profile::len`: the number of grid points. */
  function Len(p: Profile): (n: nat)
    requires Valid(p)
    ensures n == |p.ccf| == |p.derivative| && 2 <= n
  {
    |p.rv|
  }

  /** The whole number of grid steps a shift by `velocity` moves the profile. */
  function Quotient(p: Profile, velocity: real): int
    requires Valid(p)
  {
    Round(velocity / p.stepsize)
  }

  /** What is left of `velocity` after the whole steps, covered by moving along the slopes. */
  function Remainder(p: Profile, velocity: real): real
    requires Valid(p)
  {
    velocity - Quotient(p, velocity) as real * p.stepsize
  }

  /** How many values `shift_into` produces before they are cut to the output's
    * length. For `velocity >= 0`: `q` copies of `ccf[0]`, then `n - q` slope-moved
    * samples, or all `n` when `q > n` and that difference wraps around. For
    * `velocity < 0`, with `m = -q`: the `n - m` samples from index `m` on (none when
    * `m > n`), then `m` copies of `ccf[0]`. */
  function ShiftedLen(p: Profile, velocity: real): nat
    requires Valid(p)
  {
    var n := |p.ccf|;
    var q := Quotient(p, velocity);
    if 0.0 <= velocity then
      QuotientSign(p, velocity);
      q + (if q <= n then n - q else n)
    else
      QuotientSign(p, velocity);
      (if -q <= n then n + q else 0) + -q
  }

  /** A sample `c` moved back by `r` along slope `d`. */
  function Moved(c: real, d: real, r: real): real {
    c - r * d
  }

  /** Value `i` of the shifted profile. */
  function ShiftedAt(p: Profile, velocity: real, i: nat): real
    requires Valid(p) && i < ShiftedLen(p, velocity)
  {
    var n := |p.ccf|;
    var q := Quotient(p, velocity);
    var r := Remainder(p, velocity);
    QuotientSign(p, velocity);
    if 0.0 <= velocity then
      if i < q then p.ccf[0] else Moved(p.ccf[i - q], p.derivative[i - q], r)
    else
      var m := -q;
      if m <= n && i < n - m then Moved(p.ccf[m + i], p.derivative[m + i], r) else p.ccf[0]
  }

  /** The values `shift_into` produces, before they are cut to the output's length. */
  function Shifted(p: Profile, velocity: real): (s: seq<real>)
    requires Valid(p)
    ensures |p.ccf| <= |s| == ShiftedLen(p, velocity)
    ensures forall i :: 0 <= i < |s| ==> s[i] == ShiftedAt(p, velocity, i)
  {
    QuotientSign(p, velocity);
    seq(ShiftedLen(p, velocity), i requires 0 <= i < ShiftedLen(p, velocity) => ShiftedAt(p, velocity, i))
  }

  /** The sign of the quotient follows the sign of the velocity. */
  lemma QuotientSign(p: Profile, velocity: real)
    requires Valid(p)
    ensures 0.0 <= velocity ==> 0 <= Quotient(p, velocity)
    ensures velocity < 0.0 ==> Quotient(p, velocity) <= 0
  {
    if velocity < 0.0 {
      assert velocity / p.stepsize < 0.0;
    }
  }

  /** The part covered by the slopes never reaches further than half a grid step. */
  lemma RemainderBound(p: Profile, velocity: real)
    requires Valid(p)
    ensures -p.stepsize / 2.0 <= Remainder(p, velocity) <= p.stepsize / 2.0
    ensures velocity == Quotient(p, velocity) as real * p.stepsize + Remainder(p, velocity)
  {
    var s := p.stepsize;
    var x := velocity / s;
    var q := Quotient(p, velocity);
    var f := x - q as real;
    assert -0.5 <= f <= 0.5;
    assert x * s == velocity;
    assert Remainder(p, velocity) == f * s;
    assert -0.5 * s <= f * s <= 0.5 * s;
  }

  /** `Shifted` has a value for every grid point (more when the shift exceeds the grid). */
  lemma ShiftedLength(p: Profile, velocity: real)
    requires Valid(p)
    ensures |p.ccf| <= |Shifted(p, velocity)|
    ensures -|p.ccf| <= Quotient(p, velocity) <= |p.ccf| ==> |Shifted(p, velocity)| == |p.ccf|
  {
    QuotientSign(p, velocity);
  }

  /** For a forward shift by `q` steps: the first `q` values repeat `ccf[0]`, and value
    * `i` after them is sample `i - q` moved by the remainder along its slope. */
  lemma ShiftedForward(p: Profile, velocity: real, i: nat)
    requires Valid(p) && 0.0 <= velocity
    requires Quotient(p, velocity) <= |p.ccf| && i < |p.ccf|
    ensures var q := Quotient(p, velocity); var s := Shifted(p, velocity);
      && |s| == |p.ccf|
      && (i < q ==> s[i] == p.ccf[0])
      && (q <= i ==> s[i] == Moved(p.ccf[i - q], p.derivative[i - q], Remainder(p, velocity)))
  {
    QuotientSign(p, velocity);
  }

  /** For a backward shift by `m` steps: value `i` is sample `i + m` moved by the
    * remainder along its slope, and the last `m` values repeat `ccf[0]`. */
  lemma ShiftedBackward(p: Profile, velocity: real, i: nat)
    requires Valid(p) && velocity < 0.0
    requires -Quotient(p, velocity) <= |p.ccf| && i < |p.ccf|
    ensures var m := -Quotient(p, velocity); var s := Shifted(p, velocity);
      && |s| == |p.ccf|
      && (i < |p.ccf| - m ==> s[i] == Moved(p.ccf[i + m], p.derivative[i + m], Remainder(p, velocity)))
      && (|p.ccf| - m <= i ==> s[i] == p.ccf[0])
  {
    QuotientSign(p, velocity);
  }

  /** A shift by zero (or by a velocity that rounds to no step with no remainder)
    * reproduces the profile exactly: the zero-shift tests of profile.rs. */
  lemma ZeroShift(p: Profile)
    requires Valid(p)
    ensures Shifted(p, 0.0) == p.ccf
    ensures Shifted(p, -0.0) == p.ccf
  {
    assert Quotient(p, 0.0) == 0;
    assert Remainder(p, 0.0) == 0.0;
    var s := Shifted(p, 0.0);
    assert |s| == |p.ccf|;
    forall i | 0 <= i < |s|
      ensures s[i] == p.ccf[i]
    {
      assert s[i] == Moved(p.ccf[i], p.derivative[i], 0.0);
    }
  }

  /** A shift by a whole number `k` of steps moves every sample exactly `k` places,
    * filling the vacated places with `ccf[0]`. */
  lemma WholeStepShift(p: Profile, k: int)
    requires Valid(p) && -|p.ccf| <= k <= |p.ccf|
    ensures var s := Shifted(p, k as real * p.stepsize); var n := |p.ccf|;
      && |s| == n
      && (0 <= k ==> forall i :: 0 <= i < n ==> s[i] == if i < k then p.ccf[0] else p.ccf[i - k])
      && (k < 0 ==> forall i :: 0 <= i < n ==> s[i] == if i < n + k then p.ccf[i - k] else p.ccf[0])
  {
    var v := k as real * p.stepsize;
    assert v / p.stepsize == k as real;
    assert Quotient(p, v) == k;
    assert Remainder(p, v) == 0.0;
    ShiftedLength(p, v);
    var s := Shifted(p, v);
    if 0 <= k {
      forall i | 0 <= i < |p.ccf|
        ensures s[i] == if i < k then p.ccf[0] else p.ccf[i - k]
      {
        ShiftedForward(p, v, i);
      }
    } else {
      assert v < 0.0;
      forall i | 0 <= i < |p.ccf|
        ensures s[i] == if i < |p.ccf| + k then p.ccf[i - k] else p.ccf[0]
      {
        ShiftedBackward(p, v, i);
      }
    }
  }

  /** A grid that rises by exactly `stepsize` at every point. */
  predicate Ascending(p: Profile)
    requires Valid(p)
  {
    forall j :: 0 <= j < |p.rv| - 1 ==> Gap(p.rv, j) == -p.stepsize
  }

  /** The straight line through samples `j` and `j + 1`, evaluated at velocity `x`,
    * defined without the precomputed slopes. For `x` between `rv[j]` and `rv[j + 1]`
    * this is linear interpolation; elsewhere it extends the same line. */
  function Chord(p: Profile, j: nat, x: real): real
    requires Valid(p) && j + 1 < |p.ccf|
  {
    p.ccf[j] + (x - p.rv[j]) * Gap(p.ccf, j) / Gap(p.rv, j)
  }

  /** On an ascending uniform grid, a forward-shifted value lies on the line through
    * samples `j` and `j + 1` (`j = i - q`), evaluated at `rv[i] - velocity`, which is
    * within half a step of `rv[j]`. This is interpolation when the remainder is at
    * most 0, and extrapolation of that forward line by at most half a step below
    * `rv[j]` when the remainder is positive. */
  lemma ShiftInterpolates(p: Profile, velocity: real, i: nat)
    requires Valid(p) && Ascending(p) && 0.0 <= velocity && i < |p.ccf|
    requires Quotient(p, velocity) <= i && i - Quotient(p, velocity) + 1 < |p.ccf|
    ensures Shifted(p, velocity)[i] == Chord(p, i - Quotient(p, velocity), p.rv[i] - velocity)
    ensures p.rv[i - Quotient(p, velocity)] - p.stepsize / 2.0 <= p.rv[i] - velocity
                                                             <= p.rv[i - Quotient(p, velocity)] + p.stepsize / 2.0
  {
    var q := Quotient(p, velocity);
    var r := Remainder(p, velocity);
    var j := i - q;
    ShiftedForward(p, velocity, i);
    RemainderBound(p, velocity);
    AscendingGap(p, i, j);
    assert p.rv[i] - velocity == p.rv[j] - r;
    MovedIsChord(p, j, r);
  }

  /** The same for a backward shift: value `i` lies on the line through samples
    * `j = i + m` and `j + 1`, evaluated at `rv[i] - velocity`, within half a step of
    * `rv[j]`: interpolation when the remainder is at most 0, extrapolation by at
    * most half a step below `rv[j]` when it is positive. */
  lemma ShiftInterpolatesBackward(p: Profile, velocity: real, i: nat)
    requires Valid(p) && Ascending(p) && velocity < 0.0
    requires -Quotient(p, velocity) <= |p.ccf| && i - Quotient(p, velocity) + 1 < |p.ccf|
    ensures Shifted(p, velocity)[i] == Chord(p, i - Quotient(p, velocity), p.rv[i] - velocity)
    ensures p.rv[i - Quotient(p, velocity)] - p.stepsize / 2.0 <= p.rv[i] - velocity
                                                             <= p.rv[i - Quotient(p, velocity)] + p.stepsize / 2.0
  {
    var q := Quotient(p, velocity);
    var r := Remainder(p, velocity);
    QuotientSign(p, velocity);
    var j := i - q;
    ShiftedBackward(p, velocity, i);
    RemainderBound(p, velocity);
    AscendingGap(p, j, i);
    assert p.rv[i] - velocity == p.rv[j] - r;
    MovedIsChord(p, j, r);
  }

  /** Moving sample `j` back by `r` along its stored slope lands on the chord from
    * point `j` to point `j + 1`, at `r` before point `j`. */
  lemma MovedIsChord(p: Profile, j: nat, r: real)
    requires Valid(p) && j + 1 < |p.ccf|
    ensures Moved(p.ccf[j], p.derivative[j], r) == Chord(p, j, p.rv[j] - r)
  {
    SlopeMeaning(p.rv, p.ccf);
    InterpolationStep(Gap(p.rv, j), r, p.ccf[j], Gap(p.ccf, j), p.derivative[j]);
  }

  /** Points of an ascending uniform grid lie as many steps apart as their indices. */
  lemma {:induction false} AscendingGap(p: Profile, i: nat, j: nat)
    requires Valid(p) && Ascending(p) && j <= i < |p.rv|
    ensures p.rv[i] - p.rv[j] == (i - j) as real * p.stepsize
    decreases i - j
  {
    if j < i {
      AscendingGap(p, i - 1, j);
      assert Gap(p.rv, i - 1) == -p.stepsize;
      assert (i - j) as real * p.stepsize == (i - 1 - j) as real * p.stepsize + p.stepsize;
    }
  }

  /** With `d` the slope `gc / gx`, moving `c0` back by `r` along it is the chord
    * of slope `gc / gx` evaluated at offset `-r`. */
  lemma InterpolationStep(gx: real, r: real, c0: real, gc: real, d: real)
    requires gx != 0.0 && d * gx == gc
    ensures Moved(c0, d, r) == c0 + -r * gc / gx
  {
    assert d == gc / gx;
  }

  function MinNat(a: nat, b: nat): (c: nat)
    ensures c <= a && c <= b && (c == a || c == b)
  {
    if a < b then a else b
  }

  /** `Profile::shift_into` (the scalar build): writes the shifted profile into
    * `output`, as many values as both the shifted profile and `output` have; the
    * rest of `output` is left as it was. */
  method ShiftInto(p: Profile, velocity: real, output: array<real>)
    requires Valid(p)
    modifies output
    ensures var s := Shifted(p, velocity); var k := MinNat(|s|, output.Length);
      && output[..k] == s[..k]
      && output[k..] == old(output[k..])
  {
    var n := |p.ccf|;
    var q := Quotient(p, velocity);
    var r := Remainder(p, velocity);
    QuotientSign(p, velocity);
    var k := MinNat(ShiftedLen(p, velocity), output.Length);
    if 0.0 <= velocity {
      for i := 0 to k
        invariant forall j :: 0 <= j < i ==> output[j] == ShiftedAt(p, velocity, j)
        invariant forall j :: i <= j < output.Length ==> output[j] == old(output[j])
      {
        if i < q {
          output[i] := p.ccf[0];
        } else {
          output[i] := Moved(p.ccf[i - q], p.derivative[i - q], r);
        }
      }
    } else {
      var m := -q;
      var front := if m <= n then n - m else 0;
      for i := 0 to k
        invariant forall j :: 0 <= j < i ==> output[j] == ShiftedAt(p, velocity, j)
        invariant forall j :: i <= j < output.Length ==> output[j] == old(output[j])
      {
        if i < front {
          output[i] := Moved(p.ccf[m + i], p.derivative[m + i], r);
        } else {
          output[i] := p.ccf[0];
        }
      }
    }
  }
}
