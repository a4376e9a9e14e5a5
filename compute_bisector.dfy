/**
 * The line bisector of a cross-correlation profile (compute_bisector.rs).
 *
 * `compute_bisector` finds the first minimum of the profile, takes the run of
 * non-decreasing values on each side of it as the two wings of the line, fits a
 * spline through each wing (depth to velocity), and averages the two splines at
 * 1000 depths from the minimum up to the lower of the two wing tops.
 *
 * The splines come from GSL; here they are the parameter `eval`, which maps a
 * wing and a depth to a velocity. The failures of the source are the result
 * `None`: a cubic spline needs at least three points (fewer and the `unwrap` of
 * its allocation panics) and strictly increasing abscissae (GSL's `init`
 * rejects anything else), and the last point of an empty wing cannot be read.
 */
module Bisectors {
  import opened Numerics
  import Grids

  /** The number of depths the bisector is sampled at. */
  const SAMPLES: nat := 1000

  /** The fewest points GSL's cubic spline accepts. */
  const SPLINE_MIN_POINTS: nat := 3

  /** The running minimum of the fold: its index, and its value, where `None`
    * stands for the starting value `f64::INFINITY`. */
  datatype Lowest = Lowest(index: nat, value: Option<real>)

  /** `x` is below `v`; every value is below infinity. */
  predicate Below(x: real, v: Option<real>) {
    v.None? || x < v.value
  }

  /** The fold over the first `k` values of the profile, starting at
    * `(0, INFINITY)` and moving on only to a value strictly below the current
    * one: the first of the smallest values. */
  function FoldMin(p: seq<real>, k: nat): (r: Lowest)
    requires k <= |p|
    ensures k == 0 ==> r == Lowest(0, None)
    ensures 0 < k ==> r.index < k && r.value == Some(p[r.index])
    ensures 0 < k ==> forall j :: 0 <= j < k ==> p[r.index] <= p[j]
    ensures 0 < k ==> forall j :: 0 <= j < r.index ==> p[r.index] < p[j]
    decreases k
  {
    if k == 0 then Lowest(0, None)
    else
      var acc := FoldMin(p, k - 1);
      if Below(p[k - 1], acc.value) then Lowest(k - 1, Some(p[k - 1])) else acc
  }

  /** The `(min_index, min_value)` of the whole profile. */
  function ArgMin(p: seq<real>): Lowest {
    FoldMin(p, |p|)
  }

  /** The number of adjacent pairs `(p[j], p[j + 1])`, from `j` on, that do not
    * go down: the `take_while(this <= next).count()` of the right wing. */
  function RightRun(p: seq<real>, j: nat): (c: nat)
    ensures c == 0 || j + c < |p|
    ensures forall k :: j <= k < j + c ==> p[k] <= p[k + 1]
    ensures j + c + 1 < |p| ==> p[j + c + 1] < p[j + c]
    decreases |p| - j
  {
    if j + 1 < |p| && p[j] <= p[j + 1] then 1 + RightRun(p, j + 1) else 0
  }

  /** The number of adjacent pairs `(p[j], p[j - 1])`, from `j` down, that do not
    * go down: the left wing walks the reversed profile. */
  function LeftRun(p: seq<real>, j: nat): (c: nat)
    ensures c <= j && (c == 0 || j < |p|)
    ensures forall k :: j - c < k <= j ==> p[k] <= p[k - 1]
    ensures 0 < j - c < |p| ==> p[j - c - 1] < p[j - c]
    decreases j
  {
    if 1 <= j < |p| && p[j] <= p[j - 1] then 1 + LeftRun(p, j - 1) else 0
  }

  /** A wing of the line: the profile values it takes, outward from the minimum,
    * and the velocities they sit at. */
  datatype Wing = Wing(depths: seq<real>, rvs: seq<real>)

  /** Depths that never go down from one point of a wing to the next. */
  predicate Rising(w: Wing) {
    forall k :: 0 <= k < |w.depths| - 1 ==> w.depths[k] <= w.depths[k + 1]
  }

  /** Depths that go strictly up from one point of a wing to the next. */
  predicate StrictlyRising(w: Wing) {
    forall k :: 0 <= k < |w.depths| - 1 ==> w.depths[k] < w.depths[k + 1]
  }

  /** A wing GSL can build and initialise a cubic spline from: at least three
    * points, depths strictly increasing. */
  predicate Splineable(w: Wing) {
    SPLINE_MIN_POINTS <= |w.depths| && StrictlyRising(w)
  }

  /** `profile[i..i + right_count]` and the matching velocities. */
  function RightWing(p: seq<real>, rv: seq<real>, i: nat): (w: Wing)
    requires |rv| == |p| && i <= |p|
    ensures |w.depths| == |w.rvs| == RightRun(p, i)
    ensures forall k :: 0 <= k < |w.depths| ==> w.depths[k] == p[i + k] && w.rvs[k] == rv[i + k]
    ensures Rising(w)
  {
    var c := RightRun(p, i);
    Wing(p[i..i + c], rv[i..i + c])
  }

  /** The left wing: the values from index `i` down while they do not go down,
    * each with its velocity, nearest the minimum first. */
  function LeftWing(p: seq<real>, rv: seq<real>, i: nat): (w: Wing)
    requires |rv| == |p|
    ensures |w.depths| == |w.rvs| == LeftRun(p, i)
    ensures forall k :: 0 <= k < |w.depths| ==> w.depths[k] == p[i - k] && w.rvs[k] == rv[i - k]
    ensures Rising(w)
  {
    var c := LeftRun(p, i);
    Wing(seq(c, k requires 0 <= k < c => p[i - k]), seq(c, k requires 0 <= k < c => rv[i - k]))
  }

  function Last(s: seq<real>): real
    requires s != []
  {
    s[|s| - 1]
  }

  /** The depths the bisector is sampled at: from the minimum to the lower of the
    * two wing tops. */
  function Depths(minValue: real, left: Wing, right: Wing): seq<real>
    requires left.depths != [] && right.depths != []
  {
    Grids.LinspaceValues(minValue, Min(Last(left.depths), Last(right.depths)), SAMPLES)
  }

  /** `compute_bisector`: `None` where the source cannot build or initialise a
    * wing's spline, otherwise the average of the two wings' splines at each
    * sampled depth. */
  function BisectorOf(rv: seq<real>, p: seq<real>, eval: (Wing, real) -> real): (r: Option<seq<real>>)
    requires |rv| == |p|
    ensures r.Some? ==> |r.value| == SAMPLES
  {
    var low := ArgMin(p);
    var right := RightWing(p, rv, low.index);
    var left := LeftWing(p, rv, low.index);
    if !Splineable(left) || !Splineable(right) then None
    else
      var xs := Depths(p[low.index], left, right);
      Some(seq(SAMPLES, k requires 0 <= k < SAMPLES => (eval(left, xs[k]) + eval(right, xs[k])) / 2.0))
  }

  /** Both wings start at the first minimum and rise from it; the bisector exists
    * exactly when that minimum is neither the first nor the last point. */
  lemma WingsAtMinimum(rv: seq<real>, p: seq<real>)
    requires |rv| == |p| && p != []
    ensures var i := ArgMin(p).index;
      && i < |p| && ArgMin(p).value == Some(p[i])
      && (RightWing(p, rv, i).depths != [] <==> i < |p| - 1)
      && (LeftWing(p, rv, i).depths != [] <==> 0 < i)
      && (RightWing(p, rv, i).depths != [] ==> RightWing(p, rv, i).depths[0] == p[i])
      && (LeftWing(p, rv, i).depths != [] ==> LeftWing(p, rv, i).depths[0] == p[i])
  {
    var i := ArgMin(p).index;
    if i < |p| - 1 {
      assert p[i] <= p[i + 1];
    }
    if 0 < i {
      assert p[i] < p[i - 1];
    }
  }

  /** `compute_bisector` has a result exactly when the profile is not empty and,
    * from its first minimum, at least three pairs on each side keep going up,
    * every pair a wing keeps but its last strictly so. The minimum then lies at
    * least three points from either end, so reading the wing tops cannot fail. */
  lemma BisectorDefined(rv: seq<real>, p: seq<real>, eval: (Wing, real) -> real)
    requires |rv| == |p|
    ensures BisectorOf(rv, p, eval).Some? <==>
      && p != []
      && var i := ArgMin(p).index;
         var l, c := LeftRun(p, i), RightRun(p, i);
         && SPLINE_MIN_POINTS <= l && SPLINE_MIN_POINTS <= c
         && (forall k :: i <= k < i + c - 1 ==> p[k] < p[k + 1])
         && (forall k :: i - l + 1 < k <= i ==> p[k] < p[k - 1])
    ensures BisectorOf(rv, p, eval).Some? ==>
      SPLINE_MIN_POINTS <= ArgMin(p).index && ArgMin(p).index + SPLINE_MIN_POINTS < |p|
  {
    var i := ArgMin(p).index;
    BisectorFromWings(rv, p, eval);
    if p != [] {
      RightStrict(p, rv, i);
      LeftStrict(p, rv, i);
    }
  }

  /** The bisector exists exactly when both wings can carry a spline. */
  lemma BisectorFromWings(rv: seq<real>, p: seq<real>, eval: (Wing, real) -> real)
    requires |rv| == |p|
    ensures BisectorOf(rv, p, eval).Some? <==>
      Splineable(LeftWing(p, rv, ArgMin(p).index)) && Splineable(RightWing(p, rv, ArgMin(p).index))
  {
  }

  /** The right wing rises strictly exactly when the pairs it keeps do. */
  lemma RightStrict(p: seq<real>, rv: seq<real>, i: nat)
    requires |rv| == |p| && i <= |p|
    ensures var c := RightRun(p, i);
      StrictlyRising(RightWing(p, rv, i)) <==> forall k :: i <= k < i + c - 1 ==> p[k] < p[k + 1]
  {
    var right := RightWing(p, rv, i);
    var c := RightRun(p, i);
    if StrictlyRising(right) {
      forall k | i <= k < i + c - 1
        ensures p[k] < p[k + 1]
      {
        assert right.depths[k - i] == p[k] && right.depths[k - i + 1] == p[k + 1];
      }
    }
  }

  /** The left wing rises strictly exactly when the pairs it keeps do. */
  lemma LeftStrict(p: seq<real>, rv: seq<real>, i: nat)
    requires |rv| == |p|
    ensures var l := LeftRun(p, i);
      StrictlyRising(LeftWing(p, rv, i)) <==> forall k :: i - l + 1 < k <= i ==> p[k] < p[k - 1]
  {
    var left := LeftWing(p, rv, i);
    var l := LeftRun(p, i);
    if StrictlyRising(left) {
      forall k | i - l + 1 < k <= i
        ensures p[k] < p[k - 1]
      {
        assert left.depths[i - k] == p[k] && left.depths[i - k + 1] == p[k - 1];
      }
    }
  }

  /** The profile `[3, 1, 2, 5]` has its minimum inside, so both wings hold a point
    * and their tops can be read, but the left wing has one point and the right
    * two: too few for a cubic spline, so the source fails and so does the model. */
  lemma ShortWingExample(eval: (Wing, real) -> real)
    ensures var p := [3.0, 1.0, 2.0, 5.0];
      && ArgMin(p).index == 1
      && |LeftWing(p, p, 1).depths| == 1 && |RightWing(p, p, 1).depths| == 2
      && BisectorOf(p, p, eval).None?
  {
    var p := [3.0, 1.0, 2.0, 5.0];
    ShortWingMinimum();
    ShortWingRuns();
    BisectorFromWings(p, p, eval);
  }

  lemma ShortWingMinimum()
    ensures ArgMin([3.0, 1.0, 2.0, 5.0]).index == 1
  {
    var p := [3.0, 1.0, 2.0, 5.0];
    assert FoldMin(p, 1).index == 0;
    assert FoldMin(p, 2).index == 1;
    assert FoldMin(p, 3).index == 1;
  }

  lemma ShortWingRuns()
    ensures LeftRun([3.0, 1.0, 2.0, 5.0], 1) == 1 && RightRun([3.0, 1.0, 2.0, 5.0], 1) == 2
  {
    var p := [3.0, 1.0, 2.0, 5.0];
    assert LeftRun(p, 0) == 0;
    assert RightRun(p, 3) == 0;
    assert RightRun(p, 2) == 1;
  }

  /** A line that falls and rises by three steps each side has a bisector. */
  lemma DeepLineExample(eval: (Wing, real) -> real)
    ensures var p := [4.0, 3.0, 2.0, 1.0, 2.0, 3.0, 4.0];
      BisectorOf(p, p, eval).Some?
  {
    var p := [4.0, 3.0, 2.0, 1.0, 2.0, 3.0, 4.0];
    DeepLineMinimum();
    DeepLineWings();
    BisectorFromWings(p, p, eval);
  }

  lemma DeepLineMinimum()
    ensures ArgMin([4.0, 3.0, 2.0, 1.0, 2.0, 3.0, 4.0]).index == 3
  {
    var p := [4.0, 3.0, 2.0, 1.0, 2.0, 3.0, 4.0];
    assert FoldMin(p, 1).index == 0;
    assert FoldMin(p, 2).index == 1;
    assert FoldMin(p, 3).index == 2;
    assert FoldMin(p, 4).index == 3;
    assert FoldMin(p, 5).index == 3;
    assert FoldMin(p, 6).index == 3;
  }

  /** Both wings of the line are `[1, 2, 3]`. */
  lemma DeepLineWings()
    ensures var p := [4.0, 3.0, 2.0, 1.0, 2.0, 3.0, 4.0];
      Splineable(LeftWing(p, p, 3)) && Splineable(RightWing(p, p, 3))
  {
    var p := [4.0, 3.0, 2.0, 1.0, 2.0, 3.0, 4.0];
    DeepLineRightWing();
    ThreeRising(RightWing(p, p, 3));
    DeepLineLeftRun();
    ThreeRising(LeftWing(p, p, 3));
  }

  lemma DeepLineRightWing()
    ensures RightWing([4.0, 3.0, 2.0, 1.0, 2.0, 3.0, 4.0], [4.0, 3.0, 2.0, 1.0, 2.0, 3.0, 4.0], 3).depths
      == [1.0, 2.0, 3.0]
  {
    var p := [4.0, 3.0, 2.0, 1.0, 2.0, 3.0, 4.0];
    assert RightRun(p, 6) == 0;
    assert RightRun(p, 5) == 1;
    assert RightRun(p, 4) == 2;
    assert RightRun(p, 3) == 3;
  }

  /** The left run from the minimum sees only the first four values. */
  lemma DeepLineLeftRun()
    ensures LeftRun([4.0, 3.0, 2.0, 1.0, 2.0, 3.0, 4.0], 3) == 3
  {
    var p := [4.0, 3.0, 2.0, 1.0, 2.0, 3.0, 4.0];
    assert p[..4] == [4.0, 3.0, 2.0, 1.0];
    LeftRunPrefix(p, 4, 3);
    DeepLineDescent();
  }

  /** `[4, 3, 2, 1]` is `[1, 2, 3, 4]` mirrored, whose right run from the start is 3. */
  lemma DeepLineDescent()
    ensures LeftRun([4.0, 3.0, 2.0, 1.0], 3) == 3
  {
    var r := [1.0, 2.0, 3.0, 4.0];
    assert RightRun(r, 3) == 0;
    assert RightRun(r, 2) == 1;
    assert RightRun(r, 1) == 2;
    assert RightRun(r, 0) == 3;
    RunMirror(r, 0);
    assert Reverse(r) == [4.0, 3.0, 2.0, 1.0];
  }

  /** The left run from `j` sees only the values up to `j`. */
  lemma {:induction false} LeftRunPrefix(p: seq<real>, n: nat, j: nat)
    requires j < n <= |p|
    ensures LeftRun(p[..n], j) == LeftRun(p, j)
    decreases j
  {
    if 1 <= j {
      LeftRunPrefix(p, n, j - 1);
    }
  }

  /** Three strictly increasing depths carry a spline. */
  lemma ThreeRising(w: Wing)
    requires |w.depths| == 3 && w.depths[0] < w.depths[1] < w.depths[2]
    ensures Splineable(w)
  {
  }

  /** The depths run from the minimum up to the lower wing top, which is no lower
    * than the minimum, and every sample averages the two wings at its depth. */
  lemma BisectorSamples(rv: seq<real>, p: seq<real>, eval: (Wing, real) -> real)
    requires |rv| == |p| && BisectorOf(rv, p, eval).Some?
    ensures var i := ArgMin(p).index;
      var left := LeftWing(p, rv, i);
      var right := RightWing(p, rv, i);
      var xs := Depths(p[i], left, right);
      && xs[0] == p[i]
      && xs[SAMPLES - 1] == Min(Last(left.depths), Last(right.depths))
      && p[i] <= xs[SAMPLES - 1]
      && forall k :: 0 <= k < SAMPLES ==>
           BisectorOf(rv, p, eval).value[k] == (eval(left, xs[k]) + eval(right, xs[k])) / 2.0
  {
    var i := ArgMin(p).index;
    var left := LeftWing(p, rv, i);
    var right := RightWing(p, rv, i);
    WingsAtMinimum(rv, p);
    RisingFromFirst(left);
    RisingFromFirst(right);
    Grids.LinspaceEndpoints(p[i], Min(Last(left.depths), Last(right.depths)), SAMPLES);
  }

  /** A rising wing ends no lower than it starts. */
  lemma RisingFromFirst(w: Wing)
    requires Rising(w) && w.depths != []
    ensures w.depths[0] <= Last(w.depths)
  {
    var k := 0;
    while k < |w.depths| - 1
      invariant k <= |w.depths| - 1
      invariant w.depths[0] <= w.depths[k]
    {
      k := k + 1;
    }
  }

  function Reverse(s: seq<real>): (r: seq<real>)
    ensures |r| == |s| && forall k :: 0 <= k < |s| ==> r[k] == s[|s| - 1 - k]
  {
    seq(|s|, k requires 0 <= k < |s| => s[|s| - 1 - k])
  }

  /** Walking the reversed profile down from the mirrored index counts the same
    * pairs as walking the profile up. */
  lemma {:induction false} RunMirror(p: seq<real>, i: nat)
    requires i < |p|
    ensures LeftRun(Reverse(p), |p| - 1 - i) == RightRun(p, i)
    decreases |p| - i
  {
    var q := Reverse(p);
    var j := |p| - 1 - i;
    if i + 1 < |p| {
      assert q[j] == p[i] && q[j - 1] == p[i + 1];
      RunMirror(p, i + 1);
    }
  }

  /** The left wing is the right wing of the mirrored line: the `- 1` in the skip
    * count makes the left walk start at the minimum itself, as the right one does. */
  lemma WingMirror(p: seq<real>, rv: seq<real>, i: nat)
    requires |rv| == |p| && i < |p|
    ensures LeftWing(Reverse(p), Reverse(rv), |p| - 1 - i) == RightWing(p, rv, i)
  {
    RunMirror(p, i);
    MirrorDepths(p, rv, i);
    MirrorVelocities(p, rv, i);
  }

  lemma MirrorDepths(p: seq<real>, rv: seq<real>, i: nat)
    requires |rv| == |p| && i < |p|
    requires LeftRun(Reverse(p), |p| - 1 - i) == RightRun(p, i)
    ensures LeftWing(Reverse(p), Reverse(rv), |p| - 1 - i).depths == RightWing(p, rv, i).depths
  {
    var l := LeftWing(Reverse(p), Reverse(rv), |p| - 1 - i).depths;
    var r := RightWing(p, rv, i).depths;
    forall k | 0 <= k < |l|
      ensures l[k] == r[k]
    {
      assert l[k] == Reverse(p)[|p| - 1 - i - k];
    }
  }

  lemma MirrorVelocities(p: seq<real>, rv: seq<real>, i: nat)
    requires |rv| == |p| && i < |p|
    requires LeftRun(Reverse(p), |p| - 1 - i) == RightRun(p, i)
    ensures LeftWing(Reverse(p), Reverse(rv), |p| - 1 - i).rvs == RightWing(p, rv, i).rvs
  {
    var l := LeftWing(Reverse(p), Reverse(rv), |p| - 1 - i).rvs;
    var r := RightWing(p, rv, i).rvs;
    forall k | 0 <= k < |l|
      ensures l[k] == r[k]
    {
      assert l[k] == Reverse(rv)[|p| - 1 - i - k];
    }
  }
}
