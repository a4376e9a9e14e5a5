/**
 * The sweeps of spot.rs over the rows of a spot's bounding shape: the flux a
 * spot removes (`get_flux`), the profile it removes (`get_ccf`), and whether
 * two spots ever overlap (`collides_with`).
 *
 * Both sweeps walk the rows `floatrange(y_min, y_max, 2 / grid_size)` of the
 * shape's `y` bounds, and on each row ask `z_bounds` for the part of the row on
 * the spot, threading the `z` bounds found on one row into the next as the
 * guess the walk starts from. The pure functions `RowLimbs`, `FluxSum` and `CcfSum`
 * state what the loops compute; the methods `GetFlux` and `GetCcf` are proved
 * against them.
 */
module SpotSweeps {
  import opened Numerics
  import opened Intervals
  import Grids
  import Profiles
  import Stars
  import Spots
  import Shapes

  /** What `BoundingShape::new` needs of a spot's star: a rotation period to take
    * the phase modulo, and a grid size to divide by. */
  predicate Placeable(spot: Spots.Spot) {
    spot.star.period != 0.0 && 0 < spot.star.gridSize
  }

  /** The rows of a sweep over the `y` bounds `yb`. */
  function Rows(spot: Spots.Spot, yb: Bounds): seq<real>
    requires 0 < spot.star.gridSize
  {
    Grids.FloatrangeValues(yb.lower, yb.upper, Shapes.GridInterval(spot.star))
  }

  /** The limb integral of a row over the `z` bounds `z_bounds` found for it, or
    * nothing when it found none. */
  function RowLimb(m: Math, star: Stars.Star, zb: Option<Bounds>, y: real): Option<real> {
    if zb.None? then None
    else Some(Stars.LimbIntegral(m, zb.value, y, star.limbLinear, star.limbQuadratic))
  }

  // ---------------------------------------------------------------------------
  // The rows of a sweep

  /** The rows' limb integrals, each row's `z_bounds` called with the guess the
    * previous row left behind. */
  function RowLimbs(m: Math, s: Shapes.Shape, star: Stars.Star, ys: seq<real>, guess: Option<Bounds>): (ls: seq<Option<real>>)
    requires s.gridInterval != 0.0
    ensures |ls| == |ys|
    decreases |ys|
  {
    if ys == [] then []
    else
      var zg := Shapes.ZBoundsOf(m, s, ys[0], guess);
      [RowLimb(m, star, zg.0, ys[0])] + RowLimbs(m, s, star, ys[1..], zg.1)
  }

  /** One row more: its limb integral, then the rest of the rows with the guess it
    * leaves behind. */
  lemma RowLimbsStep(m: Math, s: Shapes.Shape, star: Stars.Star, y: real, rest: seq<real>, guess: Option<Bounds>)
    requires s.gridInterval != 0.0
    ensures var zg := Shapes.ZBoundsOf(m, s, y, guess);
      RowLimbs(m, s, star, [y] + rest, guess) == [RowLimb(m, star, zg.0, y)] + RowLimbs(m, s, star, rest, zg.1)
  {
    assert ([y] + rest)[1..] == rest;
  }

  /** The first row of every sweep finds its `z` bounds by brute force, as the
    * guess starts out empty; a row off the disk (`|y| >= 1`) has no limb integral
    * and hands the guess on unchanged. */
  lemma RowLimbsFirst(m: Math, s: Shapes.Shape, star: Stars.Star, ys: seq<real>, guess: Option<Bounds>)
    requires s.gridInterval != 0.0 && ys != []
    ensures Abs(ys[0]) < 1.0 ==>
      RowLimbs(m, s, star, ys, None)[0] == RowLimb(m, star, Shapes.ZBoundsBruteOf(m, s, ys[0]), ys[0])
    ensures Abs(ys[0]) >= 1.0 ==>
      RowLimbs(m, s, star, ys, guess) == [None] + RowLimbs(m, s, star, ys[1..], guess)
  {
    Shapes.ZBoundsGuess(m, s, ys[0], None);
    Shapes.ZBoundsGuess(m, s, ys[0], guess);
  }

  // ---------------------------------------------------------------------------
  // get_flux

  /** The rows' limb integrals added up, a row without `z` bounds adding 0. */
  function FluxSum(limbs: seq<Option<real>>): real
    decreases |limbs|
  {
    if limbs == [] then 0.0 else Stars.RowFlux(limbs[0]) + FluxSum(limbs[1..])
  }

  lemma FluxSumStep(l: Option<real>, rest: seq<Option<real>>)
    ensures FluxSum([l] + rest) == Stars.RowFlux(l) + FluxSum(rest)
  {
    assert ([l] + rest)[1..] == rest;
  }

  /** What a black spot of the given shape takes away: nothing without `y`
    * bounds, otherwise the sum of the rows' limb integrals, the guess starting
    * out empty. */
  function ShapeFlux(m: Math, s: Shapes.Shape, spot: Spots.Spot): real
    requires 0 < spot.star.gridSize && s.gridInterval != 0.0
  {
    match Shapes.YBounds(m, s)
    case None => 0.0
    case Some(yb) => FluxSum(RowLimbs(m, s, spot.star, Rows(spot, yb), None))
  }

  /** The part `1 - intensity` of `x` that a spot of the given intensity takes away. */
  function Dimmed(spot: Spots.Spot, x: real): real {
    (1.0 - spot.intensity) * x
  }

  /** `Spot::get_flux`: what a black spot of the same shape takes away, scaled by
    * the fraction `1 - intensity` of the light the spot takes away. */
  function FluxOf(m: Math, spot: Spots.Spot, time: real): (f: real)
    requires Placeable(spot)
    ensures Shapes.YBounds(m, Shapes.New(m, spot, time)).None? ==> f == 0.0
  {
    Dimmed(spot, ShapeFlux(m, Shapes.New(m, spot, time), spot))
  }

  /** The flux a spot removes is `1 - intensity` times what a black spot of the
    * same shape removes: the shape does not depend on the intensity. */
  lemma FluxScalesWithIntensity(m: Math, spot: Spots.Spot, time: real)
    requires Placeable(spot)
    ensures FluxOf(m, spot, time) == Dimmed(spot, FluxOf(m, spot.(intensity := 0.0), time))
  {
    var black := spot.(intensity := 0.0);
    var s := Shapes.New(m, spot, time);
    assert s == Shapes.New(m, black, time);
    var x := ShapeFlux(m, s, spot);
    assert x == ShapeFlux(m, s, black);
    assert Dimmed(black, x) == x;
  }

  /** The row loop of `Spot::get_flux`: walk the rows with a `Floatrange`
    * iterator, call `z_bounds` with the guess kept in a local variable, and add
    * up the limb integrals. */
  method SumRowFluxes(m: Math, s: Shapes.Shape, spot: Spots.Spot, yb: Bounds) returns (limbSum: real)
    requires 0 < spot.star.gridSize && s.gridInterval != 0.0
    ensures limbSum == FluxSum(RowLimbs(m, s, spot.star, Rows(spot, yb), None))
  {
    var it := new Grids.Floatrange(yb.lower, yb.upper, Shapes.GridInterval(spot.star));
    ghost var all := it.Remaining();
    var guess: Option<Bounds> := None;
    limbSum := 0.0;
    while true
      invariant fresh(it)
      invariant limbSum + FluxSum(RowLimbs(m, s, spot.star, it.Remaining(), guess))
        == FluxSum(RowLimbs(m, s, spot.star, all, None))
      decreases |it.Remaining()|
    {
      ghost var rest := it.Remaining();
      var y := it.Next();
      if y.None? {
        break;
      }
      assert rest == [y.value] + it.Remaining();
      var zb, guessOut := Shapes.ZBounds(m, s, y.value, guess);
      var limb := RowLimb(m, spot.star, zb, y.value);
      RowLimbsStep(m, s, spot.star, y.value, it.Remaining(), guess);
      FluxSumStep(limb, RowLimbs(m, s, spot.star, it.Remaining(), guessOut));
      limbSum := limbSum + Stars.RowFlux(limb);
      guess := guessOut;
    }
  }

  /** `Spot::get_flux`: build the bounding shape, find its `y` bounds and sum
    * the rows. */
  method GetFlux(m: Math, spot: Spots.Spot, time: real) returns (flux: real)
    requires Placeable(spot)
    ensures flux == FluxOf(m, spot, time)
  {
    var s := Shapes.New(m, spot, time);
    var yBounds := Shapes.YBounds(m, s);
    if yBounds.None? {
      return 0.0;
    }
    var limbSum := SumRowFluxes(m, s, spot, yBounds.value);
    flux := Dimmed(spot, limbSum);
  }

  // ---------------------------------------------------------------------------
  // get_ccf

  /** What a row with limb integral `limb` adds to entry `i` of the spot's
    * profile: the quiet profile less `intensity` times the spot profile, both
    * shifted by the row's velocity `v`, times the limb integral. */
  function CcfRow(spot: Spots.Spot, v: real, limb: Option<real>, i: nat): real
    requires Stars.Valid(spot.star) && i < |spot.star.profileSpot.ccf|
  {
    if limb.None? then 0.0
    else
      (Profiles.Shifted(spot.star.profileQuiet, v)[i]
        - spot.intensity * Profiles.Shifted(spot.star.profileSpot, v)[i]) * limb.value
  }

  /** The line-of-sight velocity of the row at `y`: `y` times the equatorial velocity. */
  function RowVelocity(star: Stars.Star, y: real): real {
    y * star.equatorialVelocity
  }

  /** Entry `i` of the profile summed over the rows `ys` with limb integrals
    * `limbs`, each row shifted by its own velocity `y * v_eq`. */
  function CcfSum(spot: Spots.Spot, ys: seq<real>, limbs: seq<Option<real>>, i: nat): real
    requires Stars.Valid(spot.star) && i < |spot.star.profileSpot.ccf| && |ys| == |limbs|
    decreases |ys|
  {
    if ys == [] then 0.0
    else CcfRow(spot, RowVelocity(spot.star, ys[0]), limbs[0], i) + CcfSum(spot, ys[1..], limbs[1..], i)
  }

  lemma CcfSumStep(spot: Spots.Spot, y: real, rest: seq<real>, l: Option<real>, limbs: seq<Option<real>>, i: nat)
    requires Stars.Valid(spot.star) && i < |spot.star.profileSpot.ccf| && |rest| == |limbs|
    ensures CcfSum(spot, [y] + rest, [l] + limbs, i)
      == CcfRow(spot, RowVelocity(spot.star, y), l, i) + CcfSum(spot, rest, limbs, i)
  {
    assert ([y] + rest)[1..] == rest;
    assert ([l] + limbs)[1..] == limbs;
  }

  /** Entry `i` of the profile summed over the rows `ys`, the first row's
    * `z_bounds` called with `guess`. */
  function CcfFrom(m: Math, s: Shapes.Shape, spot: Spots.Spot, ys: seq<real>, guess: Option<Bounds>, i: nat): real
    requires s.gridInterval != 0.0 && Stars.Valid(spot.star) && i < |spot.star.profileSpot.ccf|
  {
    CcfSum(spot, ys, RowLimbs(m, s, spot.star, ys, guess), i)
  }

  lemma CcfFromStep(m: Math, s: Shapes.Shape, spot: Spots.Spot, y: real, rest: seq<real>, guess: Option<Bounds>, i: nat)
    requires s.gridInterval != 0.0 && Stars.Valid(spot.star) && i < |spot.star.profileSpot.ccf|
    ensures var zg := Shapes.ZBoundsOf(m, s, y, guess);
      CcfFrom(m, s, spot, [y] + rest, guess, i)
        == CcfRow(spot, RowVelocity(spot.star, y), RowLimb(m, spot.star, zg.0, y), i) + CcfFrom(m, s, spot, rest, zg.1, i)
  {
    var zg := Shapes.ZBoundsOf(m, s, y, guess);
    RowLimbsStep(m, s, spot.star, y, rest, guess);
    CcfSumStep(spot, y, rest, RowLimb(m, spot.star, zg.0, y), RowLimbs(m, s, spot.star, rest, zg.1), i);
  }

  /** Entry `i` of the profile a spot of the given shape takes away. */
  function ShapeCcfAt(m: Math, s: Shapes.Shape, spot: Spots.Spot, yb: Bounds, i: nat): real
    requires 0 < spot.star.gridSize && s.gridInterval != 0.0
    requires Stars.Valid(spot.star) && i < |spot.star.profileSpot.ccf|
  {
    CcfFrom(m, s, spot, Rows(spot, yb), None, i)
  }

  /** `Spot::get_ccf`: one entry per point of the spot profile, all zero for a
    * spot without `y` bounds, otherwise the rows' contributions summed. */
  function CcfOf(m: Math, spot: Spots.Spot, time: real): (c: seq<real>)
    requires Placeable(spot) && Stars.Valid(spot.star)
    ensures |c| == |spot.star.profileSpot.ccf|
    ensures Shapes.YBounds(m, Shapes.New(m, spot, time)).None? ==> forall i :: 0 <= i < |c| ==> c[i] == 0.0
  {
    var s := Shapes.New(m, spot, time);
    var n := |spot.star.profileSpot.ccf|;
    match Shapes.YBounds(m, s)
    case None => Zeros(n)
    case Some(yb) => seq(n, i requires 0 <= i < n => ShapeCcfAt(m, s, spot, yb, i))
  }

  /** A spot as bright as the photosphere (`intensity == 1`) whose profile is the
    * quiet profile takes nothing away from any row. */
  lemma CcfRowNoContrast(spot: Spots.Spot, v: real, limb: Option<real>, i: nat)
    requires Stars.Valid(spot.star) && i < |spot.star.profileSpot.ccf|
    requires spot.intensity == 1.0 && spot.star.profileSpot == spot.star.profileQuiet
    ensures CcfRow(spot, v, limb, i) == 0.0
  {
  }

  lemma {:induction false} CcfSumNoContrast(spot: Spots.Spot, ys: seq<real>, limbs: seq<Option<real>>, i: nat)
    requires Stars.Valid(spot.star) && i < |spot.star.profileSpot.ccf| && |ys| == |limbs|
    requires spot.intensity == 1.0 && spot.star.profileSpot == spot.star.profileQuiet
    ensures CcfSum(spot, ys, limbs, i) == 0.0
    decreases |ys|
  {
    if ys != [] {
      CcfRowNoContrast(spot, RowVelocity(spot.star, ys[0]), limbs[0], i);
      CcfSumNoContrast(spot, ys[1..], limbs[1..], i);
    }
  }

  /** A spot without contrast, as bright as the photosphere and with the quiet
    * profile, changes neither the flux nor the profile. */
  lemma NoContrastNoEffect(m: Math, spot: Spots.Spot, time: real)
    requires Placeable(spot) && Stars.Valid(spot.star)
    requires spot.intensity == 1.0 && spot.star.profileSpot == spot.star.profileQuiet
    ensures FluxOf(m, spot, time) == 0.0
    ensures forall i :: 0 <= i < |CcfOf(m, spot, time)| ==> CcfOf(m, spot, time)[i] == 0.0
  {
    var s := Shapes.New(m, spot, time);
    match Shapes.YBounds(m, s)
    case None =>
    case Some(yb) =>
      forall i | 0 <= i < |spot.star.profileSpot.ccf|
        ensures CcfOf(m, spot, time)[i] == 0.0
      {
        var ys := Rows(spot, yb);
        CcfSumNoContrast(spot, ys, RowLimbs(m, s, spot.star, ys, None), i);
      }
  }

  /** The inner loop of `get_ccf` for one row: `profile[i] += (quiet[i] - intensity
    * * active[i]) * limb` for every entry. */
  method AddRowInto(profile: array<real>, quiet: seq<real>, active: seq<real>, intensity: real, limb: real)
    requires profile.Length <= |quiet| && profile.Length <= |active|
    modifies profile
    ensures forall i :: 0 <= i < profile.Length ==>
      profile[i] == old(profile[i]) + (quiet[i] - intensity * active[i]) * limb
  {
    for i := 0 to profile.Length
      invariant forall j :: 0 <= j < i ==> profile[j] == old(profile[j]) + (quiet[j] - intensity * active[j]) * limb
      invariant forall j :: i <= j < profile.Length ==> profile[j] == old(profile[j])
    {
      profile[i] := profile[i] + (quiet[i] - intensity * active[i]) * limb;
    }
  }

  /** One pass of the row loop of `get_ccf`: shift both profiles by the row's
    * velocity into the scratch buffers and, when the row has `z` bounds, add the
    * row's contribution to every entry of `profile`. */
  method CcfRowInto(spot: Spots.Spot, v: real, limb: Option<real>,
                    profile: array<real>, quietShifted: array<real>, activeShifted: array<real>)
    requires Stars.Valid(spot.star)
    requires profile.Length == quietShifted.Length == activeShifted.Length == |spot.star.profileSpot.ccf|
    requires profile != quietShifted && profile != activeShifted && quietShifted != activeShifted
    modifies profile, quietShifted, activeShifted
    ensures forall i :: 0 <= i < profile.Length ==> profile[i] == old(profile[i]) + CcfRow(spot, v, limb, i)
  {
    var n := profile.Length;
    Profiles.ShiftInto(spot.star.profileQuiet, v, quietShifted);
    Profiles.ShiftInto(spot.star.profileSpot, v, activeShifted);
    var quiet := quietShifted[..];
    var active := activeShifted[..];
    assert quiet == quietShifted[..n] == Profiles.Shifted(spot.star.profileQuiet, v)[..n];
    assert active == activeShifted[..n] == Profiles.Shifted(spot.star.profileSpot, v)[..n];
    if limb.Some? {
      AddRowInto(profile, quiet, active, spot.intensity, limb.value);
    }
  }

  /** The row loop of `Spot::get_ccf`: walk the rows as `SumRowFluxes` does and
    * add each row's contribution to the zeroed `profile`. */
  method SumRowCcfs(m: Math, s: Shapes.Shape, spot: Spots.Spot, yb: Bounds,
                    profile: array<real>, quietShifted: array<real>, activeShifted: array<real>)
    requires 0 < spot.star.gridSize && s.gridInterval != 0.0 && Stars.Valid(spot.star)
    requires profile.Length == quietShifted.Length == activeShifted.Length == |spot.star.profileSpot.ccf|
    requires profile != quietShifted && profile != activeShifted && quietShifted != activeShifted
    requires forall i :: 0 <= i < profile.Length ==> profile[i] == 0.0
    modifies profile, quietShifted, activeShifted
    ensures forall i :: 0 <= i < profile.Length ==> profile[i] == ShapeCcfAt(m, s, spot, yb, i)
  {
    var n := profile.Length;
    var it := new Grids.Floatrange(yb.lower, yb.upper, Shapes.GridInterval(spot.star));
    var guess: Option<Bounds> := None;
    while true
      invariant fresh(it)
      invariant forall i :: 0 <= i < n ==>
        profile[i] + CcfFrom(m, s, spot, it.Remaining(), guess, i) == ShapeCcfAt(m, s, spot, yb, i)
      decreases |it.Remaining()|
    {
      ghost var rest := it.Remaining();
      var y := it.Next();
      if y.None? {
        break;
      }
      assert rest == [y.value] + it.Remaining();
      var zb, guessOut := Shapes.ZBounds(m, s, y.value, guess);
      var limb := RowLimb(m, spot.star, zb, y.value);
      CcfRowInto(spot, RowVelocity(spot.star, y.value), limb, profile, quietShifted, activeShifted);
      forall i | 0 <= i < n
        ensures profile[i] + CcfFrom(m, s, spot, it.Remaining(), guessOut, i) == ShapeCcfAt(m, s, spot, yb, i)
      {
        CcfFromStep(m, s, spot, y.value, it.Remaining(), guess, i);
      }
      guess := guessOut;
    }
  }

  /** `Spot::get_ccf`, with the profile and both scratch buffers as arrays. */
  method GetCcf(m: Math, spot: Spots.Spot, time: real) returns (profile: array<real>)
    requires Placeable(spot) && Stars.Valid(spot.star)
    ensures fresh(profile)
    ensures profile[..] == CcfOf(m, spot, time)
  {
    var n := |spot.star.profileSpot.ccf|;
    profile := new real[n](_ => 0.0);
    var quietShifted := new real[n](_ => 0.0);
    var activeShifted := new real[n](_ => 0.0);
    var s := Shapes.New(m, spot, time);
    var yBounds := Shapes.YBounds(m, s);
    if yBounds.None? {
      assert profile[..] == Zeros(n);
      return;
    }
    SumRowCcfs(m, s, spot, yBounds.value, profile, quietShifted, activeShifted);
  }

  // ---------------------------------------------------------------------------
  // collides_with

  /** `Spot::collides_with`: the two spots' bounding shapes at time 0 collide. */
  predicate CollidesWith(m: Math, spot: Spots.Spot, other: Spots.Spot)
    requires Placeable(spot) && Placeable(other)
  {
    Shapes.CollidesWith(m, Shapes.New(m, spot, 0.0), Shapes.New(m, other, 0.0))
  }

  /** Spot collision is symmetric. */
  lemma CollidesWithSymmetric(m: Math, spot: Spots.Spot, other: Spots.Spot)
    requires Placeable(spot) && Placeable(other)
    ensures CollidesWith(m, spot, other) <==> CollidesWith(m, other, spot)
  {
    Shapes.CollidesWithSymmetric(m, Shapes.New(m, spot, 0.0), Shapes.New(m, other, 0.0));
  }

  /** Two spots collide exactly when their centres at time 0 are closer than the
    * sum of their full radii, whatever their lifetimes. */
  lemma CollidesWithMeaning(m: Math, spot: Spots.Spot, other: Spots.Spot)
    requires Lawful(m) && Placeable(spot) && Placeable(other)
    ensures var c1 := Shapes.Center(m, spot.star, spot.latitude, spot.longitude, 0.0);
      var c2 := Shapes.Center(m, other.star, other.latitude, other.longitude, 0.0);
      CollidesWith(m, spot, other) <==>
        0.0 < spot.radius + other.radius
        && Shapes.DistSq(c1, c2) < Square(spot.radius + other.radius)
  {
    Shapes.CollidesWithMeaning(m, Shapes.New(m, spot, 0.0), Shapes.New(m, other, 0.0));
  }
}
