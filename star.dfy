/**
 * The star (star.rs): its configuration, the precomputation of the quiet disk's
 * flux and integrated profile, the limb-darkening law and its integral over a
 * chord, and the temperature-to-colour table.
 */
module Stars {
  import opened Numerics
  import opened Intervals
  import Grids
  import Profiles

  /** Sun radius in metres and seconds per day, the unit conversions of `from_config`. */
  const SOLAR_RADIUS: real := 696000000.0
  const DAYS_TO_SECONDS: real := 86400.0

  /** The random distributions a star draws spot parameters from; a configuration
    * names one the same way, so one type serves for both. */
  datatype Distribution =
    | StandardNormal
    | LogNormal(mean: real, stdDev: real)
    | Uniform(min: real, max: real)
    | Normal(mean: real, stdDev: real)

  /** `StarConfig`. */
  datatype StarConfig = StarConfig(
    gridSize: nat,
    radius: real,
    period: real,
    inclination: real,
    temperature: real,
    spotTempDiff: real,
    limbLinear: real,
    limbQuadratic: real,
    minimumFillFactor: Option<real>,
    targetFillFactor: Option<real>,
    latitudeDistribution: Option<Distribution>,
    longitudeDistribution: Option<Distribution>,
    fillfactorDistribution: Option<Distribution>,
    lifetimeDistribution: Option<Distribution>)

  /** `Star`: inclination in radians, the quiet disk's total flux and its
    * limb-weighted, rotation-broadened profile, and the two reference profiles. */
  datatype Star = Star(
    period: real,
    inclination: real,
    temperature: real,
    spotTempDiff: real,
    limbLinear: real,
    limbQuadratic: real,
    gridSize: nat,
    fluxQuiet: real,
    equatorialVelocity: real,
    targetFillFactor: real,
    integratedCcf: seq<real>,
    profileSpot: Profiles.Profile,
    profileQuiet: Profiles.Profile,
    latitudeDistribution: Distribution,
    longitudeDistribution: Distribution,
    fillfactorDistribution: Distribution,
    lifetimeDistribution: Distribution)

  /** What every star built by `FromConfig` satisfies, and what the spot and
    * simulation code relies on. */
  predicate Valid(star: Star) {
    && Profiles.Valid(star.profileQuiet)
    && Profiles.Valid(star.profileSpot)
    && |star.profileSpot.ccf| == |star.profileQuiet.ccf|
    && |star.integratedCcf| == |star.profileQuiet.ccf|
    && star.period != 0.0
  }

  /** `f64::to_radians`. */
  function ToRadians(m: Math, degrees: real): real {
    degrees * (m.pi / 180.0)
  }

  /** The rotation speed of the equator in m/s, projected on the line of sight. */
  function EquatorialVelocity(m: Math, cfg: StarConfig): real
    requires cfg.period != 0.0
  {
    var edgeVelocity := (2.0 * m.pi * cfg.radius * SOLAR_RADIUS) / (cfg.period * DAYS_TO_SECONDS);
    edgeVelocity * Sin(m, ToRadians(m, cfg.inclination))
  }

  /** The fill factor to reach: the minimum if one is configured, else the target,
    * else zero. */
  function TargetFillFactor(minimum: Option<real>, target: Option<real>): (r: real)
    ensures minimum.Some? ==> r == minimum.value
    ensures minimum.None? && target.Some? ==> r == target.value
    ensures minimum.None? && target.None? ==> r == 0.0
  {
    match minimum
    case Some(v) => v
    case None => if target.Some? then target.value else 0.0
  }

  /** A configured distribution, or the default when none is configured. */
  function OrDefault(configured: Option<Distribution>, default: Distribution): (d: Distribution)
    ensures configured.Some? ==> d == configured.value
    ensures configured.None? ==> d == default
  {
    if configured.Some? then configured.value else default
  }

  /** `Star::limb_brightness`: quadratic limb darkening, `x` being the depth
    * coordinate (1 at the disk centre, 0 at the limb). */
  function LimbBrightness(star: Star, x: real): real {
    1.0 - star.limbLinear * (1.0 - x) - star.limbQuadratic * ((1.0 - x) * (1.0 - x))
  }

  /** With non-negative coefficients, brightness only grows towards the centre. */
  lemma LimbBrightnessMonotone(star: Star, x1: real, x2: real)
    requires 0.0 <= star.limbLinear && 0.0 <= star.limbQuadratic
    requires x1 <= x2 <= 1.0
    ensures LimbBrightness(star, x1) <= LimbBrightness(star, x2) <= LimbBrightness(star, 1.0) == 1.0
    ensures LimbBrightness(star, 0.0) == 1.0 - star.limbLinear - star.limbQuadratic
  {
    assert LimbBrightness(star, 1.0) == 1.0 - star.limbLinear * 0.0 - star.limbQuadratic * (0.0 * 0.0);
    var d1 := 1.0 - x1;
    var d2 := 1.0 - x2;
    assert 0.0 <= d2 <= d1;
    assert d2 * d2 <= d1 * d1 by {
      assert d1 * d1 - d2 * d2 == (d1 - d2) * (d1 + d2);
    }
    assert star.limbQuadratic * (d2 * d2) <= star.limbQuadratic * (d1 * d1);
    assert star.limbLinear * d2 <= star.limbLinear * d1;
    assert 0.0 <= d2 * d2 by {
      assert 0.0 <= d2;
    }
    assert star.limbQuadratic * 0.0 <= star.limbQuadratic * (d2 * d2);
  }

  /** The depth coordinate of the point `(y, z)` of the disk, with `z*z + y*y`
    * clamped to 1 so that the square root is taken of a non-negative number. */
  function Depth(m: Math, z: real, y: real): (x: real)
    ensures Lawful(m) ==> 0.0 <= x && x * x == 1.0 - Min(z * z + y * y, 1.0)
    ensures Lawful(m) && z * z + y * y <= 1.0 ==> x * x + y * y + z * z == 1.0
  {
    var r := 1.0 - Min(z * z + y * y, 1.0);
    Sqrt(m, r)
  }

  /** `atan(z / x)` as `f64` computes it: a zero `x` gives an infinite quotient
    * and so a quarter turn, with the sign of `z`. For `z == x == 0` the source
    * computes NaN; the model yields 0 there. */
  function AtanRatio(m: Math, z: real, x: real): (a: real)
    ensures x == 0.0 && 0.0 < z ==> a == m.pi / 2.0
    ensures x == 0.0 && z < 0.0 ==> a == -m.pi / 2.0
  {
    if x != 0.0 then Atan(m, z / x)
    else if 0.0 < z then m.pi / 2.0
    else if z < 0.0 then -m.pi / 2.0
    else 0.0
  }

  /** The antiderivative in `z` of the limb brightness along the chord at height
    * `y`: the common expression of both halves of `limb_integral`. */
  function LimbAntiderivative(m: Math, z: real, y: real, u1: real, u2: real): real {
    var x := Depth(m, z, y);
    1.0 / 6.0
      * (z * (3.0 * u1 * (x - 2.0) + 2.0 * (u2 * (3.0 * x + 3.0 * y * y + z * z - 6.0) + 3.0))
         - 3.0 * (y * y - 1.0) * (u1 + 2.0 * u2) * AtanRatio(m, z, x))
  }

  /** `limb_integral`: the limb-darkened brightness integrated along the chord at
    * height `y` between the z bounds, as the antiderivative at the upper bound
    * minus the antiderivative at the lower bound. */
  function LimbIntegral(m: Math, zBounds: Bounds, y: real, u1: real, u2: real): (r: real)
    ensures r == LimbAntiderivative(m, zBounds.upper, y, u1, u2) - LimbAntiderivative(m, zBounds.lower, y, u1, u2)
  {
    var upper := LimbAntiderivative(m, zBounds.upper, y, u1, u2);
    var lower := LimbAntiderivative(m, zBounds.lower, y, u1, u2);
    upper - lower
  }

  /** An empty chord has no brightness. */
  lemma LimbIntegralEmpty(m: Math, z: real, y: real, u1: real, u2: real)
    ensures LimbIntegral(m, Bounds(z, z), y, u1, u2) == 0.0
  {
  }

  /** Integrating over two adjacent chords is integrating over their union. */
  lemma LimbIntegralAdditive(m: Math, a: real, b: real, c: real, y: real, u1: real, u2: real)
    requires a <= b <= c
    ensures LimbIntegral(m, New(a, b), y, u1, u2) + LimbIntegral(m, New(b, c), y, u1, u2)
         == LimbIntegral(m, New(a, c), y, u1, u2)
  {
  }

  /** Swapping the bounds given to `Bounds::new` does not change the integral. */
  lemma LimbIntegralOrderFree(m: Math, a: real, b: real, y: real, u1: real, u2: real)
    ensures LimbIntegral(m, New(a, b), y, u1, u2) == LimbIntegral(m, New(b, a), y, u1, u2)
  {
    NewSymmetric(a, b);
  }

  /** One row of the disk integration: the half-width of the disk at height `y`
    * and, unless that is below machine epsilon, the row's limb integral. */
  function RowLimb(m: Math, cfg: StarConfig, y: real): Option<real> {
    var zBound := Sqrt(m, 1.0 - y * y);
    if zBound < EPSILON then None
    else Some(LimbIntegral(m, New(-zBound, zBound), y, cfg.limbLinear, cfg.limbQuadratic))
  }

  /** `RowLimb` as a function of the row alone, the weighting the integration
    * loop applies to each row. */
  function LimbOfRow(m: Math, cfg: StarConfig): real -> Option<real> {
    y => RowLimb(m, cfg, y)
  }

  /** What a row adds to the quiet flux: its limb integral, or nothing for a row
    * skipped for being too close to the pole. */
  function RowFlux(limb: Option<real>): real {
    if limb.None? then 0.0 else limb.value
  }

  /** The quiet flux accumulated over the first `k` rows of `ys`, in order, each row
    * weighted by `limbOf`. */
  function FluxOfRows(limbOf: real -> Option<real>, ys: seq<real>, k: nat): real
    requires k <= |ys|
  {
    if k == 0 then 0.0 else FluxOfRows(limbOf, ys, k - 1) + RowFlux(limbOf(ys[k - 1]))
  }

  /** The rows of the disk integration. */
  function Rows(cfg: StarConfig): seq<real> {
    Grids.LinspaceValues(-1.0, 1.0, cfg.gridSize)
  }

  /** What a row adds to entry `i` of the integrated profile: the quiet profile,
    * shifted by the row's rotation velocity `v`, weighted by the row's limb
    * integral; nothing for a skipped row. */
  function RowContribution(quiet: Profiles.Profile, v: real, limb: Option<real>, i: nat): real
    requires Profiles.Valid(quiet) && i < |quiet.ccf|
  {
    if limb.None? then 0.0 else Profiles.Shifted(quiet, v)[i] * limb.value
  }

  /** Entry `i` of the integrated profile accumulated over the first `k` rows of
    * `ys`, in order: row `y` moves at `y * velocity` and is weighted by `limbOf(y)`. */
  function IntegratedAt(quiet: Profiles.Profile, velocity: real, limbOf: real -> Option<real>, ys: seq<real>, k: nat, i: nat): real
    requires Profiles.Valid(quiet) && i < |quiet.ccf| && k <= |ys|
  {
    if k == 0 then 0.0
    else
      var y := ys[k - 1];
      IntegratedAt(quiet, velocity, limbOf, ys, k - 1, i) + RowContribution(quiet, y * velocity, limbOf(y), i)
  }

  /** The integrated profile over the first `k` rows of `ys`. */
  function IntegratedOfRows(quiet: Profiles.Profile, velocity: real, limbOf: real -> Option<real>, ys: seq<real>, k: nat): (acc: seq<real>)
    requires Profiles.Valid(quiet) && k <= |ys|
    ensures |acc| == |quiet.ccf|
    ensures forall i :: 0 <= i < |acc| ==> acc[i] == IntegratedAt(quiet, velocity, limbOf, ys, k, i)
  {
    seq(|quiet.ccf|, i requires 0 <= i < |quiet.ccf| => IntegratedAt(quiet, velocity, limbOf, ys, k, i))
  }

  /** A row that does not move (a star seen pole-on, or not rotating) adds the quiet
    * profile itself, weighted by the row's limb integral. */
  lemma StillRow(quiet: Profiles.Profile, limb: Option<real>, i: nat)
    requires Profiles.Valid(quiet) && i < |quiet.ccf|
    ensures RowContribution(quiet, 0.0, limb, i) == quiet.ccf[i] * RowFlux(limb)
  {
    Profiles.ZeroShift(quiet);
    WeightedRow(RowContribution(quiet, 0.0, limb, i), Profiles.Shifted(quiet, 0.0)[i], quiet.ccf[i], limb);
  }

  /** A row's weighting `r` of a value equal to `c` is `c` times the row's flux. */
  lemma WeightedRow(r: real, x: real, c: real, limb: Option<real>)
    requires r == (if limb.None? then 0.0 else x * limb.value) && x == c
    ensures r == c * RowFlux(limb)
  {
  }

  /** `Σ f(y)` over the first `k` rows of `ys`, in order. */
  function SumOfRows(f: real -> real, ys: seq<real>, k: nat): real
    requires k <= |ys|
  {
    if k == 0 then 0.0 else SumOfRows(f, ys, k - 1) + f(ys[k - 1])
  }

  /** The quiet profile's entry `c` weighted by each row's limb integral, as a function
    * of the row. */
  function ScaledFluxOfRow(c: real, limbOf: real -> Option<real>): real -> real {
    y => c * RowFlux(limbOf(y))
  }

  /** Weighting every row's limb integral by `c` weights the quiet flux by `c`. */
  lemma {:induction false} ScaledFluxOfRows(c: real, limbOf: real -> Option<real>, ys: seq<real>, k: nat)
    requires k <= |ys|
    ensures SumOfRows(ScaledFluxOfRow(c, limbOf), ys, k) == c * FluxOfRows(limbOf, ys, k)
  {
    if k > 0 {
      ScaledFluxOfRows(c, limbOf, ys, k - 1);
      Distribute(c, FluxOfRows(limbOf, ys, k - 1), RowFlux(limbOf(ys[k - 1])));
    }
  }

  /** Multiplication distributes over a sum of two. */
  lemma Distribute(c: real, a: real, b: real)
    ensures c * a + c * b == c * (a + b)
  {
  }

  /** For a star that does not rotate, entry `i` of the integrated profile is the sum
    * over the rows of the quiet entry weighted by each row's limb integral. */
  lemma {:induction false} StillRows(quiet: Profiles.Profile, limbOf: real -> Option<real>,
                                     ys: seq<real>, k: nat, i: nat)
    requires Profiles.Valid(quiet) && i < |quiet.ccf| && k <= |ys|
    ensures IntegratedAt(quiet, 0.0, limbOf, ys, k, i) == SumOfRows(ScaledFluxOfRow(quiet.ccf[i], limbOf), ys, k)
  {
    if k > 0 {
      var y := ys[k - 1];
      StillRows(quiet, limbOf, ys, k - 1, i);
      StillRowAt(quiet, limbOf, i, y);
      SumStep(IntegratedAt(quiet, 0.0, limbOf, ys, k - 1, i), RowContribution(quiet, y * 0.0, limbOf(y), i),
              IntegratedAt(quiet, 0.0, limbOf, ys, k, i),
              SumOfRows(ScaledFluxOfRow(quiet.ccf[i], limbOf), ys, k - 1), ScaledFluxOfRow(quiet.ccf[i], limbOf)(y),
              SumOfRows(ScaledFluxOfRow(quiet.ccf[i], limbOf), ys, k));
    }
  }

  /** `StillRow` for the row at `y` of a star that does not rotate. */
  lemma StillRowAt(quiet: Profiles.Profile, limbOf: real -> Option<real>, i: nat, y: real)
    requires Profiles.Valid(quiet) && i < |quiet.ccf|
    ensures RowContribution(quiet, y * 0.0, limbOf(y), i) == ScaledFluxOfRow(quiet.ccf[i], limbOf)(y)
  {
    assert y * 0.0 == 0.0;
    StillRow(quiet, limbOf(y), i);
  }

  /** Two running sums that agree so far and add equal terms still agree. */
  lemma SumStep(a0: real, da: real, a1: real, b0: real, db: real, b1: real)
    requires a1 == a0 + da && b1 == b0 + db && a0 == b0 && da == db
    ensures a1 == b1
  {
  }

  /** The whole sweep of a star whose rows do not move (no rotation, or seen pole-on,
    * so that the equatorial velocity is 0): entry `i` of the integrated profile that
    * `from_config` sums over the disk (entry `i` of `IntegratedOfRows`) is the quiet
    * profile's entry times the quiet flux of the same rows. */
  lemma StillStar(quiet: Profiles.Profile, limbOf: real -> Option<real>, ys: seq<real>, i: nat)
    requires Profiles.Valid(quiet) && i < |quiet.ccf|
    ensures IntegratedAt(quiet, 0.0, limbOf, ys, |ys|, i) == quiet.ccf[i] * FluxOfRows(limbOf, ys, |ys|)
  {
    StillRows(quiet, limbOf, ys, |ys|, i);
    ScaledFluxOfRows(quiet.ccf[i], limbOf, ys, |ys|);
  }

  /** The inner loop of `from_config` over one row: `integrated[i] += shifted[i] * limb`. */
  method AddScaledInto(integrated: array<real>, shifted: seq<real>, limb: real)
    requires integrated.Length == |shifted|
    modifies integrated
    ensures forall j :: 0 <= j < integrated.Length ==> integrated[j] == old(integrated[j]) + shifted[j] * limb
  {
    for i := 0 to integrated.Length
      invariant forall j :: 0 <= j < i ==> integrated[j] == old(integrated[j]) + shifted[j] * limb
      invariant forall j :: i <= j < integrated.Length ==> integrated[j] == old(integrated[j])
    {
      integrated[i] := integrated[i] + shifted[i] * limb;
    }
  }

  /** Adding row `k`'s contribution to the profile integrated over the first `k`
    * rows gives the profile integrated over the first `k + 1`. */
  lemma IntegratedStep(quiet: Profiles.Profile, velocity: real, limbOf: real -> Option<real>, ys: seq<real>, k: nat,
                        before: seq<real>, after: seq<real>)
    requires Profiles.Valid(quiet) && k < |ys|
    requires before == IntegratedOfRows(quiet, velocity, limbOf, ys, k) && |after| == |before|
    requires forall i :: 0 <= i < |after| ==>
      after[i] == before[i] + RowContribution(quiet, ys[k] * velocity, limbOf(ys[k]), i)
    ensures after == IntegratedOfRows(quiet, velocity, limbOf, ys, k + 1)
  {
    forall i | 0 <= i < |after|
      ensures after[i] == IntegratedOfRows(quiet, velocity, limbOf, ys, k + 1)[i]
    {
      assert IntegratedAt(quiet, velocity, limbOf, ys, k + 1, i)
        == IntegratedAt(quiet, velocity, limbOf, ys, k, i) + RowContribution(quiet, ys[k] * velocity, limbOf(ys[k]), i);
    }
  }

  /** Before any row, the integrated profile is all zeros. */
  lemma IntegratedStart(quiet: Profiles.Profile, velocity: real, limbOf: real -> Option<real>, ys: seq<real>, zeros: seq<real>)
    requires Profiles.Valid(quiet) && |zeros| == |quiet.ccf| && forall i :: 0 <= i < |zeros| ==> zeros[i] == 0.0
    ensures zeros == IntegratedOfRows(quiet, velocity, limbOf, ys, 0)
  {
  }

  /** One pass of the integration loop of `from_config`: shift the quiet profile
    * by the row's velocity `v` into `shifted` and, unless the row is skipped, add
    * it weighted by the row's limb integral to `acc`. */
  method IntegrateRow(quiet: Profiles.Profile, v: real, limb: Option<real>, acc: array<real>, shifted: array<real>)
    requires Profiles.Valid(quiet) && acc.Length == shifted.Length == |quiet.ccf| && acc != shifted
    modifies acc, shifted
    ensures forall i :: 0 <= i < acc.Length ==> acc[i] == old(acc[i]) + RowContribution(quiet, v, limb, i)
  {
    var n := acc.Length;
    Profiles.ShiftInto(quiet, v, shifted);
    var row := shifted[..];
    assert forall j :: 0 <= j < n ==> row[j] == Profiles.Shifted(quiet, v)[j] by {
      assert row == shifted[..n] == Profiles.Shifted(quiet, v)[..n];
    }
    if limb.Some? {
      AddScaledInto(acc, row, limb.value);
    }
  }

  /** The integration loop of `from_config`: the `gridSize` rows of the disk that
    * `linspace(-1, 1, gridSize)` yields, each shifting the quiet profile by its
    * velocity into a scratch buffer and adding it, weighted by the row's limb
    * integral, to the integrated profile, and adding the limb integral to the
    * quiet flux. The weighting is a parameter, `limbOf`; `FromConfig` passes
    * `LimbOfRow`. */
  method Integrate(quiet: Profiles.Profile, velocity: real, gridSize: nat, limbOf: real -> Option<real>)
    returns (fluxQuiet: real, integrated: seq<real>)
    requires Profiles.Valid(quiet)
    ensures var ys := Grids.LinspaceValues(-1.0, 1.0, gridSize);
      && fluxQuiet == FluxOfRows(limbOf, ys, |ys|)
      && integrated == IntegratedOfRows(quiet, velocity, limbOf, ys, |ys|)
  {
    var n := Profiles.Len(quiet);
    var acc := new real[n](_ => 0.0);
    fluxQuiet := 0.0;
    var shifted := new real[n](_ => 0.0);
    var ys := Grids.LinspaceValues(-1.0, 1.0, gridSize);
    IntegratedStart(quiet, velocity, limbOf, ys, acc[..]);
    for k := 0 to |ys|
      invariant acc[..] == IntegratedOfRows(quiet, velocity, limbOf, ys, k)
      invariant fluxQuiet == FluxOfRows(limbOf, ys, k)
    {
      ghost var before := acc[..];
      IntegrateRow(quiet, ys[k] * velocity, limbOf(ys[k]), acc, shifted);
      IntegratedStep(quiet, velocity, limbOf, ys, k, before, acc[..]);
      fluxQuiet := fluxQuiet + RowFlux(limbOf(ys[k]));
    }
    integrated := acc[..];
  }

  /** `Star::from_config`. The reference grids and profiles, generated into the
    * source at build time, are parameters: `rv`, `ccfQuiet` and `ccfSpot`. */
  method FromConfig(m: Math, cfg: StarConfig, rv: seq<real>, ccfQuiet: seq<real>, ccfSpot: seq<real>)
    returns (star: Star)
    requires Profiles.GridOk(rv, ccfQuiet) && Profiles.GridOk(rv, ccfSpot)
    requires cfg.period != 0.0
    ensures Valid(star)
    ensures star.profileQuiet == Profiles.New(rv, ccfQuiet) && star.profileSpot == Profiles.New(rv, ccfSpot)
    ensures star.equatorialVelocity == EquatorialVelocity(m, cfg)
    ensures star.fluxQuiet == FluxOfRows(LimbOfRow(m, cfg), Rows(cfg), |Rows(cfg)|)
    ensures star.integratedCcf == IntegratedOfRows(star.profileQuiet, star.equatorialVelocity, LimbOfRow(m, cfg), Rows(cfg), |Rows(cfg)|)
    ensures star.inclination == ToRadians(m, cfg.inclination)
    ensures star.period == cfg.period && star.gridSize == cfg.gridSize && star.temperature == cfg.temperature
    ensures star.spotTempDiff == cfg.spotTempDiff
    ensures star.limbLinear == cfg.limbLinear && star.limbQuadratic == cfg.limbQuadratic
    ensures star.targetFillFactor == TargetFillFactor(cfg.minimumFillFactor, cfg.targetFillFactor)
    ensures star.latitudeDistribution == OrDefault(cfg.latitudeDistribution, Uniform(-30.0, 30.0))
    ensures star.longitudeDistribution == OrDefault(cfg.longitudeDistribution, Uniform(0.0, 360.0))
    ensures star.fillfactorDistribution == OrDefault(cfg.fillfactorDistribution, LogNormal(0.5, 4.0))
    ensures star.lifetimeDistribution == OrDefault(cfg.lifetimeDistribution, Uniform(10.0, 20.0))
  {
    var velocity := EquatorialVelocity(m, cfg);
    var quiet := Profiles.New(rv, ccfQuiet);
    var fluxQuiet, integrated := Integrate(quiet, velocity, cfg.gridSize, LimbOfRow(m, cfg));
    star := Star(
      cfg.period,
      ToRadians(m, cfg.inclination),
      cfg.temperature,
      cfg.spotTempDiff,
      cfg.limbLinear,
      cfg.limbQuadratic,
      cfg.gridSize,
      fluxQuiet,
      velocity,
      TargetFillFactor(cfg.minimumFillFactor, cfg.targetFillFactor),
      integrated,
      Profiles.New(rv, ccfSpot),
      quiet,
      OrDefault(cfg.latitudeDistribution, Uniform(-30.0, 30.0)),
      OrDefault(cfg.longitudeDistribution, Uniform(0.0, 360.0)),
      OrDefault(cfg.fillfactorDistribution, LogNormal(0.5, 4.0)),
      OrDefault(cfg.lifetimeDistribution, Uniform(10.0, 20.0)));
  }

  // ---------------------------------------------------------------------------
  // The colour table of `draw_bgr`.

  datatype Rgb = Rgb(r: nat, g: nat, b: nat)

  const TempToRgb0: seq<(nat, Rgb)> := [
      (1990, Rgb(255, 233, 154)),
      (2000, Rgb(255, 198, 108)),
      (2167, Rgb(255, 198, 109)),
      (2180, Rgb(255, 167, 97)),
      (2333, Rgb(255, 197, 111)),
      (2370, Rgb(255, 165, 97)),
      (2500, Rgb(255, 195, 112)),
      (2560, Rgb(255, 178, 121)),
      (2667, Rgb(255, 204, 111)),
      (2750, Rgb(255, 197, 124)),
      (2833, Rgb(255, 201, 127)),
      (2940, Rgb(255, 206, 127)),
      (3000, Rgb(255, 206, 129)),
      (3130, Rgb(255, 200, 119)),
      (3167, Rgb(255, 196, 131)),
      (3320, Rgb(255, 198, 118)),
      (3333, Rgb(255, 204, 142)),
      (3500, Rgb(255, 195, 139)),
      (3510, Rgb(255, 200, 121)),
      (3640, Rgb(255, 202, 157)),
      (3700, Rgb(255, 203, 132)),
      (3717, Rgb(255, 206, 140)),
      (3725, Rgb(255, 205, 135)),
      (3733, Rgb(255, 208, 142)),
      (3750, Rgb(255, 206, 139)),
      (3780, Rgb(255, 209, 174))]

  const TempToRgb1: seq<(nat, Rgb)> := [
      (3800, Rgb(255, 211, 146)),
      (3900, Rgb(255, 216, 167)),
      (3920, Rgb(255, 199, 142)),
      (4000, Rgb(255, 221, 175)),
      (4057, Rgb(255, 223, 181)),
      (4060, Rgb(255, 205, 152)),
      (4114, Rgb(255, 227, 190)),
      (4171, Rgb(255, 231, 196)),
      (4200, Rgb(255, 210, 161)),
      (4229, Rgb(255, 231, 199)),
      (4286, Rgb(255, 234, 207)),
      (4340, Rgb(255, 216, 181)),
      (4343, Rgb(255, 236, 215)),
      (4400, Rgb(255, 236, 211)),
      (4480, Rgb(255, 222, 195)),
      (4620, Rgb(255, 227, 196)),
      (4669, Rgb(255, 243, 233)),
      (4760, Rgb(255, 224, 188)),
      (4900, Rgb(255, 238, 221)),
      (4937, Rgb(255, 243, 233)),
      (5010, Rgb(255, 239, 221)),
      (5120, Rgb(255, 237, 222)),
      (5206, Rgb(255, 243, 233)),
      (5230, Rgb(255, 244, 235)),
      (5340, Rgb(255, 244, 235)),
      (5450, Rgb(255, 244, 234))]

  const TempToRgb2: seq<(nat, Rgb)> := [
      (5474, Rgb(255, 243, 233)),
      (5560, Rgb(255, 241, 229)),
      (5670, Rgb(255, 243, 236)),
      (5743, Rgb(255, 242, 233)),
      (5780, Rgb(255, 245, 242)),
      (5890, Rgb(255, 247, 248)),
      (6000, Rgb(255, 248, 252)),
      (6011, Rgb(255, 246, 233)),
      (6140, Rgb(255, 247, 252)),
      (6280, Rgb(255, 247, 252)),
      (6420, Rgb(246, 243, 255)),
      (6520, Rgb(255, 243, 250)),
      (6560, Rgb(244, 241, 255)),
      (6700, Rgb(248, 247, 255)),
      (6760, Rgb(255, 234, 252)),
      (6840, Rgb(224, 226, 255)),
      (6980, Rgb(230, 233, 255)),
      (7000, Rgb(219, 225, 255)),
      (7120, Rgb(236, 239, 255)),
      (7193, Rgb(227, 231, 255)),
      (7260, Rgb(230, 234, 255)),
      (7387, Rgb(236, 237, 255)),
      (7400, Rgb(224, 229, 255)),
      (7580, Rgb(244, 243, 255)),
      (7650, Rgb(219, 224, 255)),
      (7773, Rgb(223, 229, 255))]

  const TempToRgb3: seq<(nat, Rgb)> := [
      (7900, Rgb(213, 222, 255)),
      (7967, Rgb(202, 215, 255)),
      (8150, Rgb(200, 213, 255)),
      (8160, Rgb(206, 218, 255)),
      (8353, Rgb(210, 221, 255)),
      (8400, Rgb(199, 212, 255)),
      (8547, Rgb(215, 223, 255)),
      (8650, Rgb(202, 215, 255)),
      (8740, Rgb(219, 226, 255)),
      (8900, Rgb(197, 211, 255)),
      (8933, Rgb(223, 229, 255)),
      (9127, Rgb(215, 224, 255)),
      (9150, Rgb(191, 207, 255)),
      (9320, Rgb(207, 219, 255)),
      (9400, Rgb(187, 203, 255)),
      (9513, Rgb(199, 214, 255)),
      (9650, Rgb(181, 199, 255)),
      (9707, Rgb(214, 223, 255)),
      (9900, Rgb(185, 201, 255)),
      (11710, Rgb(181, 198, 255)),
      (13520, Rgb(177, 195, 255)),
      (15330, Rgb(173, 191, 255)),
      (17140, Rgb(172, 189, 255)),
      (18950, Rgb(170, 191, 255)),
      (20160, Rgb(187, 203, 255)),
      (20760, Rgb(164, 184, 255))]

  const TempToRgb4: seq<(nat, Rgb)> := [
      (21370, Rgb(175, 194, 255)),
      (22570, Rgb(165, 185, 255)),
      (22580, Rgb(177, 196, 255)),
      (23790, Rgb(168, 193, 255)),
      (24380, Rgb(160, 180, 255)),
      (25000, Rgb(161, 189, 255)),
      (26190, Rgb(160, 182, 255)),
      (27600, Rgb(164, 185, 255)),
      (28000, Rgb(156, 178, 255)),
      (30200, Rgb(154, 178, 255)),
      (32400, Rgb(157, 177, 255)),
      (32800, Rgb(160, 181, 255)),
      (34600, Rgb(157, 177, 255)),
      (35400, Rgb(157, 178, 255)),
      (36800, Rgb(162, 184, 255)),
      (38000, Rgb(155, 176, 255)),
      (39000, Rgb(155, 176, 255)),
      (40400, Rgb(153, 174, 255)),
      (41200, Rgb(153, 174, 255)),
      (42800, Rgb(151, 172, 255)),
      (43400, Rgb(151, 172, 255)),
      (45200, Rgb(148, 170, 255)),
      (45600, Rgb(148, 170, 255)),
      (47600, Rgb(146, 168, 255)),
      (47800, Rgb(146, 168, 255)),
      (50000, Rgb(144, 166, 255))]

  /** `TEMP_TO_RGB`: 130 (temperature, colour) pairs. */
  const TEMP_TO_RGB: seq<(nat, Rgb)> := TempToRgb0 + TempToRgb1 + TempToRgb2 + TempToRgb3 + TempToRgb4

  /** Each key from index `i` on is below the next one. */
  predicate AscendingFrom(t: seq<(nat, Rgb)>, i: nat)
    decreases |t| - i
  {
    i + 1 >= |t| || (t[i].0 < t[i + 1].0 && AscendingFrom(t, i + 1))
  }

  /** Every key below every later key. */
  predicate StrictlyAscending(t: seq<(nat, Rgb)>) {
    forall i, j :: 0 <= i < j < |t| ==> t[i].0 < t[j].0
  }

  lemma TempToRgb0Ascending()
    ensures |TempToRgb0| == 26 && TempToRgb0[0].0 == 1990 && TempToRgb0[25].0 == 3780
    ensures AscendingFrom(TempToRgb0, 0)
  {
    assert AscendingFrom(TempToRgb0, 25);
    assert AscendingFrom(TempToRgb0, 24);
    assert AscendingFrom(TempToRgb0, 23);
    assert AscendingFrom(TempToRgb0, 22);
    assert AscendingFrom(TempToRgb0, 21);
    assert AscendingFrom(TempToRgb0, 20);
    assert AscendingFrom(TempToRgb0, 19);
    assert AscendingFrom(TempToRgb0, 18);
    assert AscendingFrom(TempToRgb0, 17);
    assert AscendingFrom(TempToRgb0, 16);
    assert AscendingFrom(TempToRgb0, 15);
    assert AscendingFrom(TempToRgb0, 14);
    assert AscendingFrom(TempToRgb0, 13);
    assert AscendingFrom(TempToRgb0, 12);
    assert AscendingFrom(TempToRgb0, 11);
    assert AscendingFrom(TempToRgb0, 10);
    assert AscendingFrom(TempToRgb0, 9);
    assert AscendingFrom(TempToRgb0, 8);
    assert AscendingFrom(TempToRgb0, 7);
    assert AscendingFrom(TempToRgb0, 6);
    assert AscendingFrom(TempToRgb0, 5);
    assert AscendingFrom(TempToRgb0, 4);
    assert AscendingFrom(TempToRgb0, 3);
    assert AscendingFrom(TempToRgb0, 2);
    assert AscendingFrom(TempToRgb0, 1);
    assert AscendingFrom(TempToRgb0, 0);
  }

  lemma TempToRgb1Ascending()
    ensures |TempToRgb1| == 26 && TempToRgb1[0].0 == 3800 && TempToRgb1[25].0 == 5450
    ensures AscendingFrom(TempToRgb1, 0)
  {
    assert AscendingFrom(TempToRgb1, 25);
    assert AscendingFrom(TempToRgb1, 24);
    assert AscendingFrom(TempToRgb1, 23);
    assert AscendingFrom(TempToRgb1, 22);
    assert AscendingFrom(TempToRgb1, 21);
    assert AscendingFrom(TempToRgb1, 20);
    assert AscendingFrom(TempToRgb1, 19);
    assert AscendingFrom(TempToRgb1, 18);
    assert AscendingFrom(TempToRgb1, 17);
    assert AscendingFrom(TempToRgb1, 16);
    assert AscendingFrom(TempToRgb1, 15);
    assert AscendingFrom(TempToRgb1, 14);
    assert AscendingFrom(TempToRgb1, 13);
    assert AscendingFrom(TempToRgb1, 12);
    assert AscendingFrom(TempToRgb1, 11);
    assert AscendingFrom(TempToRgb1, 10);
    assert AscendingFrom(TempToRgb1, 9);
    assert AscendingFrom(TempToRgb1, 8);
    assert AscendingFrom(TempToRgb1, 7);
    assert AscendingFrom(TempToRgb1, 6);
    assert AscendingFrom(TempToRgb1, 5);
    assert AscendingFrom(TempToRgb1, 4);
    assert AscendingFrom(TempToRgb1, 3);
    assert AscendingFrom(TempToRgb1, 2);
    assert AscendingFrom(TempToRgb1, 1);
    assert AscendingFrom(TempToRgb1, 0);
  }

  lemma TempToRgb2Ascending()
    ensures |TempToRgb2| == 26 && TempToRgb2[0].0 == 5474 && TempToRgb2[25].0 == 7773
    ensures AscendingFrom(TempToRgb2, 0)
  {
    assert AscendingFrom(TempToRgb2, 25);
    assert AscendingFrom(TempToRgb2, 24);
    assert AscendingFrom(TempToRgb2, 23);
    assert AscendingFrom(TempToRgb2, 22);
    assert AscendingFrom(TempToRgb2, 21);
    assert AscendingFrom(TempToRgb2, 20);
    assert AscendingFrom(TempToRgb2, 19);
    assert AscendingFrom(TempToRgb2, 18);
    assert AscendingFrom(TempToRgb2, 17);
    assert AscendingFrom(TempToRgb2, 16);
    assert AscendingFrom(TempToRgb2, 15);
    assert AscendingFrom(TempToRgb2, 14);
    assert AscendingFrom(TempToRgb2, 13);
    assert AscendingFrom(TempToRgb2, 12);
    assert AscendingFrom(TempToRgb2, 11);
    assert AscendingFrom(TempToRgb2, 10);
    assert AscendingFrom(TempToRgb2, 9);
    assert AscendingFrom(TempToRgb2, 8);
    assert AscendingFrom(TempToRgb2, 7);
    assert AscendingFrom(TempToRgb2, 6);
    assert AscendingFrom(TempToRgb2, 5);
    assert AscendingFrom(TempToRgb2, 4);
    assert AscendingFrom(TempToRgb2, 3);
    assert AscendingFrom(TempToRgb2, 2);
    assert AscendingFrom(TempToRgb2, 1);
    assert AscendingFrom(TempToRgb2, 0);
  }

  lemma TempToRgb3Ascending()
    ensures |TempToRgb3| == 26 && TempToRgb3[0].0 == 7900 && TempToRgb3[25].0 == 20760
    ensures AscendingFrom(TempToRgb3, 0)
  {
    assert AscendingFrom(TempToRgb3, 25);
    assert AscendingFrom(TempToRgb3, 24);
    assert AscendingFrom(TempToRgb3, 23);
    assert AscendingFrom(TempToRgb3, 22);
    assert AscendingFrom(TempToRgb3, 21);
    assert AscendingFrom(TempToRgb3, 20);
    assert AscendingFrom(TempToRgb3, 19);
    assert AscendingFrom(TempToRgb3, 18);
    assert AscendingFrom(TempToRgb3, 17);
    assert AscendingFrom(TempToRgb3, 16);
    assert AscendingFrom(TempToRgb3, 15);
    assert AscendingFrom(TempToRgb3, 14);
    assert AscendingFrom(TempToRgb3, 13);
    assert AscendingFrom(TempToRgb3, 12);
    assert AscendingFrom(TempToRgb3, 11);
    assert AscendingFrom(TempToRgb3, 10);
    assert AscendingFrom(TempToRgb3, 9);
    assert AscendingFrom(TempToRgb3, 8);
    assert AscendingFrom(TempToRgb3, 7);
    assert AscendingFrom(TempToRgb3, 6);
    assert AscendingFrom(TempToRgb3, 5);
    assert AscendingFrom(TempToRgb3, 4);
    assert AscendingFrom(TempToRgb3, 3);
    assert AscendingFrom(TempToRgb3, 2);
    assert AscendingFrom(TempToRgb3, 1);
    assert AscendingFrom(TempToRgb3, 0);
  }

  lemma TempToRgb4Ascending()
    ensures |TempToRgb4| == 26 && TempToRgb4[0].0 == 21370 && TempToRgb4[25].0 == 50000
    ensures AscendingFrom(TempToRgb4, 0)
  {
    assert AscendingFrom(TempToRgb4, 25);
    assert AscendingFrom(TempToRgb4, 24);
    assert AscendingFrom(TempToRgb4, 23);
    assert AscendingFrom(TempToRgb4, 22);
    assert AscendingFrom(TempToRgb4, 21);
    assert AscendingFrom(TempToRgb4, 20);
    assert AscendingFrom(TempToRgb4, 19);
    assert AscendingFrom(TempToRgb4, 18);
    assert AscendingFrom(TempToRgb4, 17);
    assert AscendingFrom(TempToRgb4, 16);
    assert AscendingFrom(TempToRgb4, 15);
    assert AscendingFrom(TempToRgb4, 14);
    assert AscendingFrom(TempToRgb4, 13);
    assert AscendingFrom(TempToRgb4, 12);
    assert AscendingFrom(TempToRgb4, 11);
    assert AscendingFrom(TempToRgb4, 10);
    assert AscendingFrom(TempToRgb4, 9);
    assert AscendingFrom(TempToRgb4, 8);
    assert AscendingFrom(TempToRgb4, 7);
    assert AscendingFrom(TempToRgb4, 6);
    assert AscendingFrom(TempToRgb4, 5);
    assert AscendingFrom(TempToRgb4, 4);
    assert AscendingFrom(TempToRgb4, 3);
    assert AscendingFrom(TempToRgb4, 2);
    assert AscendingFrom(TempToRgb4, 1);
    assert AscendingFrom(TempToRgb4, 0);
  }

  lemma {:induction false} AscendingFromIsStrict(t: seq<(nat, Rgb)>, i: nat)
    requires i <= |t| && AscendingFrom(t, i)
    ensures StrictlyAscending(t[i..])
    decreases |t| - i
  {
    if i + 1 < |t| {
      AscendingFromIsStrict(t, i + 1);
      assert t[i..] == [t[i]] + t[i + 1..];
    }
  }

  lemma JoinAscending(a: seq<(nat, Rgb)>, b: seq<(nat, Rgb)>)
    requires StrictlyAscending(a) && StrictlyAscending(b) && a != [] && b != []
    requires a[|a| - 1].0 < b[0].0
    ensures StrictlyAscending(a + b)
  {
    var t := a + b;
    forall i, j | 0 <= i < j < |t|
      ensures t[i].0 < t[j].0
    {
      if i < |a| <= j {
        assert t[i].0 <= a[|a| - 1].0;
        assert b[0].0 <= t[j].0;
      }
    }
  }

  /** Each fifth of the table is strictly ascending on its own. */
  lemma TempToRgbPartsAscending()
    ensures StrictlyAscending(TempToRgb0) && StrictlyAscending(TempToRgb1) && StrictlyAscending(TempToRgb2)
    ensures StrictlyAscending(TempToRgb3) && StrictlyAscending(TempToRgb4)
    ensures TempToRgb0[25].0 < TempToRgb1[0].0 && TempToRgb1[25].0 < TempToRgb2[0].0
    ensures TempToRgb2[25].0 < TempToRgb3[0].0 && TempToRgb3[25].0 < TempToRgb4[0].0
  {
    TempToRgb0Ascending();
    TempToRgb1Ascending();
    TempToRgb2Ascending();
    TempToRgb3Ascending();
    TempToRgb4Ascending();
    AscendingFromIsStrict(TempToRgb0, 0);
    AscendingFromIsStrict(TempToRgb1, 0);
    AscendingFromIsStrict(TempToRgb2, 0);
    AscendingFromIsStrict(TempToRgb3, 0);
    AscendingFromIsStrict(TempToRgb4, 0);
    assert TempToRgb0[0..] == TempToRgb0 && TempToRgb1[0..] == TempToRgb1 && TempToRgb2[0..] == TempToRgb2;
    assert TempToRgb3[0..] == TempToRgb3 && TempToRgb4[0..] == TempToRgb4;
  }

  /** The table's keys are strictly ascending, from 1990 to 50000, as the binary
    * search over it requires. */
  lemma TempToRgbAscending()
    ensures |TEMP_TO_RGB| == 130
    ensures StrictlyAscending(TEMP_TO_RGB)
    ensures TEMP_TO_RGB[0].0 == 1990 && TEMP_TO_RGB[129].0 == 50000
  {
    TempToRgb0Ascending();
    TempToRgb4Ascending();
    TempToRgbPartsAscending();
    var t01 := TempToRgb0 + TempToRgb1;
    JoinAscending(TempToRgb0, TempToRgb1);
    assert t01[|t01| - 1] == TempToRgb1[25];
    var t012 := t01 + TempToRgb2;
    JoinAscending(t01, TempToRgb2);
    assert t012[|t012| - 1] == TempToRgb2[25];
    var t0123 := t012 + TempToRgb3;
    JoinAscending(t012, TempToRgb3);
    assert t0123[|t0123| - 1] == TempToRgb3[25];
    JoinAscending(t0123, TempToRgb4);
  }

  /** The index of the first entry whose key is at least `key` (the table's length
    * if there is none), found by a scan from the front. */
  function FirstAtLeast(t: seq<(nat, Rgb)>, key: nat): (i: nat)
    ensures i <= |t|
    ensures forall j :: 0 <= j < i ==> t[j].0 < key
    ensures i < |t| ==> key <= t[i].0
    decreases |t|
  {
    if t == [] then 0
    else if key <= t[0].0 then 0
    else 1 + FirstAtLeast(t[1..], key)
  }

  /** What `binary_search_by` returns: `Ok` with the index of a matching key, or
    * `Err` with the index where the key would be inserted. */
  datatype Search = Ok(index: nat) | Err(index: nat)

  /** `binary_search_by` on an ascending table, comparing keys with `key`. */
  method BinarySearch(t: seq<(nat, Rgb)>, key: nat) returns (r: Search)
    requires StrictlyAscending(t)
    ensures r.Ok? ==> r.index < |t| && t[r.index].0 == key
    ensures r.Err? ==> (&& r.index <= |t|
                        && (forall j :: 0 <= j < r.index ==> t[j].0 < key)
                        && (forall j :: r.index <= j < |t| ==> key < t[j].0))
    ensures r.index == FirstAtLeast(t, key)
  {
    var lo, hi := 0, |t|;
    while lo < hi
      invariant 0 <= lo <= hi <= |t|
      invariant forall j :: 0 <= j < lo ==> t[j].0 < key
      invariant forall j :: hi <= j < |t| ==> key < t[j].0
      decreases hi - lo
    {
      var mid := lo + (hi - lo) / 2;
      if t[mid].0 < key {
        lo := mid + 1;
      } else if key < t[mid].0 {
        hi := mid;
      } else {
        FirstAtLeastIs(t, key, mid);
        return Ok(mid);
      }
    }
    FirstAtLeastIs(t, key, lo);
    r := Err(lo);
  }

  /** In an ascending table, the first key at least `key` is at the one index with
    * every key before it smaller and its own key at least `key`. */
  lemma FirstAtLeastIs(t: seq<(nat, Rgb)>, key: nat, i: nat)
    requires StrictlyAscending(t) && i <= |t|
    requires forall j :: 0 <= j < i ==> t[j].0 < key
    requires i < |t| ==> key <= t[i].0
    ensures FirstAtLeast(t, key) == i
  {
  }

  /** The colour `draw_bgr` paints the star with: the table entry found for the
    * temperature truncated to `u16`. Both outcomes of the search index the table;
    * past the last key, 50000, the index is 130 and the source panics, which the
    * model reports as `None`. */
  method Color(star: Star) returns (c: Option<Rgb>)
    ensures c.None? <==> AsU16(star.temperature) > 50000
    ensures c.Some? ==> (&& FirstAtLeast(TEMP_TO_RGB, AsU16(star.temperature)) < |TEMP_TO_RGB|
                        && c.value == TEMP_TO_RGB[FirstAtLeast(TEMP_TO_RGB, AsU16(star.temperature))].1)
  {
    TempToRgbAscending();
    var key := AsU16(star.temperature);
    var r := BinarySearch(TEMP_TO_RGB, key);
    if r.index < |TEMP_TO_RGB| {
      c := Some(TEMP_TO_RGB[r.index].1);
    } else {
      c := None;
    }
  }
}
