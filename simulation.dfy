/**
 * The simulation (simulation.rs): a star, its spots, and the random generator
 * that new spots are drawn from; topping the spot coverage up to the star's
 * target fill factor, and the per-time flux and line-profile observations.
 *
 * The generator is a finite supply of draws, the values the samplers hand back
 * in the order the source asks for them; the loop that tops up the coverage
 * stops when the supply runs out. The wavelength band's Planck integral, the
 * radial-velocity fit and the bisector splines are parameters.
 */
module Simulations {
  import opened Numerics
  import opened Intervals
  import Stars
  import Spots
  import SpotSweeps
  import Bisectors

  /** The factor a fill-factor draw is scaled by, and the bound a scaled draw must
    * stay under to be used. */
  const FILL_SCALE: real := 0.0000094
  const FILL_LIMIT: real := 0.001

  /** How long a spot added by the fill-factor check lives, in days. */
  const LIFETIME: real := 15.0

  /** The first fill-factor draw that scales to below the limit, scaled, and the
    * draws after it; `None` when no draw qualifies. */
  function FillDraw(draws: seq<real>): (r: (Option<real>, seq<real>))
    ensures r.0.Some? ==> r.0.value < FILL_LIMIT && |r.1| < |draws|
    ensures r.0.None? ==> r.1 == []
    ensures |r.1| <= |draws| && r.1 == draws[|draws| - |r.1|..]
    decreases |draws|
  {
    if draws == [] then (None, [])
    else if draws[0] * FILL_SCALE < FILL_LIMIT then (Some(draws[0] * FILL_SCALE), draws[1..])
    else FillDraw(draws[1..])
  }

  /** The spot the fill-factor check makes from a configuration: as
    * `Spot::from_config` makes it, but living from `time` to `time + 15`. */
  function Placed(m: Math, star: Stars.Star, cfg: Spots.SpotConfig, time: real): (s: Spots.Spot)
    ensures s.star == star && Spots.Alive(s, time) && Spots.Alive(s, time + LIFETIME)
    ensures forall t :: t < time || time + LIFETIME < t ==> !Spots.Alive(s, t)
  {
    Spots.FromConfig(m, star, cfg).(mortality := Spots.Mortal(Intervals.New(time, time + LIFETIME)))
  }

  /** A star that spots can be placed on. */
  predicate StarOk(star: Stars.Star) {
    Stars.Valid(star) && 0 < star.gridSize
  }

  /** Every spot sits on the simulation's star. */
  predicate OnStar(star: Stars.Star, spots: seq<Spots.Spot>) {
    forall k :: 0 <= k < |spots| ==> spots[k].star == star
  }

  /** The candidate collides with one of `spots` alive when it appears or when it
    * disappears. */
  predicate Blocked(m: Math, candidate: Spots.Spot, spots: seq<Spots.Spot>, time: real)
    requires SpotSweeps.Placeable(candidate)
    requires forall k :: 0 <= k < |spots| ==> SpotSweeps.Placeable(spots[k])
  {
    exists k :: 0 <= k < |spots|
      && (Spots.Alive(spots[k], time) || Spots.Alive(spots[k], time + LIFETIME))
      && SpotSweeps.CollidesWith(m, candidate, spots[k])
  }

  /** Every spot from index `from` on was checked against the spots before it,
    * and collides with none of them alive at `time` or at `time + 15`. */
  predicate Separated(m: Math, spots: seq<Spots.Spot>, from: nat, time: real)
    requires forall k :: 0 <= k < |spots| ==> SpotSweeps.Placeable(spots[k])
  {
    forall k :: from <= k < |spots| ==> !Blocked(m, spots[k], spots[..k], time)
  }

  /** Appending a spot that the earlier spots do not block keeps them separated. */
  lemma SeparatedPush(m: Math, spots: seq<Spots.Spot>, s: Spots.Spot, time: real)
    requires forall k :: 0 <= k < |spots| ==> SpotSweeps.Placeable(spots[k])
    requires SpotSweeps.Placeable(s) && !Blocked(m, s, spots, time)
    ensures forall from :: 0 <= from <= |spots| && Separated(m, spots, from, time) ==>
      Separated(m, spots + [s], from, time)
  {
    var all := spots + [s];
    assert all[..|spots|] == spots;
    forall k | 0 <= k < |spots|
      ensures all[..k] == spots[..k]
    {
    }
  }

  /** The spots from index `n0` on are those `check_fill_factor` made from the
    * configurations `added`, in order: each lives from `time` to `time + 15`, has
    * a fill factor under the limit and is no plage. */
  ghost predicate Appended(m: Math, star: Stars.Star, spots: seq<Spots.Spot>, n0: nat,
                           added: seq<Spots.SpotConfig>, time: real)
  {
    && |spots| == n0 + |added|
    && forall k :: 0 <= k < |added| ==>
         && spots[n0 + k] == Placed(m, star, added[k], time)
         && added[k].fillFactor < FILL_LIMIT && !added[k].plage
  }

  lemma AppendedPush(m: Math, star: Stars.Star, spots: seq<Spots.Spot>, n0: nat,
                     added: seq<Spots.SpotConfig>, cfg: Spots.SpotConfig, time: real)
    requires Appended(m, star, spots, n0, added, time)
    requires cfg.fillFactor < FILL_LIMIT && !cfg.plage
    ensures Appended(m, star, spots + [Placed(m, star, cfg, time)], n0, added + [cfg], time)
  {
  }

  /** The spot is one the fill-factor check made at one of the first `n` of
    * `times`: from a configuration with a fill factor under the limit and no
    * plage, living from that time to fifteen days later. */
  ghost predicate DrawnAt(m: Math, star: Stars.Star, s: Spots.Spot, times: seq<real>, n: nat) {
    exists i, cfg: Spots.SpotConfig ::
      && 0 <= i < n && i < |times|
      && s == Placed(m, star, cfg, times[i])
      && cfg.fillFactor < FILL_LIMIT && !cfg.plage
  }

  /** Every spot from index `from` on was made by the fill-factor check at one of
    * the first `n` of `times`. */
  ghost predicate AllDrawn(m: Math, star: Stars.Star, spots: seq<Spots.Spot>, from: nat,
                           times: seq<real>, n: nat) {
    forall j :: from <= j < |spots| ==> DrawnAt(m, star, spots[j], times, n)
  }

  /** A fill-factor check at `times[n]` that keeps the spots it found and appends
    * `added` extends what the first `n` checks made to what the first `n + 1` made. */
  lemma AllDrawnStep(m: Math, star: Stars.Star, before: seq<Spots.Spot>, after: seq<Spots.Spot>,
                     from: nat, times: seq<real>, n: nat, added: seq<Spots.SpotConfig>)
    requires n < |times| && AllDrawn(m, star, before, from, times, n)
    requires Appended(m, star, after, |before|, added, times[n]) && after[..|before|] == before
    ensures AllDrawn(m, star, after, from, times, n + 1)
  {
    forall j | from <= j < |after|
      ensures DrawnAt(m, star, after[j], times, n + 1)
    {
      if j < |before| {
        assert after[j] == before[j];
        var i, cfg: Spots.SpotConfig :| && 0 <= i < n && i < |times|
          && before[j] == Placed(m, star, cfg, times[i])
          && cfg.fillFactor < FILL_LIMIT && !cfg.plage;
        assert i < n + 1;
      } else {
        var cfg := added[j - |before|];
        assert after[j] == Placed(m, star, cfg, times[n]);
      }
    }
  }

  /** `Σ radius² / 2` over the spots alive at `time`, in list order. */

  function AliveFill(spots: seq<Spots.Spot>, time: real): real
    decreases |spots|
  {
    if spots == [] then 0.0
    else
      var last := spots[|spots| - 1];
      AliveFill(spots[..|spots| - 1], time) + (if Spots.Alive(last, time) then Spots.FillFactor(last) else 0.0)
  }

  /** A spot added at the end counts exactly when it is alive. */
  lemma AliveFillPush(spots: seq<Spots.Spot>, s: Spots.Spot, time: real)
    ensures AliveFill(spots + [s], time)
      == AliveFill(spots, time) + (if Spots.Alive(s, time) then Spots.FillFactor(s) else 0.0)
  {
    assert (spots + [s])[..|spots|] == spots;
  }

  /** Coverage never goes down as spots are added. */
  lemma {:induction false} AliveFillGrows(spots: seq<Spots.Spot>, added: seq<Spots.Spot>, time: real)
    ensures AliveFill(spots, time) <= AliveFill(spots + added, time)
    decreases |added|
  {
    if added == [] {
      assert spots + added == spots;
    } else {
      var init := added[..|added| - 1];
      var last := added[|added| - 1];
      assert spots + added == (spots + init) + [last];
      AliveFillGrows(spots, init, time);
      AliveFillPush(spots + init, last, time);
    }
  }

  // ---------------------------------------------------------------------------
  // Observations

  /** `Σ values[k]` over the spots `spots[k]` alive at `t`, in list order. */
  function AliveSum(spots: seq<Spots.Spot>, values: seq<real>, t: real): real
    requires |values| == |spots|
    decreases |spots|
  {
    if spots == [] then 0.0
    else
      var n := |spots| - 1;
      AliveSum(spots[..n], values[..n], t) + (if Spots.Alive(spots[n], t) then values[n] else 0.0)
  }

  lemma AliveSumPush(spots: seq<Spots.Spot>, values: seq<real>, s: Spots.Spot, v: real, t: real)
    requires |values| == |spots|
    ensures AliveSum(spots + [s], values + [v], t) == AliveSum(spots, values, t) + (if Spots.Alive(s, t) then v else 0.0)
  {
    assert (spots + [s])[..|spots|] == spots;
    assert (values + [v])[..|values|] == values;
  }

  /** Spots that are not alive at `t` add nothing. */
  lemma {:induction false} AliveSumWithoutAliveSpots(spots: seq<Spots.Spot>, values: seq<real>, t: real)
    requires |values| == |spots|
    requires forall k :: 0 <= k < |spots| ==> !Spots.Alive(spots[k], t)
    ensures AliveSum(spots, values, t) == 0.0
    decreases |spots|
  {
    if spots != [] {
      AliveSumWithoutAliveSpots(spots[..|spots| - 1], values[..|spots| - 1], t);
    }
  }

  /** When every spot is alive at `t`, the sum over the alive spots is the sum
    * over all of them. */
  lemma {:induction false} AliveSumAllAlive(spots: seq<Spots.Spot>, values: seq<real>, t: real)
    requires |values| == |spots|
    requires forall k :: 0 <= k < |spots| ==> Spots.Alive(spots[k], t)
    ensures AliveSum(spots, values, t) == Sum(values)
    decreases |spots|
  {
    if spots != [] {
      var n := |spots| - 1;
      AliveSumAllAlive(spots[..n], values[..n], t);
      SumAppend(values[..n], values[n]);
      assert values[..n] + [values[n]] == values;
    }
  }

  /** `get_flux` of every spot at `t`. */
  function SpotFluxes(m: Math, spots: seq<Spots.Spot>, t: real): (fs: seq<real>)
    requires forall k :: 0 <= k < |spots| ==> SpotSweeps.Placeable(spots[k])
    ensures |fs| == |spots|
  {
    seq(|spots|, k requires 0 <= k < |spots| => SpotSweeps.FluxOf(m, spots[k], t))
  }

  /** The brightness relative to the quiet star, `(flux_quiet - spot flux) / flux_quiet`. */
  function Relative(star: Stars.Star, spotFlux: real): real
    requires star.fluxQuiet != 0.0
  {
    (star.fluxQuiet - spotFlux) / star.fluxQuiet
  }

  /** The per-time value of `observe_flux` as written, given every spot's flux at
    * `t`: all of them are taken away, including those of spots not alive at `t`. */
  function FluxAtAsWritten(star: Stars.Star, fluxes: seq<real>): real
    requires star.fluxQuiet != 0.0
  {
    Relative(star, Sum(fluxes))
  }

  /** The per-time value of `observe_flux`, taking away only the fluxes of the
    * spots alive at `t`, as `observe_rv` does for the profile. */
  function FluxAt(star: Stars.Star, spots: seq<Spots.Spot>, fluxes: seq<real>, t: real): real
    requires star.fluxQuiet != 0.0 && |fluxes| == |spots|
  {
    Relative(star, AliveSum(spots, fluxes, t))
  }

  /** Without spots alive at `t` the star shows exactly its quiet flux. */
  lemma FluxAtWithoutAliveSpots(star: Stars.Star, spots: seq<Spots.Spot>, fluxes: seq<real>, t: real)
    requires star.fluxQuiet != 0.0 && |fluxes| == |spots|
    requires forall k :: 0 <= k < |spots| ==> !Spots.Alive(spots[k], t)
    ensures FluxAt(star, spots, fluxes, t) == 1.0
  {
    AliveSumWithoutAliveSpots(spots, fluxes, t);
  }

  /** While every spot is alive the two readings agree. */
  lemma FluxAtAllAlive(star: Stars.Star, spots: seq<Spots.Spot>, fluxes: seq<real>, t: real)
    requires star.fluxQuiet != 0.0 && |fluxes| == |spots|
    requires forall k :: 0 <= k < |spots| ==> Spots.Alive(spots[k], t)
    ensures FluxAt(star, spots, fluxes, t) == FluxAtAsWritten(star, fluxes)
  {
    AliveSumAllAlive(spots, fluxes, t);
  }

  /** Adding a spot that is not alive at `t` leaves the corrected value unchanged,
    * but lowers the value as written by that spot's flux. */
  lemma DeadSpotFlux(star: Stars.Star, spots: seq<Spots.Spot>, fluxes: seq<real>, s: Spots.Spot, f: real, t: real)
    requires star.fluxQuiet != 0.0 && |fluxes| == |spots| && !Spots.Alive(s, t)
    ensures FluxAt(star, spots + [s], fluxes + [f], t) == FluxAt(star, spots, fluxes, t)
    ensures FluxAtAsWritten(star, fluxes + [f]) == Relative(star, Sum(fluxes) + f)
  {
    AliveSumPush(spots, fluxes, s, f, t);
    SumAppend(fluxes, f);
  }

  /** The discrepancy: for a single spot that is no longer alive at `t` but has a
    * flux there, `observe_flux` as written reports a star dimmer or brighter than
    * the quiet one, although no spot is alive. */
  lemma FluxAtAsWrittenCountsDeadSpots(star: Stars.Star, s: Spots.Spot, f: real, t: real)
    requires star.fluxQuiet != 0.0 && !Spots.Alive(s, t) && f != 0.0
    ensures FluxAt(star, [s], [f], t) == 1.0
    ensures FluxAtAsWritten(star, [f]) != 1.0
  {
    FluxAtWithoutAliveSpots(star, [s], [f], t);
    assert Sum([f]) == f;
  }

  /** `Σ ccfs[k][i]` over the spots alive at `t`, in list order. */
  function AliveCcf(spots: seq<Spots.Spot>, ccfs: seq<seq<real>>, t: real, i: nat): real
    requires |ccfs| == |spots| && forall k :: 0 <= k < |ccfs| ==> i < |ccfs[k]|
    decreases |spots|
  {
    if spots == [] then 0.0
    else
      var n := |spots| - 1;
      AliveCcf(spots[..n], ccfs[..n], t, i) + (if Spots.Alive(spots[n], t) then ccfs[n][i] else 0.0)
  }

  /** Spots that are not alive at `t` add nothing to any entry. */
  lemma {:induction false} AliveCcfWithoutAliveSpots(spots: seq<Spots.Spot>, ccfs: seq<seq<real>>, t: real, i: nat)
    requires |ccfs| == |spots| && forall k :: 0 <= k < |ccfs| ==> i < |ccfs[k]|
    requires forall k :: 0 <= k < |spots| ==> !Spots.Alive(spots[k], t)
    ensures AliveCcf(spots, ccfs, t, i) == 0.0
    decreases |spots|
  {
    if spots != [] {
      var n := |spots| - 1;
      AliveCcfWithoutAliveSpots(spots[..n], ccfs[..n], t, i);
    }
  }

  /** What a profile of `n` entries per spot looks like. */
  predicate Profiles(ccfs: seq<seq<real>>, count: nat, n: nat) {
    |ccfs| == count && forall k :: 0 <= k < |ccfs| ==> |ccfs[k]| == n
  }

  /** `get_ccf` of every spot at `t`. */
  function SpotCcfs(m: Math, star: Stars.Star, spots: seq<Spots.Spot>, t: real): (cs: seq<seq<real>>)
    requires StarOk(star) && OnStar(star, spots)
    ensures Profiles(cs, |spots|, |star.integratedCcf|)
  {
    seq(|spots|, k requires 0 <= k < |spots| => SpotSweeps.CcfOf(m, spots[k], t))
  }

  /** The composite profile of `observe_rv`, given every spot's profile at `t`:
    * the quiet star's integrated profile less the profiles of the spots alive at `t`. */
  function Composite(star: Stars.Star, spots: seq<Spots.Spot>, ccfs: seq<seq<real>>, t: real): (c: seq<real>)
    requires Profiles(ccfs, |spots|, |star.integratedCcf|)
    ensures |c| == |star.integratedCcf|
  {
    seq(|star.integratedCcf|, i requires 0 <= i < |star.integratedCcf| => star.integratedCcf[i] - AliveCcf(spots, ccfs, t, i))
  }

  /** Without spots alive at `t` the composite is the quiet star's integrated profile. */
  lemma CompositeWithoutAliveSpots(star: Stars.Star, spots: seq<Spots.Spot>, ccfs: seq<seq<real>>, t: real)
    requires Profiles(ccfs, |spots|, |star.integratedCcf|)
    requires forall k :: 0 <= k < |spots| ==> !Spots.Alive(spots[k], t)
    ensures Composite(star, spots, ccfs, t) == star.integratedCcf
  {
    forall i | 0 <= i < |star.integratedCcf|
      ensures Composite(star, spots, ccfs, t)[i] == star.integratedCcf[i]
    {
      AliveCcfWithoutAliveSpots(spots, ccfs, t, i);
    }
  }

  /** A spot that is not alive at `t` leaves the composite profile unchanged. */
  lemma CompositeIgnoresDeadSpot(star: Stars.Star, spots: seq<Spots.Spot>, ccfs: seq<seq<real>>,
                                 s: Spots.Spot, ccf: seq<real>, t: real)
    requires Profiles(ccfs, |spots|, |star.integratedCcf|) && |ccf| == |star.integratedCcf|
    requires !Spots.Alive(s, t)
    ensures Composite(star, spots + [s], ccfs + [ccf], t) == Composite(star, spots, ccfs, t)
  {
    assert (spots + [s])[..|spots|] == spots;
    assert (ccfs + [ccf])[..|ccfs|] == ccfs;
  }

  /** `Observation`: the radial velocity and the line bisector, both relative to
    * the zero point; the bisector is `None` where `compute_bisector` panics. */
  datatype Observation = Observation(rv: real, bisector: Option<seq<real>>)

  function Shift(xs: seq<real>, d: real): (r: seq<real>)
    ensures |r| == |xs| && forall k :: 0 <= k < |xs| ==> r[k] == xs[k] - d
  {
    seq(|xs|, k requires 0 <= k < |xs| => xs[k] - d)
  }

  /** The per-time value of `observe_rv`: fit the composite profile's velocity,
    * compute its bisector, and take the zero point off both. */
  function ObservationOf(composite: seq<real>, rvGrid: seq<real>, zeroRv: real,
                         fitRv: (seq<real>, seq<real>) -> real, eval: (Bisectors.Wing, real) -> real): (o: Observation)
    requires |rvGrid| == |composite|
    ensures o.rv == fitRv(rvGrid, composite) - zeroRv
    ensures o.bisector.Some? <==> Bisectors.BisectorOf(rvGrid, composite, eval).Some?
    ensures o.bisector.Some? ==> o.bisector.value == Shift(Bisectors.BisectorOf(rvGrid, composite, eval).value, zeroRv)
  {
    var b := Bisectors.BisectorOf(rvGrid, composite, eval);
    Observation(fitRv(rvGrid, composite) - zeroRv, if b.None? then None else Some(Shift(b.value, zeroRv)))
  }

  /** What `observe_rv` reports at `t`: the observation of the composite profile
    * of the spots alive at `t`, each profile computed with `get_ccf`. */
  function ObservedAt(m: Math, star: Stars.Star, spots: seq<Spots.Spot>, t: real, zeroRv: real,
                      fitRv: (seq<real>, seq<real>) -> real, eval: (Bisectors.Wing, real) -> real): Observation
    requires StarOk(star) && OnStar(star, spots)
  {
    ObservationOf(Composite(star, spots, SpotCcfs(m, star, spots, t), t), star.profileQuiet.rv, zeroRv, fitRv, eval)
  }

  // ---------------------------------------------------------------------------
  // The per-time loops of `observe_flux` and `observe_rv`

  /** `AliveSum` over one more element of the same lists. */
  lemma AliveSumStep(spots: seq<Spots.Spot>, values: seq<real>, j: nat, t: real)
    requires |values| == |spots| && j < |spots|
    ensures AliveSum(spots[..j + 1], values[..j + 1], t)
         == AliveSum(spots[..j], values[..j], t) + (if Spots.Alive(spots[j], t) then values[j] else 0.0)
  {
    assert spots[..j + 1][..j] == spots[..j] && values[..j + 1][..j] == values[..j];
  }

  /** The flux taken away at `t`: `get_flux` of every spot alive at `t`, summed. */
  method SumAliveFluxes(m: Math, spots: seq<Spots.Spot>, t: real) returns (spotFlux: real)
    requires forall k :: 0 <= k < |spots| ==> SpotSweeps.Placeable(spots[k])
    ensures spotFlux == AliveSum(spots, SpotFluxes(m, spots, t), t)
  {
    ghost var fs := SpotFluxes(m, spots, t);
    spotFlux := 0.0;
    for j := 0 to |spots|
      invariant spotFlux == AliveSum(spots[..j], fs[..j], t)
    {
      var f := AliveFlux(m, spots, j, t);
      AliveSumStep(spots, fs, j, t);
      spotFlux := spotFlux + f;
    }
    assert spots[..|spots|] == spots && fs[..|fs|] == fs;
  }

  /** The flux spot `j` takes away at `t`: computed with `get_flux` when the
    * spot is alive at `t`, nothing otherwise. */
  method AliveFlux(m: Math, spots: seq<Spots.Spot>, j: nat, t: real) returns (f: real)
    requires forall k :: 0 <= k < |spots| ==> SpotSweeps.Placeable(spots[k])
    requires j < |spots|
    ensures f == if Spots.Alive(spots[j], t) then SpotFluxes(m, spots, t)[j] else 0.0
  {
    f := 0.0;
    if Spots.Alive(spots[j], t) {
      f := SpotSweeps.GetFlux(m, spots[j], t);
    }
  }

  /** Add `ccf` into `profile` entry by entry, as `observe_rv` adds a spot's
    * profile into the running total. */
  method AddInto(profile: array<real>, ccf: array<real>)
    requires profile.Length <= ccf.Length && profile != ccf
    modifies profile
    ensures forall i :: 0 <= i < profile.Length ==> profile[i] == old(profile[i]) + ccf[i]
  {
    for i := 0 to profile.Length
      invariant forall j :: 0 <= j < i ==> profile[j] == old(profile[j]) + ccf[j]
      invariant forall j :: i <= j < profile.Length ==> profile[j] == old(profile[j])
    {
      profile[i] := profile[i] + ccf[i];
    }
  }

  /** Add the profile of spot `j` at `t` into `profile` when the spot is alive
    * at `t`, computing it with `get_ccf`. */
  method AddSpotCcf(m: Math, star: Stars.Star, spots: seq<Spots.Spot>, t: real, j: nat, profile: array<real>)
    requires StarOk(star) && OnStar(star, spots)
    requires j < |spots| && profile.Length == |star.integratedCcf|
    modifies profile
    ensures forall i :: 0 <= i < profile.Length ==>
      profile[i] == old(profile[i]) + (if Spots.Alive(spots[j], t) then SpotSweeps.CcfOf(m, spots[j], t)[i] else 0.0)
  {
    if Spots.Alive(spots[j], t) {
      var ccf := SpotSweeps.GetCcf(m, spots[j], t);
      AddInto(profile, ccf);
    }
  }

  /** The running total of `observe_rv`: the profiles of the spots alive at `t`,
    * added up entry by entry. */
  method SumAliveCcfs(m: Math, star: Stars.Star, spots: seq<Spots.Spot>, t: real) returns (profile: array<real>)
    requires StarOk(star) && OnStar(star, spots)
    ensures fresh(profile) && profile.Length == |star.integratedCcf|
    ensures forall i :: 0 <= i < profile.Length ==> profile[i] == AliveCcf(spots, SpotCcfs(m, star, spots, t), t, i)
  {
    ghost var cs := SpotCcfs(m, star, spots, t);
    var n := |star.integratedCcf|;
    profile := new real[n](_ => 0.0);
    for j := 0 to |spots|
      invariant forall i :: 0 <= i < n ==> profile[i] == AliveCcf(spots[..j], cs[..j], t, i)
    {
      assert spots[..j + 1][..j] == spots[..j] && cs[..j + 1][..j] == cs[..j];
      assert spots[..j + 1][j] == spots[j] && cs[..j + 1][j] == cs[j];
      AddSpotCcf(m, star, spots, t, j, profile);
    }
    assert spots[..|spots|] == spots && cs[..|cs|] == cs;
  }

  /** Replace every entry of `profile` by the entry of `from` less it. */
  method SubtractFrom(profile: array<real>, from: seq<real>)
    requires profile.Length == |from|
    modifies profile
    ensures forall i :: 0 <= i < profile.Length ==> profile[i] == from[i] - old(profile[i])
  {
    for i := 0 to profile.Length
      invariant forall j :: 0 <= j < i ==> profile[j] == from[j] - old(profile[j])
      invariant forall j :: i <= j < profile.Length ==> profile[j] == old(profile[j])
    {
      profile[i] := from[i] - profile[i];
    }
  }

  /** The composite profile at `t`, as `observe_rv` builds it in an array:
    * the spots' running total, then each entry replaced by the integrated
    * profile's entry less it. */
  method CompositeProfile(m: Math, star: Stars.Star, spots: seq<Spots.Spot>, t: real) returns (profile: array<real>)
    requires StarOk(star) && OnStar(star, spots)
    ensures fresh(profile)
    ensures profile[..] == Composite(star, spots, SpotCcfs(m, star, spots, t), t)
  {
    profile := SumAliveCcfs(m, star, spots, t);
    SubtractFrom(profile, star.integratedCcf);
  }

  /** The per-time body of `observe_flux`: the relative brightness at `t`, the
    * flux of each spot alive at `t` computed with `get_flux`. */
  method FluxAtTime(m: Math, star: Stars.Star, spots: seq<Spots.Spot>, t: real) returns (relative: real)
    requires forall k :: 0 <= k < |spots| ==> SpotSweeps.Placeable(spots[k])
    requires star.fluxQuiet != 0.0
    ensures relative == FluxAt(star, spots, SpotFluxes(m, spots, t), t)
  {
    var spotFlux := SumAliveFluxes(m, spots, t);
    relative := (star.fluxQuiet - spotFlux) / star.fluxQuiet;
  }

  /** The relative brightness at each of the given times. */
  method FluxesAt(m: Math, star: Stars.Star, spots: seq<Spots.Spot>, times: seq<real>) returns (fluxes: seq<real>)
    requires forall k :: 0 <= k < |spots| ==> SpotSweeps.Placeable(spots[k])
    requires star.fluxQuiet != 0.0
    ensures |fluxes| == |times|
    ensures forall k :: 0 <= k < |times| ==> fluxes[k] == FluxAt(star, spots, SpotFluxes(m, spots, times[k]), times[k])
  {
    fluxes := [];
    for k := 0 to |times|
      invariant |fluxes| == k
      invariant forall j :: 0 <= j < k ==> fluxes[j] == FluxAt(star, spots, SpotFluxes(m, spots, times[j]), times[j])
    {
      var f := FluxAtTime(m, star, spots, times[k]);
      fluxes := fluxes + [f];
    }
  }

  /** The per-time body of `observe_rv`. */
  method ObserveAt(m: Math, star: Stars.Star, spots: seq<Spots.Spot>, t: real, zeroRv: real,
                   fitRv: (seq<real>, seq<real>) -> real, eval: (Bisectors.Wing, real) -> real)
    returns (o: Observation)
    requires StarOk(star) && OnStar(star, spots)
    ensures o == ObservedAt(m, star, spots, t, zeroRv, fitRv, eval)
  {
    var profile := CompositeProfile(m, star, spots, t);
    o := ObservationOf(profile[..], star.profileQuiet.rv, zeroRv, fitRv, eval);
  }

  /** `f` applied to every element of `xs`, in order. */
  function Map<A, B>(f: A -> B, xs: seq<A>): (ys: seq<B>)
    ensures |ys| == |xs|
    decreases |xs|
  {
    if xs == [] then [] else var n := |xs| - 1; Map(f, xs[..n]) + [f(xs[n])]
  }

  lemma {:induction false} MapAt<A, B>(f: A -> B, xs: seq<A>)
    ensures forall k :: 0 <= k < |xs| ==> Map(f, xs)[k] == f(xs[k])
    decreases |xs|
  {
    if xs != [] {
      MapAt(f, xs[..|xs| - 1]);
    }
  }

  lemma MapPush<A, B>(f: A -> B, xs: seq<A>, k: nat)
    requires k < |xs|
    ensures Map(f, xs[..k + 1]) == Map(f, xs[..k]) + [f(xs[k])]
  {
    assert xs[..k + 1][..k] == xs[..k];
  }

  /** The observation at a time, as a function of the time alone. */
  function Observer(m: Math, star: Stars.Star, spots: seq<Spots.Spot>, zeroRv: real,
                    fitRv: (seq<real>, seq<real>) -> real, eval: (Bisectors.Wing, real) -> real): real -> Observation
    requires StarOk(star) && OnStar(star, spots)
  {
    t => ObservedAt(m, star, spots, t, zeroRv, fitRv, eval)
  }

  /** The observation at each of the given times. */
  method ObservationsAt(m: Math, star: Stars.Star, spots: seq<Spots.Spot>, times: seq<real>, zeroRv: real,
                        fitRv: (seq<real>, seq<real>) -> real, eval: (Bisectors.Wing, real) -> real)
    returns (obs: seq<Observation>)
    requires StarOk(star) && OnStar(star, spots)
    ensures |obs| == |times|
    ensures forall k :: 0 <= k < |times| ==> obs[k] == ObservedAt(m, star, spots, times[k], zeroRv, fitRv, eval)
  {
    ghost var f := Observer(m, star, spots, zeroRv, fitRv, eval);
    obs := [];
    for k := 0 to |times|
      invariant obs == Map(f, times[..k])
    {
      var o := ObserveAt(m, star, spots, times[k], zeroRv, fitRv, eval);
      MapPush(f, times, k);
      obs := obs + [o];
    }
    assert times[..|times|] == times;
    MapAt(f, times);
  }

  // ---------------------------------------------------------------------------
  // The simulation

  class Simulation {
    var star: Stars.Star
    var spots: seq<Spots.Spot>
    /** What is left of the random generator's output. */
    var draws: seq<real>

    ghost predicate Valid()
      reads this
    {
      StarOk(star) && OnStar(star, spots)
    }

    /** A simulation of `star` without spots. */
    constructor(star: Stars.Star, draws: seq<real>)
      requires StarOk(star)
      ensures Valid() && this.star == star && spots == [] && this.draws == draws
    {
      this.star := star;
      this.spots := [];
      this.draws := draws;
    }

    /** `add_spot`: append the spot the configuration describes. */
    method AddSpot(m: Math, cfg: Spots.SpotConfig)
      requires Valid()
      modifies this
      ensures Valid() && star == old(star) && draws == old(draws)
      ensures spots == old(spots) + [Spots.FromConfig(m, star, cfg)]
    {
      spots := spots + [Spots.FromConfig(m, star, cfg)];
    }

    /** `clear_spots`: remove every spot. */
    method ClearSpots()
      requires Valid()
      modifies this
      ensures Valid() && star == old(star) && draws == old(draws) && spots == []
    {
      spots := [];
    }

    /** The inner `find` of `check_fill_factor`: draw until a scaled draw is below
      * the limit. */
    method DrawFillFactor() returns (fill: Option<real>)
      modifies this
      ensures star == old(star) && spots == old(spots)
      ensures (fill, draws) == FillDraw(old(draws))
    {
      while draws != [] && FILL_LIMIT <= draws[0] * FILL_SCALE
        invariant star == old(star) && spots == old(spots)
        invariant FillDraw(draws) == FillDraw(old(draws))
        decreases |draws|
      {
        draws := draws[1..];
      }
      if draws == [] {
        fill := None;
      } else {
        fill := Some(draws[0] * FILL_SCALE);
        draws := draws[1..];
      }
    }

    /** `check_fill_factor`: while the coverage of the spots alive at `time` is
      * below the star's target, draw a fill factor, a latitude and a longitude,
      * and add the spot they describe, living from `time` to `time + 15`, unless
      * it collides with a spot alive at either end of that lifetime. The loop
      * ends when the target is met or the draws run out. */
    method CheckFillFactor(m: Math, time: real) returns (ghost added: seq<Spots.SpotConfig>)
      requires Valid()
      modifies this
      ensures Valid() && star == old(star)
      ensures Appended(m, star, spots, |old(spots)|, added, time) && spots[..|old(spots)|] == old(spots)
      ensures Separated(m, spots, |old(spots)|, time)
      ensures AliveFill(old(spots), time) <= AliveFill(spots, time)
      ensures star.targetFillFactor <= AliveFill(spots, time) || draws == []
    {
      ghost var st, s0 := star, spots;
      ghost var n0 := |spots|;
      added := [];
      var current := AliveFill(spots, time);
      // The source's `if` around the loop only takes the generator's lock; the
      // loop condition is the same test.
      while current < star.targetFillFactor
        invariant Valid() && star == st
        invariant AliveFill(s0, time) <= current == AliveFill(spots, time)
        invariant Appended(m, st, spots, n0, added, time) && spots[..n0] == s0
        invariant Separated(m, spots, n0, time)
        decreases |draws|
      {
        var fill := DrawFillFactor();
        if fill.None? || |draws| < 2 {
          draws := [];
          break;
        }
        var cfg := Spots.SpotConfig(draws[0], draws[1], fill.value, false);
        draws := draws[2..];
        ghost var before := spots;
        var placed := TryPlace(m, time, cfg);
        if placed {
          AppendedPush(m, star, before, n0, added, cfg, time);
          added := added + [cfg];
          current := current + Spots.FillFactor(Placed(m, star, cfg, time));
          assert spots[..n0] == before[..n0];
        }
      }
    }

    /** One attempt of `check_fill_factor`: add the spot `cfg` describes, living
      * from `time` to `time + 15`, unless it collides with a spot alive at either
      * end of that lifetime. */
    method TryPlace(m: Math, time: real, cfg: Spots.SpotConfig) returns (placed: bool)
      requires Valid()
      modifies this
      ensures Valid() && star == old(star) && draws == old(draws)
      ensures placed == !Blocked(m, Placed(m, star, cfg, time), old(spots), time)
      ensures spots == if placed then old(spots) + [Placed(m, star, cfg, time)] else old(spots)
      ensures AliveFill(spots, time)
        == AliveFill(old(spots), time) + (if placed then Spots.FillFactor(Placed(m, star, cfg, time)) else 0.0)
      ensures forall from :: 0 <= from <= |old(spots)| && Separated(m, old(spots), from, time) ==>
        Separated(m, spots, from, time)
    {
      var spot := Placed(m, star, cfg, time);
      placed := !Blocked(m, spot, spots, time);
      if placed {
        AliveFillPush(spots, spot, time);
        SeparatedPush(m, spots, spot, time);
        spots := spots + [spot];
      }
    }

    /** The intensity every spot gets at the start of `observe_flux` and
      * `observe_rv`: its band integral over the star's. */
    method SetIntensities(band: real -> real)
      requires Valid() && band(star.temperature) != 0.0
      modifies this
      ensures Valid() && star == old(star) && draws == old(draws)
      ensures |spots| == |old(spots)|
      ensures forall k :: 0 <= k < |spots| ==>
        spots[k] == old(spots)[k].(intensity := band(old(spots)[k].temperature) / band(star.temperature))
    {
      for k := 0 to |spots|
        invariant Valid() && star == old(star) && draws == old(draws)
        invariant |spots| == |old(spots)|
        invariant forall j :: 0 <= j < k ==>
          spots[j] == old(spots)[j].(intensity := band(old(spots)[j].temperature) / band(star.temperature))
        invariant forall j :: k <= j < |spots| ==> spots[j] == old(spots)[j]
      {
        spots := spots[k := spots[k].(intensity := band(spots[k].temperature) / band(star.temperature))];
      }
    }

    /** The fill-factor check at each of the given times, in order. */
    method CheckAll(m: Math, times: seq<real>)
      requires Valid()
      modifies this
      ensures Valid() && star == old(star)
      ensures |old(spots)| <= |spots| && spots[..|old(spots)|] == old(spots)
      ensures AllDrawn(m, star, spots, |old(spots)|, times, |times|)
    {
      for k := 0 to |times|
        invariant Valid() && star == old(star)
        invariant |old(spots)| <= |spots| && spots[..|old(spots)|] == old(spots)
        invariant AllDrawn(m, star, spots, |old(spots)|, times, k)
      {
        ghost var before := spots;
        ghost var added := CheckFillFactor(m, times[k]);
        assert spots[..|old(spots)|] == before[..|old(spots)|];
        AllDrawnStep(m, star, before, spots, |old(spots)|, times, k, added);
      }
    }


    /** `observe_flux`: set the intensities, top the coverage up at every time,
      * then report the relative brightness at every time. */
    method ObserveFlux(m: Math, times: seq<real>, band: real -> real) returns (fluxes: seq<real>)
      requires Valid() && band(star.temperature) != 0.0 && star.fluxQuiet != 0.0
      modifies this
      ensures Valid() && star == old(star)
      ensures |old(spots)| <= |spots|
      ensures forall k :: 0 <= k < |old(spots)| ==>
        spots[k] == old(spots)[k].(intensity := band(old(spots)[k].temperature) / band(star.temperature))
      ensures AllDrawn(m, star, spots, |old(spots)|, times, |times|)
      ensures |fluxes| == |times|
      ensures forall k :: 0 <= k < |times| ==> fluxes[k] == FluxAt(star, spots, SpotFluxes(m, spots, times[k]), times[k])
    {
      SetIntensities(band);
      ghost var lit := spots;
      CheckAll(m, times);
      assert forall k :: 0 <= k < |lit| ==> spots[k] == lit[k] by {
        assert spots[..|lit|] == lit;
      }
      fluxes := FluxesAt(m, star, spots, times);
    }


    /** `observe_rv`: set the intensities, top the coverage up at every time,
      * then observe the composite profile at every time. */
    method ObserveRv(m: Math, times: seq<real>, band: real -> real, zeroRv: real,
                     fitRv: (seq<real>, seq<real>) -> real, eval: (Bisectors.Wing, real) -> real)
      returns (obs: seq<Observation>)
      requires Valid() && band(star.temperature) != 0.0
      modifies this
      ensures Valid() && star == old(star)
      ensures |old(spots)| <= |spots|
      ensures forall k :: 0 <= k < |old(spots)| ==>
        spots[k] == old(spots)[k].(intensity := band(old(spots)[k].temperature) / band(star.temperature))
      ensures AllDrawn(m, star, spots, |old(spots)|, times, |times|)
      ensures |obs| == |times|
      ensures forall k :: 0 <= k < |times| ==> obs[k] == ObservedAt(m, star, spots, times[k], zeroRv, fitRv, eval)
    {
      SetIntensities(band);
      ghost var lit := spots;
      CheckAll(m, times);
      assert forall k :: 0 <= k < |lit| ==> spots[k] == lit[k] by {
        assert spots[..|lit|] == lit;
      }
      obs := ObservationsAt(m, star, spots, times, zeroRv, fitRv, eval);
    }


  }
}
