/**
 * Starspots (spot.rs): their configuration, their lifetime and the relation
 * between a spot's fill factor and its radius. The sweeps over the disk that
 * need the spot's bounding shape are in module `SpotSweeps`.
 */
module Spots {
  import opened Numerics
  import opened Intervals
  import Stars

  /** `SpotConfig`: position in degrees, the fraction of the disk covered. */
  datatype SpotConfig = SpotConfig(latitude: real, longitude: real, fillFactor: real, plage: bool)

  /** `Mortality`: a spot lives forever or over a closed interval of time. */
  datatype Mortality = Immortal | Mortal(lifetime: Bounds)

  /** `Spot`: position in radians, radius in units of the stellar radius, and the
    * brightness relative to the quiet photosphere (`intensity`). */
  datatype Spot = Spot(
    star: Stars.Star,
    latitude: real,
    longitude: real,
    radius: real,
    temperature: real,
    plage: bool,
    mortality: Mortality,
    intensity: real)

  /** `Spot::from_config`: degrees become radians, the fill factor becomes a
    * radius, the spot is cooler than the star by the star's spot temperature
    * difference, lives forever and starts with zero intensity. */
  function FromConfig(m: Math, star: Stars.Star, cfg: SpotConfig): (s: Spot)
    ensures s.star == star && s.plage == cfg.plage
    ensures s.latitude == cfg.latitude * m.pi / 180.0 && s.longitude == cfg.longitude * m.pi / 180.0
    ensures s.temperature == star.temperature - star.spotTempDiff
    ensures s.mortality == Immortal && s.intensity == 0.0
    ensures Lawful(m) && 0.0 <= cfg.fillFactor ==> 0.0 <= s.radius && FillFactor(s) == cfg.fillFactor
  {
    var s := Spot(
      star,
      cfg.latitude * m.pi / 180.0,
      cfg.longitude * m.pi / 180.0,
      Sqrt(m, 2.0 * cfg.fillFactor),
      star.temperature - star.spotTempDiff,
      cfg.plage,
      Immortal,
      0.0);
    assert Lawful(m) && 0.0 <= cfg.fillFactor ==> s.radius * s.radius == 2.0 * cfg.fillFactor;
    s
  }

  /** The fraction of the disk a spot covers, `radius² / 2`, as `check_fill_factor` counts it. */
  function FillFactor(s: Spot): (f: real)
    ensures 0.0 <= f
  {
    assert 0.0 <= s.radius * s.radius by {
      if s.radius < 0.0 {
        assert s.radius * s.radius == (-s.radius) * (-s.radius);
      }
    }
    (s.radius * s.radius) / 2.0
  }

  /** `Spot::alive`: an immortal spot always exists; a mortal one exactly within
    * its lifetime, both ends included. */
  function Alive(s: Spot, time: real): bool {
    match s.mortality
    case Immortal => true
    case Mortal(lifetime) => time >= lifetime.lower && time <= lifetime.upper
  }

  /** The times a spot is alive form an interval: alive at two times, alive in between. */
  lemma AliveBetween(s: Spot, t1: real, t: real, t2: real)
    requires t1 <= t <= t2 && Alive(s, t1) && Alive(s, t2)
    ensures Alive(s, t)
  {
  }

  /** A spot given the lifetime `Bounds::new(a, b)` is alive at both ends and at no
    * time outside them; an immortal spot is alive at every time. */
  lemma AliveLifetime(s: Spot, a: real, b: real, t: real)
    ensures s.mortality == Mortal(New(a, b)) ==> Alive(s, a) && Alive(s, b)
    ensures s.mortality == Mortal(New(a, b)) && t < a && t < b ==> !Alive(s, t)
    ensures s.mortality == Mortal(New(a, b)) && a < t && b < t ==> !Alive(s, t)
    ensures s.mortality == Immortal ==> Alive(s, t)
  {
  }

  /** A spot made from a configuration is immortal, so alive at every time. */
  lemma FromConfigAlive(m: Math, star: Stars.Star, cfg: SpotConfig, t: real)
    ensures Alive(FromConfig(m, star, cfg), t)
  {
  }
}
