# A verified model of the rust-lather starspot simulator

rust-lather simulates a rotating star seen through a telescope. Dark spots and
bright plages move across the disk as the star turns. From this it predicts two
things over time:

- the relative brightness of the star (`observe_flux`);
- the apparent radial velocity and the line bisector of its cross-correlation
  profile (`observe_rv`).

This project models the simulator's core in Dafny and proves what that code
promises. The core is the `rust/src` tree: bounds, linspace, profile, point,
boundingshape, spot, star, compute_bisector and simulation. The model follows
the code's structure:

- Values are datatypes:
  - `Bounds`, `Point`, `Profile`, `Spot`, `SpotConfig`, `Mortality`, `Star`;
  - `Shape`, which is the `BoundingShape`;
  - `Observation`.
- Pure code is functions and lemmas.
- Step-by-step code is methods with loops.
  - The two iterators `Linspace` and `Floatrange` are classes whose `Next`
    advances an index.
  - `shift_into` writes into an `array`.
  - The row loops of `Star::from_config`, `get_flux` and `get_ccf` accumulate
    into arrays.
  - `Simulation` is a class whose `spots` list the methods append to, clear and
    update.

Each method is proved against a function that states its meaning, for example:

- `Profiles.ShiftInto` against `Profiles.Shifted`;
- `SpotSweeps.GetCcf` against `SpotSweeps.CcfOf`;
- `Simulation.CheckFillFactor` against `AliveFill`, `Blocked` and `Placed`.

The properties of those functions are then proved as lemmas.

Modules, one per source file (`spot.rs` is split in two so that no two modules
import each other):

| module | file | source |
|---|---|---|
| `Numerics` | numerics.dfy | real-number groundwork: `Math` (the transcendental functions), `round`, `as usize`, `as u16`, `min` |
| `Intervals` | bounds.dfy | rust/src/bounds.rs |
| `Grids` | linspace.dfy | rust/src/linspace.rs |
| `Points` | point.dfy | rust/src/point.rs |
| `Profiles` | profile.dfy | rust/src/profile.rs |
| `Stars` | star.dfy | rust/src/star.rs |
| `Spots` | spot.dfy | rust/src/spot.rs (data, `from_config`, `alive`) |
| `Shapes` | boundingshape.dfy | rust/src/boundingshape.rs |
| `SpotSweeps` | spot_sweeps.dfy | rust/src/spot.rs (`get_flux`, `get_ccf`, `collides_with`) |
| `Bisectors` | compute_bisector.dfy | rust/src/compute_bisector.rs |
| `Simulations` | simulation.dfy | rust/src/simulation.rs |

The model computes over `real`, not IEEE doubles.

- `sqrt`, `sin`, `cos`, `atan` and pi are the fields of a `Math` record.
  Every function that uses them takes this record as a parameter.
- `Lawful(m)` collects the facts the proofs rely on:
  - the square root squares back;
  - `sin² + cos² = 1`;
  - the odd and even symmetries of sine and cosine;
  - the values at 0 and at ±π/2;
  - `atan(±1) = ±π/4`.
- `HalfAngleLawful(m)` adds the tangent half-angle identities
  (`cos(-2 atan t) = (1 - t²)/(1 + t²)`, `sin(-2 atan t) = -2t/(1 + t²)`) and
  `cos π = -1`, `sin π = 0`. Only the `y` extent of the bounding circle uses
  them.
- Some operations come from code that is not part of this model. They enter as
  parameters:
  - the Planck band integral (`band`);
  - `fit_rv` (`fitRv`);
  - the GSL cubic spline of the bisector (`eval`);
  - the reference grids and profiles that the build script generates into the
    source (`rv`, `ccfQuiet`, `ccfSpot`);
  - the output of the random number generator (`draws`);
  - the zero point of the radial velocity (`zeroRv`).

Where the code reads fields its types do not have, or relies on wrapping
integer arithmetic, the model makes these adjustments:

- **Missing fields in `check_fill_factor` and `observe_rv`.**
  rust/src/simulation.rs reads `star.minimum_fill_factor` and `star.zero_rv`.
  `Star` has neither field: it stores the configured minimum, or else the
  target, as `target_fill_factor` (rust/src/star.rs:141-144).
  - The model reads `targetFillFactor`.
  - It takes the zero point as a parameter.
- **Missing fields in `BoundingShape::new`.** The constructor reads
  `spot.mortal`, `spot.time_appear` and `spot.time_disappear`. `Spot` has none
  of these; it has `mortality: Mortality`. The model reads the lifetime
  `Mortal(Bounds(appear, disappear))`, with `Immortal` standing for
  `!spot.mortal`.
- **Integer wrap in `shift_into`.** In `shift_into`, `ccf.len() - quotient` can
  underflow when the shift exceeds the grid. The model follows the release
  build the Python package uses: the subtraction wraps, so `take` passes every
  sample. `Profiles.ShiftedLen` spells this out.

## Model

| member | source | states |
|---|---|---|
| Intervals.New | rust/src/bounds.rs:11-23 | the result is ordered (`lower <= upper`); it is the same two values (equal multisets); ordered inputs keep their places and reversed inputs swap |
| Intervals.NewSymmetric | rust/src/bounds.rs:11-23 | the order of the two arguments does not matter |
| Intervals.NewIdempotent | rust/src/bounds.rs:11-23 | normalising a result again returns it unchanged |
| Intervals.NewFixesOrdered | rust/src/bounds.rs:11-23 | `new(r.lower, r.upper) == r` exactly when `r` is ordered |
| Intervals.NewExamples | rust/src/bounds.rs:30-58 | the in-order and out-of-order test cases: `new(0,1) == new(1,0) == (0,1)` |
| Grids.LinspaceValues | rust/src/linspace.rs:33-40 | `linspace(start, stop, len)` yields exactly `len` values |
| Grids.FloatrangeValues | rust/src/linspace.rs:74-82 | `floatrange` yields `len + 1` values, one more than the `len` it stores |
| Grids.Span | rust/src/linspace.rs:10-18 | value `k` of what is left is `start + step * (from + k)`, with `to - from` values left |
| Grids.Linspace.constructor | rust/src/linspace.rs:33-40 | stores `start`, `len` and the step `(stop - start) / (len - 1)`, with the index at 0, so the values still to come are `LinspaceValues(start, stop, len)` |
| Grids.Linspace.Next | rust/src/linspace.rs:10-18 | below `len` it returns `start + step * index` and advances the index; after that it returns `None` and changes nothing; it always yields the head of the remaining values |
| Grids.Linspace.Len | rust/src/linspace.rs:25-28 | `len` is the count of values taken plus the count remaining |
| Grids.Linspace.Drain | rust/src/linspace.rs:10-18 | collecting the iterator returns exactly the remaining values and leaves none |
| Grids.Floatrange.constructor | rust/src/linspace.rs:74-82 | stores `len = ((stop - start) / step) as usize`, saturating at 0, so the values still to come are `FloatrangeValues(start, stop, step)` |
| Grids.Floatrange.Next | rust/src/linspace.rs:51-59 | while `index <= len` it returns `start + step * index` and advances, so it yields `len + 1` values; after that it returns `None` |
| Grids.Floatrange.Len | rust/src/linspace.rs:66-69 | on a fresh iterator the reported length is one less than the number of values `Next` yields |
| Grids.Floatrange.Drain | rust/src/linspace.rs:51-59 | collecting the iterator returns exactly the remaining values and leaves none |
| Grids.LinspaceEndpoints | rust/src/linspace.rs:33-40 | value `k` is `start + k (stop - start)/(len - 1)`; the first value is `start`; for `len >= 2` the last is exactly `stop` |
| Grids.FloatrangeShape | rust/src/linspace.rs:49-82 | `floatrange` yields `trunc((stop - start)/step) + 1` values (clamped to at least one, `start`); the first is `start` and neighbours differ by exactly `step` |
| Grids.FloatrangeStaysWithin | rust/src/linspace.rs:72-82 | no value lies past `stop` in the step direction, and one more step would |
| Grids.FloatrangeExactMultiple | rust/src/linspace.rs:74-82 | when `stop - start` is a whole number of steps, the last value is `stop` |
| Grids.GridExamples | rust/src/linspace.rs:88-138 | the test cases: lengths 10, 0 and 100 for `linspace`; 11, 1 and 1 for `floatrange`; their endpoints; the basic sequences `[0, 1, 2]` |
| Grids.FloatrangeLenMismatch | rust/src/linspace.rs:49-70 | for `floatrange(0, 10, 1)`, `len()` reports 10 while `next` yields 11 values |
| Points.RotatedXAsWritten | rust/src/point.rs:10-16 | `rotated_x` as written keeps `x` |
| Points.RotatedX | rust/src/point.rs:10-16 | rotation about the x axis keeps `x` (the corrected formula) |
| Points.RotatedY | rust/src/point.rs:18-24 | rotation about the y axis keeps `y` |
| Points.RotatedZ | rust/src/point.rs:26-32 | rotation about the z axis keeps `z` |
| Points.RotationKeepsNorm | rust/src/point.rs:10-32 | each rotation keeps `x² + y² + z²` |
| Points.ZeroRotation | rust/src/point.rs:10-32 | rotating by 0 returns the point unchanged |
| Points.RotationInverse | rust/src/point.rs:10-32 | rotating by `-angle` undoes a rotation by `angle` |
| Points.QuarterTurnExamples | rust/src/point.rs:48-85 | the tests at π/4 on `(1,1,1)`: `(1, 0, √2)`, `(√2, 1, 0)` and `(0, √2, 1)` |
| Points.AsWrittenAgreesWhenSineIsCosine | rust/src/point.rs:13 | the written `rotated_x` equals the rotation wherever sine equals cosine, which is why the π/4 test passes |
| Points.RotatedXAsWrittenCollapses | rust/src/point.rs:13 | as written, turning `(0,1,0)` by 0 gives the origin: the formula is neither the identity at 0 nor length-preserving |
| Profiles.Slopes | rust/src/profile.rs:45-54 | the derivative has one entry per sample |
| Profiles.New | rust/src/profile.rs:41-64 | `rv` and `ccf` are kept; for `j < n-1`, `derivative[j] * (rv[j] - rv[j+1]) == ccf[j] - ccf[j+1]`; the last derivative is 0; `stepsize = abs(rv[0] - rv[1]) > 0` |
| Profiles.SlopeMeaning | rust/src/profile.rs:45-54 | `derivative[j]` is the difference quotient `(ccf[j] - ccf[j+1]) / (rv[j] - rv[j+1])` |
| Profiles.Len | rust/src/profile.rs:66-69 | the length is the number of grid points, the same as the samples and the derivative, and at least 2 |
| Profiles.Shifted | rust/src/profile.rs:110-137 | the shifted sequence has at least one value per grid point, and each value is the one the forward or backward branch computes |
| Profiles.QuotientSign | rust/src/profile.rs:113-114 | the whole-step shift `round(v / stepsize)` has the sign of the velocity |
| Profiles.RemainderBound | rust/src/profile.rs:113-114 | `v == q * stepsize + r` with `abs(r) <= stepsize / 2` |
| Profiles.ShiftedLength | rust/src/profile.rs:116-136 | for a shift of at most `n` steps either way there are exactly `n` values |
| Profiles.ShiftedForward | rust/src/profile.rs:116-126 | for `v >= 0`: the first `q` values are `ccf[0]`; value `i >= q` is `ccf[i-q] - r * derivative[i-q]` |
| Profiles.ShiftedBackward | rust/src/profile.rs:127-136 | for `v < 0`, with `m = -q`: value `i < n-m` is `ccf[i+m] - r * derivative[i+m]`; the last `m` values are `ccf[0]` |
| Profiles.ZeroShift | rust/src/profile.rs:157-183 | shifting by `0.0` or `-0.0` reproduces `ccf` exactly |
| Profiles.WholeStepShift | rust/src/profile.rs:110-137 | a shift by a whole number `k` of steps moves every sample exactly `k` places and fills the vacated places with `ccf[0]` |
| Profiles.ShiftInterpolates | rust/src/profile.rs:116-126 | on an ascending uniform grid, with `j = i - q`, a forward-shifted value is the value on the line through samples `j` and `j+1`, evaluated at `rv[i] - v`, which lies within half a step of `rv[j]`. This is interpolation when the remainder is at most 0 and extrapolation of that forward line by at most half a step when it is positive |
| Profiles.ShiftInterpolatesBackward | rust/src/profile.rs:127-136 | the same for a backward shift: the value on the line through samples `j = i - q` and `j+1` at `rv[i] - v`, within half a step of `rv[j]`; interpolation when the remainder is at most 0, extrapolation by at most half a step when it is positive |
| Profiles.MovedIsChord | rust/src/profile.rs:120-124 | moving a sample back by `r` along its stored slope lands on the chord to the next grid point |
| Profiles.ShiftInto | rust/src/profile.rs:110-137 | writes the first `min(shifted length, output length)` shifted values into `output` and leaves the rest unchanged |
| Shapes.GrowthRadius | rust/src/boundingshape.rs:22-35 | an immortal spot has its full radius; the radius always lies in `[0, max_radius]` |
| Shapes.GrowthRadiusShape | rust/src/boundingshape.rs:22-35 | a spot has no extent when it appears or disappears, and its full radius between the growth and decay tenths of its lifetime |
| Shapes.GrowthRadiusGrows | rust/src/boundingshape.rs:26-27 | over the first tenth of the lifetime the radius grows with time |
| Shapes.GrowthRadiusDecays | rust/src/boundingshape.rs:28-29 | over the last tenth of the lifetime the radius shrinks with time |
| Shapes.GrowthRadiusOutsideLifetime | rust/src/boundingshape.rs:26-32 | more than a tenth of the lifetime before it appears or after it disappears, the radius is full again, because the ramp measures distance from either end |
| Shapes.Center | rust/src/boundingshape.rs:37-45 | the spot's centre, advanced by the rotation phase and tilted by the inclination, lies on the unit sphere |
| Shapes.AsWrittenAxis | rust/src/boundingshape.rs:55-60 | the written `a` has no `x` part and `a.y = -cc.z / sqrt(cc.y² + cc.z²)` |
| Shapes.IntendedAxis | rust/src/boundingshape.rs:55-60 | the intended `a` is `(0, -cc.z, cc.y) / sqrt(cc.y² + cc.z²)` |
| Shapes.BasisAsWritten | rust/src/boundingshape.rs:55-66 | the basis as written: defined exactly off the x axis; `a` is the written axis and `b = cc × a` |
| Shapes.Basis | rust/src/boundingshape.rs:55-66 | the corrected basis: defined exactly off the x axis; `a` is the intended axis and `b = cc × a` |
| Shapes.BasisOrthogonal | rust/src/boundingshape.rs:55-66 | the corrected `a` is a unit vector perpendicular to the circle's axis; `b` is perpendicular to both, as long as the axis, with a positive `x` part |
| Shapes.BasisAsWrittenAgrees | rust/src/boundingshape.rs:55-60 | where `cc.y >= 0`, the basis as written is the intended one |
| Shapes.BasisAsWrittenSkewed | rust/src/boundingshape.rs:55-60 | where `cc.y < 0` and `cc.z != 0`, the written `a` is not perpendicular to the circle's axis |
| Shapes.AsWrittenRoot | rust/src/boundingshape.rs:59 | the written `a.z`, the root of `1 - a.y²`, is `abs(cc.y) / s`: the intended value for `cc.y >= 0` and its mirror image otherwise |
| Shapes.BasisAsWrittenExample | rust/src/boundingshape.rs:55-60 | for `cc = (0.8, -0.3, 0.4)` the written `a` is `(0, -0.8, 0.6)`, at dot product 0.48 with the axis; the intended `a` is `(0, -0.8, -0.6)` |
| Shapes.ExtremeAngleOnAxis | rust/src/boundingshape.rs:68-69 | with `a.x = 0`, the two extreme angles of `x` are a quarter turn, one each way, by the sign of `b.x` |
| Shapes.CircleXQuarter | rust/src/boundingshape.rs:71-74 | at the quarter turns the circle reaches `x = cc.x ± cr * b.x` |
| Shapes.VisibleMeaning | rust/src/boundingshape.rs:68-77 | the shape is visible exactly when the circle's largest `x`, `cc.x + cr * abs(b.x)`, is positive |
| Shapes.GridInterval | rust/src/boundingshape.rs:76 | `2 / grid_size` is positive |
| Shapes.CircleRadiusReal | rust/src/boundingshape.rs:47-48 | for a radius within the star's, the depth lies in `[0, 1]` and the circle radius is real, with square `2 depth (1 - depth)` |
| Shapes.New | rust/src/boundingshape.rs:21-91 | the shape keeps the full radius, has the growth radius at `time`, the rotated centre, the circle scaled by the depth, and `grid_interval = 2 / grid_size`; visible only when the circle is real, the corrected basis exists and an extreme `x` is positive; `a`, `b` are the corrected basis |
| Shapes.NewGeometry | rust/src/boundingshape.rs:37-77 | a visible shape's centre is on the unit sphere; its (corrected) basis is orthogonal and perpendicular to the circle's axis; the circle's point of largest `x` faces the observer |
| Shapes.BasisAsWrittenBx | rust/src/boundingshape.rs:55-66 | the written `b.x` times `s = sqrt(cc.y² + cc.z²)` is `cc.z² + cc.y abs(cc.y)`, so it is the intended `s` for `cc.y >= 0` and never larger than `s` in size |
| Shapes.VisibleAsWrittenAtImplies | rust/src/boundingshape.rs:55-77 | a circle visible with the written basis is visible with the corrected one; for `cc.y >= 0` the two flags are equal |
| Shapes.NewVisibleAsWritten | rust/src/boundingshape.rs:21-91 | the `visible` flag the source computes implies the model's, and equals it when the circle's centre has `y >= 0` |
| Shapes.VisibleAsWrittenExample | rust/src/boundingshape.rs:55-77 | a circle at depth 8/9 below `(-0.28, -0.576, 0.768)`, radius 4/9, is visible with the corrected basis and invisible with the written one |
| Shapes.YBounds | rust/src/boundingshape.rs:93-124 | nothing for a shape that is not visible; when found, the bounds are `Bounds::new` of the circle's `y` at the two extreme angles, so ordered |
| Shapes.ExtremesOfAlong | rust/src/boundingshape.rs:98-112 | at the two extreme angles (the `+` and `-` roots, or 0 and π when `b.y == 0`) `a.y cos θ + b.y sin θ` is `-R` and `R`, in some order, for `R = sqrt(a.y² + b.y²)` |
| Shapes.AlongBound | rust/src/boundingshape.rs:109-112 | at every angle `a.y cos θ + b.y sin θ` lies within `[-R, R]` |
| Shapes.YBoundsExtent | rust/src/boundingshape.rs:93-124 | bounds found are `cc.y ∓ cr sqrt(a.y² + b.y²)`; every point of the circle has its `y` between them and both ends are reached |
| Shapes.OnSpotOnStar | rust/src/boundingshape.rs:205-208 | no point off the disk is on a spot |
| Shapes.OnSpotMeaning | rust/src/boundingshape.rs:205-215 | for a surface point facing the observer, its sky position is on the spot exactly when the point lies within `radius` of the spot's centre |
| Shapes.CenterOnSpot | rust/src/boundingshape.rs:205-215 | the centre of a spot facing the observer lies on the spot |
| Shapes.CollidesWithSymmetric | rust/src/boundingshape.rs:217-223 | collision is symmetric |
| Shapes.CollidesWithItself | rust/src/boundingshape.rs:217-223 | a shape collides with itself exactly when its full radius is positive |
| Shapes.CollidesWithMeaning | rust/src/boundingshape.rs:217-223 | shapes collide exactly when the squared distance of their centres is below the squared sum of their full radii (and that sum is positive) |
| Shapes.FirstWhere | rust/src/boundingshape.rs:186-196 | `find` returns the first value of the sequence that satisfies the predicate, and returns `None` only when no value does |
| Shapes.Walk | rust/src/boundingshape.rs:186-196 | stepping a `Floatrange` until the predicate holds returns the first value of the whole range that satisfies it |
| Shapes.ZBoundsBruteOnSpot | rust/src/boundingshape.rs:183-203 | brute-force bounds are ordered and both ends are on the spot; without bounds, one walk met no grid point on the spot |
| Shapes.EdgeFromCrosses | rust/src/boundingshape.rs:142-172 | each walk of the ansatz stops at the first grid point across the spot's edge: its end is a point of the walk, on the spot exactly when its start is not, and every point before it is on the start's side; a walk that finds nothing stays on the start's side throughout |
| Shapes.ZBoundsAnsatzEnds | rust/src/boundingshape.rs:140-181 | the ansatz returns bounds only when both walks succeed; they are `Bounds::new` of the two ends, so ordered |
| Shapes.ZBoundsGuess | rust/src/boundingshape.rs:126-138 | for `abs(y) >= 1` there are no bounds and the guess is kept; otherwise there is a brute-force search without a guess, and the result, even `None`, replaces the guess |
| Shapes.ZBoundsBrute | rust/src/boundingshape.rs:183-203 | the two walks compute `ZBoundsBruteOf` |
| Shapes.WalkEdge | rust/src/boundingshape.rs:142-172 | one walk of the ansatz: towards the spot from a point off it, away from it from a point on it |
| Shapes.ZBoundsAnsatz | rust/src/boundingshape.rs:140-181 | the two walks compute `ZBoundsAnsatzOf` |
| Shapes.ZBounds | rust/src/boundingshape.rs:126-138 | returns the bounds and the updated guess as `ZBoundsOf` states |
| Spots.FromConfig | rust/src/spot.rs:59-71 | degrees become radians; temperature is the star's less `spot_temp_diff`; immortal; intensity 0; plage kept; for a non-negative fill factor `radius²/2` is the configured fill factor |
| Spots.FillFactor | rust/src/simulation.rs:144-149 | the coverage a spot counts for, `radius²/2`, is not negative |
| Spots.AliveBetween | rust/src/spot.rs:131-136 | the times a spot is alive form an interval |
| Spots.AliveLifetime | rust/src/spot.rs:131-136 | a mortal spot is alive at both ends of its lifetime and at no time outside it; an immortal spot is alive at every time |
| Spots.FromConfigAlive | rust/src/spot.rs:59-71 | a spot made from a configuration is alive at every time |
| SpotSweeps.RowLimbs | rust/src/spot.rs:82-89 | one limb integral, or none, per row |
| SpotSweeps.RowLimbsStep | rust/src/spot.rs:82-89 | each row calls `z_bounds` with the guess the previous row left behind |
| SpotSweeps.RowLimbsFirst | rust/src/spot.rs:76-89 | the first row finds its bounds by brute force; a row off the disk adds nothing and passes the guess on |
| SpotSweeps.FluxOf | rust/src/spot.rs:73-94 | a spot without `y` bounds takes no flux away |
| SpotSweeps.FluxScalesWithIntensity | rust/src/spot.rs:90 | the flux taken away is `1 - intensity` times what a black spot of the same shape takes away |
| SpotSweeps.SumRowFluxes | rust/src/spot.rs:78-89 | the `floatrange` row loop with the guess in a local variable sums the rows' limb integrals, rows without bounds adding 0 |
| SpotSweeps.GetFlux | rust/src/spot.rs:73-94 | `get_flux` computes `FluxOf` |
| SpotSweeps.CcfOf | rust/src/spot.rs:96-128 | one entry per point of the spot profile; all zero for a spot without `y` bounds |
| SpotSweeps.CcfRowNoContrast | rust/src/spot.rs:122 | a row of a spot as bright as the photosphere, with the quiet profile, adds nothing |
| SpotSweeps.CcfSumNoContrast | rust/src/spot.rs:103-125 | such a spot adds nothing over any rows |
| SpotSweeps.NoContrastNoEffect | rust/src/spot.rs:73-128 | a spot without contrast changes neither the flux nor the profile |
| SpotSweeps.AddRowInto | rust/src/spot.rs:117-123 | each entry grows by `(quiet[i] - intensity * active[i]) * limb` and nothing else changes |
| SpotSweeps.CcfRowInto | rust/src/spot.rs:108-124 | one row shifts both profiles by the row's velocity and adds its contribution, or nothing for a row without bounds |
| SpotSweeps.SumRowCcfs | rust/src/spot.rs:103-125 | the row loop leaves each entry equal to that entry summed over the rows |
| SpotSweeps.GetCcf | rust/src/spot.rs:96-128 | `get_ccf` returns a fresh array holding `CcfOf` |
| SpotSweeps.CollidesWithSymmetric | rust/src/spot.rs:139-143 | spot collision is symmetric |
| SpotSweeps.CollidesWithMeaning | rust/src/spot.rs:139-143 | two spots collide exactly when their centres at time 0 are closer than the sum of their full radii, whatever their lifetimes |
| Stars.TargetFillFactor | rust/src/star.rs:141-144 | the minimum if configured, else the target if configured, else 0 |
| Stars.OrDefault | rust/src/star.rs:106-128 | the configured distribution, or the default when none is configured |
| Stars.LimbBrightnessMonotone | rust/src/star.rs:160-162 | with non-negative coefficients the brightness grows towards the centre, reaches 1 there, and is `1 - u1 - u2` at the limb |
| Stars.Depth | rust/src/star.rs:211-212 | the depth is `sqrt(1 - min(z² + y², 1))`, not negative; on the disk `x² + y² + z² = 1` |
| Stars.AtanRatio | rust/src/star.rs:223 | `atan(z / 0)` is a quarter turn with the sign of `z` |
| Stars.LimbIntegral | rust/src/star.rs:207-235 | the antiderivative at the upper bound less the antiderivative at the lower bound |
| Stars.LimbIntegralEmpty | rust/src/star.rs:207-235 | an empty chord integrates to 0 |
| Stars.LimbIntegralAdditive | rust/src/star.rs:207-235 | integrating over two adjacent chords equals integrating over their union |
| Stars.LimbIntegralOrderFree | rust/src/star.rs:207-235 | the integral does not depend on the order of the bounds given to `Bounds::new` |
| Stars.IntegratedOfRows | rust/src/star.rs:100-102 | the integrated profile has one entry per quiet sample, each summing the rows' contributions in order |
| Stars.StillRow | rust/src/star.rs:89-102 | a row that does not move adds the quiet profile weighted by its limb integral |
| Stars.ScaledFluxOfRows | rust/src/star.rs:88-104 | summing `c` times each row's limb integral gives `c` times the quiet flux `flux_quiet` |
| Stars.StillRows | rust/src/star.rs:88-104 | with equatorial velocity 0, entry `i` of the integrated profile is the sum over the rows of `ccf[i]` times the row's limb integral |
| Stars.StillStar | rust/src/star.rs:88-104 | the whole sweep with equatorial velocity 0: entry `i` of the integrated profile is `ccf[i]` times the quiet flux of the same rows |
| Stars.AddScaledInto | rust/src/star.rs:100-102 | `integrated[i] += shifted[i] * limb` for every entry |
| Stars.IntegrateRow | rust/src/star.rs:89-103 | one pass of the loop adds the row's contribution to every entry, or nothing for a skipped row |
| Stars.Integrate | rust/src/star.rs:88-104 | over the rows of `linspace(-1, 1, grid_size)`, the loop computes the quiet flux as the sum of the non-skipped rows' limb integrals and the integrated profile as `IntegratedOfRows` |
| Stars.FromConfig | rust/src/star.rs:75-154 | every field of the star: the two profiles, the velocity, the integrated flux and profile, inclination in radians, the copied settings, the target fill factor and the four distributions with their defaults |
| Stars.TempToRgbAscending | rust/src/star.rs:237-368 | the 130 keys of `TEMP_TO_RGB` ascend strictly from 1990 to 50000 |
| Stars.BinarySearch | rust/src/star.rs:172-175 | `Ok` at a matching key or `Err` at the insertion point; either way the index of the first key at least the searched one |
| Stars.Color | rust/src/star.rs:172-175 | the lookup panics (here `None`) exactly when the temperature as `u16` exceeds 50000; otherwise the colour is the entry of the first key at least that temperature |
| Numerics.Min | rust/src/star.rs:199-205 | the result is one of the two arguments and no larger than either |
| Numerics.Round | rust/src/profile.rs:113 | the nearest integer, halfway away from zero, within 1/2 of the argument |
| Numerics.Trunc | rust/src/profile.rs:113 | truncation toward zero |
| Numerics.AsUsize | rust/src/linspace.rs:75 | truncation toward zero, with negative values saturating at 0 |
| Numerics.AsU16 | rust/src/star.rs:172 | truncation into `0..=65535`, saturating at both ends |
| Bisectors.FoldMin | rust/src/compute_bisector.rs:7-16 | the fold finds the first index of the smallest value, with its value; every earlier value is strictly larger |
| Bisectors.RightRun | rust/src/compute_bisector.rs:18-23 | the count is the maximal run of non-decreasing pairs from the start: every pair counted rises, the next one falls |
| Bisectors.LeftRun | rust/src/compute_bisector.rs:32-41 | the same run walking to lower indices |
| Bisectors.RightWing | rust/src/compute_bisector.rs:18-25 | `profile[i..i+count]` with the matching `rv`, index-paired and rising |
| Bisectors.LeftWing | rust/src/compute_bisector.rs:32-41 | the values from the minimum down, with their `rv`, index-paired and rising |
| Bisectors.BisectorOf | rust/src/compute_bisector.rs:6-56 | when defined, the bisector has exactly 1000 samples |
| Bisectors.RightStrict | rust/src/compute_bisector.rs:18-29 | the right wing's depths rise strictly exactly when every pair the run keeps, but the last, rises strictly |
| Bisectors.LeftStrict | rust/src/compute_bisector.rs:31-45 | the same for the left wing |
| Bisectors.WingsAtMinimum | rust/src/compute_bisector.rs:18-41 | both wings start at the first minimum; the right wing is empty exactly when the minimum is last, the left exactly when it is first |
| Bisectors.BisectorDefined | rust/src/compute_bisector.rs:26-48 | there is a bisector exactly when the profile is not empty and, from its first minimum, each wing has at least three points that rise strictly (what GSL's cubic spline needs); the minimum then lies at least three points from either end, so reading the wing tops cannot fail |
| Bisectors.ShortWingExample | rust/src/compute_bisector.rs:26-44 | `[3, 1, 2, 5]`: the minimum is inside, the wings hold one and two points, and there is no bisector |
| Bisectors.DeepLineExample | rust/src/compute_bisector.rs:6-56 | `[4, 3, 2, 1, 2, 3, 4]` has a bisector |
| Bisectors.BisectorSamples | rust/src/compute_bisector.rs:47-55 | the depths run from the minimum to the lower wing top, which is no lower; each sample is the average of the two wing splines there |
| Bisectors.RunMirror | rust/src/compute_bisector.rs:32-39 | walking the reversed profile counts the same pairs as walking the profile up |
| Bisectors.WingMirror | rust/src/compute_bisector.rs:32-41 | the left wing is the right wing of the mirrored line: the `- 1` in the skip count makes it start at the minimum |
| Simulations.FillDraw | rust/src/simulation.rs:162-165 | a fill factor found is under 0.001 and consumes draws; none found means no draws are left |
| Simulations.Placed | rust/src/simulation.rs:167-176 | the new spot sits on the star and is alive exactly from `time` to `time + 15` |
| Simulations.SeparatedPush | rust/src/simulation.rs:178-189 | appending a spot that no earlier spot blocks keeps the list separated |
| Simulations.AliveFillPush | rust/src/simulation.rs:144-149 | an appended spot adds its `radius²/2` to the coverage exactly when it is alive |
| Simulations.AliveFillGrows | rust/src/simulation.rs:144-149 | appending spots never lowers the coverage |
| Simulations.AliveSumWithoutAliveSpots | rust/src/simulation.rs:233 | spots not alive at `t` add nothing |
| Simulations.SpotFluxes | rust/src/simulation.rs:210 | one `get_flux` per spot |
| Simulations.FluxAtWithoutAliveSpots | rust/src/simulation.rs:208-213 | with no spot alive the relative brightness is exactly 1 |
| Simulations.FluxAtAllAlive | rust/src/simulation.rs:208-213 | while every spot is alive the corrected and the as-written values agree |
| Simulations.DeadSpotFlux | rust/src/simulation.rs:208-213 | a spot not alive at `t` leaves the corrected value unchanged, but as written its flux is still subtracted |
| Simulations.FluxAtAsWrittenCountsDeadSpots | rust/src/simulation.rs:210 | a single spot no longer alive but with nonzero flux makes the written value differ from 1 while the corrected one is 1 |
| Simulations.AliveCcfWithoutAliveSpots | rust/src/simulation.rs:232-238 | spots not alive at `t` add nothing to any profile entry |
| Simulations.SpotCcfs | rust/src/simulation.rs:234 | one `get_ccf` per spot, each as long as the integrated profile |
| Simulations.Composite | rust/src/simulation.rs:232-242 | the composite has one entry per entry of the integrated profile |
| Simulations.CompositeWithoutAliveSpots | rust/src/simulation.rs:232-242 | with no spot alive the composite is the quiet integrated profile |
| Simulations.CompositeIgnoresDeadSpot | rust/src/simulation.rs:233 | a spot not alive at `t` leaves the composite unchanged |
| Simulations.ObservationOf | rust/src/simulation.rs:251-261 | the velocity is the fitted velocity less the zero point; the bisector exists exactly when `compute_bisector` can build both wing splines (`BisectorDefined`) and is shifted by the zero point |
| Simulations.Simulation.AddSpot | rust/src/simulation.rs:134-137 | appends exactly the spot `from_config` builds and changes nothing else |
| Simulations.Simulation.ClearSpots | rust/src/simulation.rs:139-141 | empties the spot list and changes nothing else |
| Simulations.Simulation.DrawFillFactor | rust/src/simulation.rs:162-165 | consumes the draws as `FillDraw` states |
| Simulations.Simulation.CheckFillFactor | rust/src/simulation.rs:143-193 | keeps the star; existing spots are kept in place; each appended spot lives from `time` to `time + 15`, has a fill factor under 0.001 and is no plage; no appended spot collides with an earlier spot alive at either end of its lifetime; coverage does not drop; at the end the target is met or the draws are exhausted |
| Simulations.Simulation.TryPlace | rust/src/simulation.rs:167-190 | appends the candidate exactly when no spot alive at `time` or `time + 15` collides with it, and the coverage grows by its `radius²/2` |
| Simulations.Simulation.SetIntensities | rust/src/simulation.rs:198-203 | every spot's intensity becomes its band integral over the star's, nothing else changes |
| Simulations.Simulation.CheckAll | rust/src/simulation.rs:204-206 | the fill-factor check at every time keeps the earlier spots in place, and every spot it appends is `Placed` at one of the times from a configuration with a fill factor under 0.001 and no plage |
| Simulations.FluxAtTime | rust/src/simulation.rs:209-212 | (corrected) the relative brightness at `t`, taking away the flux of the spots alive at `t` only, where the source takes away every spot's flux |
| Simulations.SumAliveFluxes | rust/src/simulation.rs:210 | (corrected) the sum of `get_flux` over the spots alive at `t` only, where the source sums over every spot |
| Simulations.AliveFlux | rust/src/simulation.rs:210 | (corrected) `get_flux` of one spot, or 0 when it is not alive, where the source counts every spot |
| Simulations.Simulation.ObserveFlux | rust/src/simulation.rs:197-214 | keeps earlier spots with their new intensities; every added spot is one the fill-factor check placed at one of the times; one value per time, each the corrected `FluxAt` over the final spots |
| Simulations.FluxesAt | rust/src/simulation.rs:208-213 | (corrected) one corrected `FluxAt` per time |
| Simulations.AddInto | rust/src/simulation.rs:235-237 | `total[i] += this[i]` for every entry |
| Simulations.AddSpotCcf | rust/src/simulation.rs:233-237 | adds `get_ccf` of one spot when it is alive, nothing otherwise |
| Simulations.SumAliveCcfs | rust/src/simulation.rs:232-238 | the running total is the sum of `get_ccf` over the spots alive at `t` |
| Simulations.SubtractFrom | rust/src/simulation.rs:240-242 | every entry becomes the integrated profile's entry less the old entry |
| Simulations.CompositeProfile | rust/src/simulation.rs:232-242 | the array holds the integrated profile less that total |
| Simulations.Simulation.ObserveRv | rust/src/simulation.rs:218-264 | keeps earlier spots with their new intensities; every added spot is one the fill-factor check placed at one of the times; one observation per time, each `ObservationOf` the composite of the final spots |
| Simulations.ObservationsAt | rust/src/simulation.rs:230-263 | one observation per time |
| Simulations.ObserveAt | rust/src/simulation.rs:231-262 | the observation of the composite profile at `t` |

## Left out

- **Floating point.** Arithmetic is over `real`. The following are not
  modelled:
  - IEEE rounding, infinities and NaN;
  - the values of `sqrt`, `sin`, `cos` and `atan` beyond the `Lawful` facts;
    they are otherwise uninterpreted.

  Where the source divides zero by zero or otherwise makes NaN, the model
  chooses the outcome the NaN leads to:
  - in the bounding-shape basis, an invisible shape;
  - in `atan(0/0)`, 0.

  For `linspace` with `len == 1` the source's step is `(stop - start) / 0`,
  infinite or NaN, so its single value is NaN. The model's step is 0, so it
  yields `start` where the source yields NaN.
- **Planck band integral, `fit_rv` and the bisector's GSL cubic splines.** These
  are code outside this model and are parameters (`band`, `fitRv`, `eval`). The
  model assumes the band integral at the star's temperature is not zero, and
  that the quiet flux is not zero. The source divides by both.
- **Random number generator and the samplers.** These are a finite sequence of
  draws, already sampled.
  - The LogNormal(0.5, 4), Uniform(-30, 30) and Uniform(0, 360) distributions
    are not modelled.
  - The source's `find(...).unwrap()` loops forever over an endless generator.
    The model stops when the draws run out, which also gives
    `check_fill_factor` a termination measure.
- **Simulations.Simulation.CheckFillFactor:** it does not promise that the
  target coverage is reached. It promises only that the target is reached or the
  draws ran out. The source has no bound on its retries and may not terminate.
- **Simulations.Simulation.ObserveFlux:** it uses the corrected per-time value.
  The value as written is `Simulations.FluxAtAsWritten`; see Findings.
- **Simulations.FluxAtTime:** it computes the corrected per-time brightness
  that the Findings row for rust/src/simulation.rs:208-212 proposes. It takes
  away only the spots alive at `t`, where rust/src/simulation.rs:210 takes away
  `get_flux` of every spot.
- **Simulations.SumAliveFluxes:** it computes the corrected sum that the Findings
  row for rust/src/simulation.rs:208-212 proposes. It adds only the spots alive
  at `t`, where rust/src/simulation.rs:210 adds every spot.
- **Simulations.AliveFlux:** it computes the corrected per-spot term that the
  Findings row for rust/src/simulation.rs:208-212 proposes. It is 0 for a spot
  not alive at `t`, where rust/src/simulation.rs:210 counts that spot's `get_flux`.
- **Simulations.FluxesAt:** it computes the corrected series that the Findings
  row for rust/src/simulation.rs:208-212 proposes. Each entry takes away only the
  spots alive at that time, where rust/src/simulation.rs:210 takes away every spot.
- **Bisectors.BisectorOf:** the two wings' splines are the parameter `eval`.
  The model requires `rv` and the profile to have equal lengths, which the
  source assumes when it indexes both with the same ranges. Spline construction
  and initialisation are modelled only by their preconditions: a wing with fewer
  than three points makes `Spline::new(...).unwrap()` panic, and depths that do
  not rise strictly make GSL's `init` fail. The source ignores the value `init`
  returns; the model treats both failures as no bisector (`None`).
- **Spots.FillFactor:** its own contract states only non-negativity. The
  relation `radius²/2 == fill_factor` is stated by `Spots.FromConfig`.
- **Shapes.YBounds:** the `x` values the source forms from the `y` parts of `a`
  and `b` (rust/src/boundingshape.rs:114-117) are modelled as written. Nothing is
  proved about when both are negative and the bounds are dropped.
  `Shapes.YBoundsExtent` assumes the half-angle identities (`HalfAngleLawful`).
- **Shapes.New:** it builds the shape on the corrected basis (see Findings). The
  source's basis differs where the circle's centre has `y < 0`, and so does its
  `visible` flag. `Shapes.NewVisibleAsWritten` proves the source's flag implies
  the model's and equals it for `y >= 0`. `Shapes.VisibleAsWrittenExample` is a
  circle the model counts as visible and the source does not. The difference
  reaches `get_flux`, `get_ccf`, `observe_flux` and `observe_rv`
  (`SpotSweeps.FluxOf`, `SpotSweeps.CcfOf` and the methods built on them): they
  take flux from spots the source treats as hidden. Where `abs(cc.y) == abs(cc.z)`
  and `cc.y < 0`, the source's `b.x` is 0 and its extreme angles are NaN; the
  model has no such case.
- **Shapes.NewGeometry:** its orthogonality and facing facts are about the
  corrected basis. The basis the source builds is not perpendicular to the
  circle's axis where `cc.y < 0` and `cc.z != 0` (`Shapes.BasisAsWrittenSkewed`).
- **A period and grid size of zero.** Spots are placed only on stars with a
  nonzero period and a positive grid size (`SpotSweeps.Placeable`). The source
  would divide by zero.
- **Concurrency.** `par_iter` in `observe_flux` and `observe_rv` is modelled as
  a sequential loop. The RNG lock and the star's image-cache mutex are left
  out.
- **Image drawing.** `draw_bgr` and `draw_rgba` pixel writes are left out, and
  so is the image cache. Only the colour lookup is modelled (`Stars.Color`).
- **Configuration and construction.** The following are left out:
  - TOML/INI loading (`Simulation::from_config`, `Simulation::sun`);
  - the build-time generation of the reference profiles;
  - the C and Python bindings.

  `Simulations.Simulation.constructor` starts a simulation without spots from a
  given star.
- **The simd builds of `Profile::new` and `shift_into`.** These are left out.
  That build pads with `0.0` where the scalar build uses `ccf[0]`.
- **Debug builds.** In a debug build `shift_into` panics on the `ccf.len() -
  quotient` underflow. The model follows the release build.
- **rust/src/resolution.rs, planck.rs, fit_rv.rs and distributions.rs.** These
  files are not part of this model.

## Findings

| source | as written | input that shows it | evidently intended | confidence | as-written member | corrected member |
|---|---|---|---|---|---|---|
| rust/src/point.rs:13 | the new `y` of `rotated_x` is `y sin(a) - z sin(a)` | `(0, 1, 0)` turned by 0 gives `(0, 0, 0)` | `y cos(a) - z sin(a)`, a rotation that keeps length and is the identity at 0 | not executed; high | Points.RotatedXAsWritten, Points.RotatedXAsWrittenCollapses | Points.RotatedX, Points.RotationKeepsNorm, Points.RotationInverse |
| rust/src/boundingshape.rs:55-60 | `a.z = sqrt(1 - a.y²)`, always non-negative | circle centre `(0.8, -0.3, 0.4)`: `a = (0, -0.8, 0.6)`, dot product 0.48 with the axis | `a = (0, -cc.z, cc.y) / sqrt(cc.y² + cc.z²)`, perpendicular to the circle's axis | not executed; high | Shapes.BasisAsWritten, Shapes.BasisAsWrittenSkewed, Shapes.BasisAsWrittenExample, Shapes.NewVisibleAsWritten, Shapes.VisibleAsWrittenExample | Shapes.Basis, Shapes.BasisOrthogonal, Shapes.NewGeometry |
| rust/src/simulation.rs:208-212 | the per-time flux subtracts `get_flux` of every spot, alive or not | one spot with lifetime `[0, 15]` observed at time 20, where its radius is full again (`Shapes.GrowthRadiusOutsideLifetime`): brightness differs from 1 with no spot alive. A visible spot at full radius with intensity other than 1 has nonzero `get_flux`, the `f != 0` that `FluxAtAsWrittenCountsDeadSpots` takes | subtract only the spots alive at `t`, as `observe_rv` does at rust/src/simulation.rs:233 | not executed; medium | Simulations.FluxAtAsWritten, Simulations.FluxAtAsWrittenCountsDeadSpots | Simulations.FluxAt, Simulations.FluxAtWithoutAliveSpots, Simulations.DeadSpotFlux, Simulations.FluxAtTime, Simulations.SumAliveFluxes, Simulations.AliveFlux, Simulations.FluxesAt |
