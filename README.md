# Bubble simulation model: curve evaluators and the intersection finder

This project models `simulate_model.js`, the numerical core of a market
bubble simulation. The simulation describes a buyer and a seller by Gumbel
distributions. Each distribution's location `q` is built from three terms:

- a risk term on the gap between price and underlying value;
- a momentum term on the last price change;
- an underlying-value term on the last change of the underlying series.

The file tabulates normal and Gumbel densities and Gumbel CDFs over a
discretised domain `[xmin, xmax)`. It draws samples from a curve and
accumulates a curve into running sums. It also finds the domain point where
the buyer's survival curve `1 - CDF` comes closest to the seller's CDF.

The model works over exact `real` numbers.

- `Math.exp`, `Math.sqrt` and `Math.PI` are parameters (`exp`, `sqrt`, `pi`).
- The facts the proofs need about `exp` are in the predicate
  `RealMath.ExpLike`: `exp` is positive, non-decreasing, and `exp(0) == 1`.
  The facts about `sqrt` are in `RealMath.SqrtLike`: it is positive on
  positive arguments.
- The values `Math.random()` returns are the parameter `draws`.
- A JavaScript `TypeError` from reading `.y` of a missing series entry is the
  `Err(IndexOutOfRange)` case of `Curves.Result`.

Each closure that `normal_pdf`, `gumbel_pdf` and `gumbel_cdf` return becomes a
datatype holding the values the closure captured:

- `Evaluators.NormalPdf` holds the mean, coefficient and denominator.
- `Evaluators.Gumbel` holds `q` and `delta`.

Calling the closure is an `Evaluate*` method. Each one runs the shared domain
loop, `Discretisation.Tabulate`, which follows the source's
`for (i = xmin; i < xmax; i += increments)` and pushes one point per step. The
loop is proved to visit exactly the points of `Discretisation.Domain`.

`find_intersect` is the method `Intersect.FindIntersect`. It recomputes both
locations on every step, as the source does. Its result is proved equal to the
function `Intersect.Intersection`, which computes each `q` once and folds a
probe sequence with the same strict `<` update.

The modules are:

- `Curves`: points and results.
- `RealMath`: assumptions on `exp` and `sqrt`, and `Abs`.
- `Rounding`: 4-decimal rounding.
- `Discretisation`: the domain loop.
- `Location`: `risk`, `momentum`, `underlying` and `q`.
- `Evaluators`: the three curve builders.
- `Sampling`: `sample` and `accumulate`.
- `Intersect`: `find_intersect`.

The local variable `u` of `gumbel_pdf` and `gumbel_cdf` (lines 58 and 78)
re-uses the parameter's name. `underlying(u, tick, gamma)` reads the series
before the assignment overwrites it. The model therefore passes the series and
keeps the term as a separate value.

## Model

| member | source | states |
|---|---|---|
| Rounding.Round4 | simulate_model.js:88 | `Math.round(v*10000)/10000` gives a multiple of 1/10000. The result is within 1/20000 of `v` and stays in [0, 1] when `v` does. |
| Rounding.Round4Monotone | simulate_model.js:88 | Rounding to 4 decimals never reverses the order of two values. |
| Rounding.Round4Idempotent | simulate_model.js:88 | Rounding an already rounded value changes nothing. |
| Discretisation.Domain | simulate_model.js:8-10 | The points the loop visits: `samples` of them, starting at `xmin`, when `xmin < xmax`, and none otherwise. |
| Discretisation.LoopVisitsDomain | simulate_model.js:8-10 | The loop variable starts at `xmin`. Each `i += increments` moves from the k-th domain point to the (k+1)-th. The test `i < xmax` holds exactly while `k` is below the domain length. |
| Discretisation.DomainOrdered | simulate_model.js:10 | Domain points `j < k` are `(k - j)` increments apart, so the earlier one is smaller. |
| Discretisation.DomainShape | simulate_model.js:8-10 | With `samples > 0` the domain has `samples` points when `xmin < xmax` and none otherwise. It starts at `xmin` with spacing `(xmax - xmin)/samples`, is strictly increasing, and lies in `[xmin, xmax)`. |
| Discretisation.StandardGrid | simulate_model.js:8-10 | The domain of `(-3, 3, 6)` is `-3, -2, -1, 0, 1, 2`. |
| Discretisation.Tabulate | simulate_model.js:6-14 | The loop of each `pdf_func`/`cdf_func` pushes one point per domain point, in order. Each point's `y` is the shape function at that `x` alone. |
| Location.Risk | simulate_model.js:42-44 | `risk` is 0 when `alpha` is 0. Otherwise it has the opposite sign of `alpha`, because `exp` is positive. |
| Location.Momentum | simulate_model.js:46-48 | `momentum` is 0 when `beta` is 0 or the last two prices are equal. It is non-negative when `beta >= 0` and the price did not fall. |
| Location.Underlying | simulate_model.js:50-52 | `underlying` is 0 when `gamma` is 0 or the underlying value did not move. It is non-negative when `gamma >= 0` and the value did not fall. |
| Location.LocationParameter | simulate_model.js:56-59 | `q = r + m + u`. With `alpha == 0` it is the momentum plus the underlying term. A positive `alpha` puts it strictly below that sum, and a negative `alpha` strictly above. |
| Location.LocationZeroWeights | simulate_model.js:56-59 | With `alpha = beta = gamma = 0`, `q = r + m + u` is 0 whatever the series hold. |
| Location.LocationFrame | simulate_model.js:76-79 | `q` depends only on `p[tick-2]`, `p[tick-1]`, `u[tick-1]` and `u[tick]`. Series that agree there give the same `q`. |
| Evaluators.MakeNormalPdf | simulate_model.js:2-4 | `normal_pdf` keeps the mean. Its coefficient is the reciprocal of `sqrt(variance) * sqrt(2 pi)`, and both captured constants are positive. |
| Evaluators.NormalDensity | simulate_model.js:11 | The density `coeff * exp(-(x - mean)^2 / denom)` at one point. It is positive exactly when the coefficient is. |
| Evaluators.NormalPeak | simulate_model.js:11 | The normal density is positive and at most its value at the mean, which equals the coefficient. |
| Evaluators.NormalSymmetric | simulate_model.js:11 | The normal density takes the same value at `mean + t` and `mean - t`. |
| Evaluators.EvaluateNormalPdf | simulate_model.js:6-14 | `pdf_func` of `normal_pdf` gives one point per domain point holding the density there. Every `y` lies in `(0, coeff]`. |
| Evaluators.MakeGumbel | simulate_model.js:54-59 | Building a Gumbel evaluator succeeds exactly when `tick >= 2`, `tick` is at most the length of `p` and `tick` is below the length of `u`. Otherwise reading a missing entry fails. On success it captures `q = risk + momentum + underlying` and the party's `delta`. |
| Evaluators.GumbelDensity | simulate_model.js:66-67 | The Gumbel density at one point. It is positive exactly when `delta` is. |
| Evaluators.GumbelCdf | simulate_model.js:86-88 | The CDF value the source reports: a multiple of 1/10000 within 1/20000 of the exact `exp(-exp(-z))`. |
| Evaluators.GumbelDensitySign | simulate_model.js:66-67 | The Gumbel density `(1/delta) exp(-(z + exp(-z)))` has the sign of `delta`. |
| Evaluators.GumbelCdfBounds | simulate_model.js:86-88 | The exact CDF `exp(-exp(-z))` lies in (0, 1]. The reported value is a multiple of 1/10000 in [0, 1], within 1/20000 of the exact value. |
| Evaluators.GumbelCdfAtLocation | simulate_model.js:86-87 | At `x == q` the exact CDF is `exp(-1)` for any `delta`. |
| Evaluators.GumbelCdfMonotone | simulate_model.js:86-88 | With `delta > 0` the reported CDF never decreases in `x`. |
| Evaluators.EvaluateGumbelPdf | simulate_model.js:61-71 | `pdf_func` of `gumbel_pdf` gives one point per domain point holding the density there. Every `y` is positive when `delta > 0`. |
| Evaluators.EvaluateGumbelCdf | simulate_model.js:81-92 | `cdf_func` of `gumbel_cdf` gives one point per domain point holding the rounded CDF there. Every `y` is in [0, 1]. With `delta > 0` the `y` values never decrease along the curve. |
| Sampling.DrawIndex | simulate_model.js:22 | `Math.floor(draw * dist.length)` for a draw in [0, 1) is an index in `[0, dist.length)`. |
| Sampling.Sample | simulate_model.js:19-25 | `sample` returns exactly `size` points, or none for a non-positive size. The j-th point is the entry of `dist` that the j-th draw selects, so it is an element of `dist`. |
| Sampling.PrefixSumStep | simulate_model.js:35 | Extending a prefix by one point adds that point's `y` to the prefix sum. |
| Sampling.Accumulated | simulate_model.js:29-38 | The result of `accumulate` has the input's length and keeps point 0 unchanged. Every later point `i` has `x == i` and `y == data[0].y + ... + data[i].y`. |
| Sampling.AccumulatedStep | simulate_model.js:33-35 | Each accumulated `y` is the previous accumulated `y` plus the input's `y` at that position. |
| Sampling.AccumulatedTotal | simulate_model.js:29-38 | The last accumulated `y` is the sum of all input `y` values. |
| Sampling.AccumulatedMonotone | simulate_model.js:29-38 | Accumulating non-negative values gives a curve whose `y` never decreases. |
| Sampling.Accumulate | simulate_model.js:29-38 | The loop that pushes `current.y + prev.y`, reading back its own last point, returns exactly the prefix-sum curve. |
| RealMath.Abs | simulate_model.js:139 | `Math.abs`: a non-negative value equal to `x` or to `-x`. |
| Intersect.Gap | simulate_model.js:139 | The distance between the buyer's `1 - CDF` and the seller's CDF at `x`. It is non-negative, and it is 0 exactly where the two curves meet. |
| Intersect.GapAtMostOne | simulate_model.js:139 | With CDFs in [0, 1], the absolute difference of `1 - b` and `s` is at most 1, below the sentinel 5000. |
| Intersect.Probes | simulate_model.js:117-139 | There is one probe per domain point. |
| Intersect.Keep | simulate_model.js:140-144 | One update of the accumulators. It keeps one of its two probes, whose distance is at most both, and keeps the earlier probe on a tie. |
| Intersect.Scan | simulate_model.js:109-145 | The accumulators after the loop. Their distance is at most the sentinel's and at most every probe's, and strictly below the sentinel's once the sentinel has been replaced. |
| Intersect.ScanFindsFirstArgmin | simulate_model.js:109-144 | The scan with sentinel `(5000, -1, -1)` and strict `<` keeps the sentinel when no distance is below 5000. Otherwise it ends on the first probe of smallest distance. |
| Intersect.Intersection | simulate_model.js:96-148 | An empty domain returns `(-1, -1)`. The result is an error exactly when the domain is non-empty and a series entry the location needs is missing. |
| Intersect.ScanClosest | simulate_model.js:117-145 | Over points whose first distance is below the sentinel, the scan returns a point `x` and the seller's CDF there. No point is closer, and every earlier point is strictly farther. |
| Intersect.IntersectionFound | simulate_model.js:117-147 | Over a non-empty domain with readable series, `find_intersect` returns a domain point and the seller's rounded CDF there. Its distance is at most every point's and below every earlier point's. |
| Intersect.EmptyDomainNotFound | simulate_model.js:109-147 | Whenever `xmin >= xmax`, the result is `(-1, -1)` for any series, tick and weights, so none of them is read. |
| Intersect.IntersectionCases | simulate_model.js:96-148 | `Intersection`'s three cases, in terms of the probes with `q` computed once per party: empty domain, missing entry, and the scanned result. |
| Intersect.ProbeOfHoisted | simulate_model.js:119-139 | The probe computed with `q` recomputed inside the loop equals the probe with `q` computed once, because `q` never depends on `i`. |
| Intersect.FindIntersect | simulate_model.js:96-148 | The loop, recomputing `q` on every step, returns the same result as the hoisted specification `Intersection`. |

## Left out

- Floating point is not modelled. This covers rounding of `+`, `*` and `/`; `Infinity` and `NaN` (for example `delta == 0`); the drift of `i += increments`, which can add or drop a domain point; and the floating-point results of `Math.exp`, `Math.sqrt` and `Math.PI`. The model uses exact reals and the abstract `exp`, `sqrt` and `pi` parameters.
- The evaluators and the finder require `delta != 0`, and `MakeNormalPdf` requires `variance > 0`. The source would produce `Infinity` or `NaN` there.
- `Intersect.FindIntersect` and `Intersect.Intersection` also require `delta != 0` when `xmin < xmax`.
- `Math.random()` is not modelled as a distribution. The draws are a parameter in [0, 1), so `Sampling.Sample` holds for any outcome.
- `samples` must be a positive integer. In the source, `samples == 0` with `xmin < xmax` makes one point at `xmin`. A negative `samples` with `xmin < xmax` never ends; with `xmin >= xmax` the loop test fails at once and the curve is empty. A fractional `samples` changes the number of points.
- `Sampling.Sample` takes an integer `size`. In the source, a fractional `size` draws `ceil(size)` points, because the loop test `i < size` compares an integer counter with it.
- `Sampling.Accumulate` and `Sampling.Accumulated` require a non-empty input. The source returns `[undefined]` for an empty one.
- `Sampling.Sample` requires a non-empty `dist` when `size > 0`. The source pushes `undefined` entries there.
- A non-integer `tick` is not modelled. The source would read `undefined`.
- The implicit global `result` that each `pdf_func`/`cdf_func` writes is not modelled; each call returns its own curve.
- The variables `b_ratio_last` and `s_ratio_last` in `find_intersect` are never read and are not modelled.
- A missing series entry makes the source throw a `TypeError`. `gumbel_pdf` and `gumbel_cdf` throw it when the closure is built, and `find_intersect` throws it on its first step. The model returns `Err(IndexOutOfRange)` at the same points instead: from `Evaluators.MakeGumbel`, and from `Intersect.FindIntersect` before its first probe.
- The Gumbel PDF is not proved to be the derivative of the CDF, and neither density is proved unimodal. This needs real analysis beyond the `ExpLike` assumptions.
- Evaluators.EvaluateGumbelPdf, Evaluators.EvaluateGumbelCdf, Evaluators.GumbelCdfBounds, Evaluators.GumbelCdfMonotone, Evaluators.NormalPeak, Intersect.GapAtMostOne, Intersect.IntersectionFound: their range facts hold for any `exp` that is positive, non-decreasing and maps 0 to 1 (`RealMath.ExpLike`). They are not proved for the floating-point `Math.exp`.
