/** The three curve evaluators. Each source constructor returns a closure over
    parameters it computes once; here that frozen state is a datatype, and
    evaluating it over `[xmin, xmax)` runs the shared domain loop. */
module Evaluators {
  import opened Curves
  import opened RealMath
  import opened Rounding
  import opened Discretisation
  import opened Location

  // ---------------------------------------------------------------- normal

  /** What `normal_pdf(mean, variance)` captures: the mean, the coefficient
      `1 / (sqrt(variance) * sqrt(2 pi))` and the denominator `2 variance`. */
  datatype NormalPdf = NormalPdf(mean: real, coeff: real, denom: real)

  /** Builds the normal evaluator; for a positive variance both precomputed
      constants are positive. */
  function MakeNormalPdf(mean: real, variance: real, sqrt: real -> real, pi: real): (d: NormalPdf)
    requires 0.0 < variance && 0.0 < pi
    requires SqrtLike(sqrt)
    ensures d.mean == mean
    ensures 0.0 < d.coeff && 0.0 < d.denom
    ensures d.coeff * (sqrt(variance) * sqrt(2.0 * pi)) == 1.0
  {
    NormalPdf(mean, 1.0 / (sqrt(variance) * sqrt(2.0 * pi)), 2.0 * variance)
  }

  /** The exponent of the density: `-(x - mean)^2 / denom`. */
  function NormalExponent(d: NormalPdf, x: real): real
    requires d.denom != 0.0
  {
    -((x - d.mean) * (x - d.mean)) / d.denom
  }

  /** The density at one point: `coeff * exp(-(x - mean)^2 / denom)`. */
  function NormalDensity(d: NormalPdf, exp: real -> real, x: real): (r: real)
    requires d.denom != 0.0
    ensures ExpLike(exp) ==> (0.0 < r <==> 0.0 < d.coeff)
  {
    d.coeff * exp(NormalExponent(d, x))
  }

  /** The density is positive and peaks at the mean, where it equals the coefficient. */
  lemma NormalPeak(d: NormalPdf, exp: real -> real, x: real)
    requires ExpLike(exp)
    requires 0.0 < d.coeff && 0.0 < d.denom
    ensures 0.0 < NormalDensity(d, exp, x) <= NormalDensity(d, exp, d.mean) == d.coeff
  {
    var w := NormalExponent(d, x);
    assert w <= 0.0 by {
      assert 0.0 <= (x - d.mean) * (x - d.mean);
    }
    assert NormalExponent(d, d.mean) == 0.0;
    var e := exp(w);
    assert 0.0 < e <= exp(0.0) == 1.0;
    assert d.coeff * e <= d.coeff by {
      assert 0.0 <= d.coeff * (1.0 - e);
    }
    assert 0.0 < d.coeff * e;
  }

  /** The density is symmetric about the mean. */
  lemma NormalSymmetric(d: NormalPdf, exp: real -> real, t: real)
    requires d.denom != 0.0
    ensures NormalDensity(d, exp, d.mean + t) == NormalDensity(d, exp, d.mean - t)
  {
    assert (d.mean + t - d.mean) * (d.mean + t - d.mean) == (d.mean - t - d.mean) * (d.mean - t - d.mean);
    assert NormalExponent(d, d.mean + t) == NormalExponent(d, d.mean - t);
  }

  /** `pdf_func(xmin, xmax, samples)` of `normal_pdf`: one point per domain
      point, each holding the density there, all positive. */
  method EvaluateNormalPdf(d: NormalPdf, exp: real -> real, xmin: real, xmax: real, samples: int)
    returns (curve: seq<Point>)
    requires 0 < samples
    requires 0.0 < d.denom
    ensures |curve| == |Domain(xmin, xmax, samples)|
    ensures forall k :: 0 <= k < |curve| ==>
              curve[k] == Point(Domain(xmin, xmax, samples)[k], NormalDensity(d, exp, Domain(xmin, xmax, samples)[k]))
    ensures ExpLike(exp) && 0.0 < d.coeff ==> forall k :: 0 <= k < |curve| ==> 0.0 < curve[k].y <= d.coeff
  {
    curve := Tabulate(x => NormalDensity(d, exp, x), xmin, xmax, samples);
    if ExpLike(exp) && 0.0 < d.coeff {
      forall k | 0 <= k < |curve|
        ensures 0.0 < curve[k].y <= d.coeff
      {
        NormalPeak(d, exp, curve[k].x);
      }
    }
  }

  // ---------------------------------------------------------------- Gumbel

  /** What `gumbel_pdf` and `gumbel_cdf` capture: the location `q`, computed
      once when the evaluator is built, and the scale `delta`. */
  datatype Gumbel = Gumbel(q: real, delta: real)

  /** Builds a Gumbel evaluator from the series at `tick`. Computing `q` reads
      `p[tick-2]`, `p[tick-1]`, `u[tick-1]` and `u[tick]`, so building fails
      exactly when one of them is missing; otherwise the evaluator carries that
      `q` and the party's own scale. */
  function MakeGumbel(u: seq<Point>, p: seq<Point>, tick: int, w: Params, exp: real -> real): (g: Result<Gumbel>)
    ensures g.Ok? <==> LocationDefined(u, p, tick)
    ensures g.Ok? ==> g.value.q == LocationParameter(u, p, tick, w, exp) && g.value.delta == w.delta
  {
    if LocationDefined(u, p, tick) then Ok(Gumbel(LocationParameter(u, p, tick, w, exp), w.delta))
    else Err(IndexOutOfRange)
  }

  /** The standardised distance `z = (x - q) / delta`. */
  function Standardise(g: Gumbel, x: real): real
    requires g.delta != 0.0
  {
    (x - g.q) / g.delta
  }

  /** The Gumbel density at one point: `(1 / delta) * exp(-(z + exp(-z)))`. */
  function GumbelDensity(g: Gumbel, exp: real -> real, x: real): (r: real)
    requires g.delta != 0.0
    ensures ExpLike(exp) ==> (0.0 < r <==> 0.0 < g.delta)
  {
    var z := Standardise(g, x);
    (1.0 / g.delta) * exp(-(z + exp(-z)))
  }

  /** The Gumbel CDF at one point before rounding: `exp(-exp(-z))`. */
  function GumbelCdfExact(g: Gumbel, exp: real -> real, x: real): real
    requires g.delta != 0.0
  {
    exp(-exp(-Standardise(g, x)))
  }

  /** The CDF value the source reports: the exact value rounded to four decimals. */
  function GumbelCdf(g: Gumbel, exp: real -> real, x: real): (r: real)
    requires g.delta != 0.0
    ensures (r * 10000.0).Floor as real == r * 10000.0
    ensures GumbelCdfExact(g, exp, x) - 1.0 / 20000.0 < r <= GumbelCdfExact(g, exp, x) + 1.0 / 20000.0
  {
    Round4(GumbelCdfExact(g, exp, x))
  }

  /** The density has the sign of the scale. */
  lemma GumbelDensitySign(g: Gumbel, exp: real -> real, x: real)
    requires ExpLike(exp)
    requires g.delta != 0.0
    ensures 0.0 < g.delta ==> 0.0 < GumbelDensity(g, exp, x)
    ensures g.delta < 0.0 ==> GumbelDensity(g, exp, x) < 0.0
  {
    var z := Standardise(g, x);
    assert 0.0 < exp(-(z + exp(-z)));
  }

  /** The exact CDF lies in (0, 1]; the reported value is a multiple of
      1/10000 in [0, 1] within 1/20000 of it. */
  lemma GumbelCdfBounds(g: Gumbel, exp: real -> real, x: real)
    requires ExpLike(exp)
    requires g.delta != 0.0
    ensures 0.0 < GumbelCdfExact(g, exp, x) <= 1.0
    ensures 0.0 <= GumbelCdf(g, exp, x) <= 1.0
    ensures (GumbelCdf(g, exp, x) * 10000.0).Floor as real == GumbelCdf(g, exp, x) * 10000.0
    ensures GumbelCdfExact(g, exp, x) - 1.0 / 20000.0 < GumbelCdf(g, exp, x) <= GumbelCdfExact(g, exp, x) + 1.0 / 20000.0
  {
    var z := Standardise(g, x);
    assert 0.0 < exp(-z);
    assert exp(-exp(-z)) <= exp(0.0);
  }

  /** At `x == q` the exact CDF is `exp(-1)`, whatever the scale. */
  lemma GumbelCdfAtLocation(g: Gumbel, exp: real -> real)
    requires ExpLike(exp)
    requires g.delta != 0.0
    ensures GumbelCdfExact(g, exp, g.q) == exp(-1.0)
  {
    assert Standardise(g, g.q) == 0.0;
  }

  /** With a positive scale the reported CDF never decreases in `x`. */
  lemma GumbelCdfMonotone(g: Gumbel, exp: real -> real, x: real, x': real)
    requires ExpLike(exp)
    requires 0.0 < g.delta
    requires x <= x'
    ensures GumbelCdf(g, exp, x) <= GumbelCdf(g, exp, x')
  {
    var z, z' := Standardise(g, x), Standardise(g, x');
    assert z' - z == (x' - x) / g.delta;
    assert z <= z';
    assert exp(-z') <= exp(-z);
    assert exp(-exp(-z)) <= exp(-exp(-z'));
    Round4Monotone(GumbelCdfExact(g, exp, x), GumbelCdfExact(g, exp, x'));
  }

  /** `pdf_func(xmin, xmax, samples)` of `gumbel_pdf`: one point per domain
      point, each holding the density there with the sign of the scale. */
  method EvaluateGumbelPdf(g: Gumbel, exp: real -> real, xmin: real, xmax: real, samples: int)
    returns (curve: seq<Point>)
    requires 0 < samples
    requires g.delta != 0.0
    ensures |curve| == |Domain(xmin, xmax, samples)|
    ensures forall k :: 0 <= k < |curve| ==>
              curve[k] == Point(Domain(xmin, xmax, samples)[k], GumbelDensity(g, exp, Domain(xmin, xmax, samples)[k]))
    ensures ExpLike(exp) && 0.0 < g.delta ==> forall k :: 0 <= k < |curve| ==> 0.0 < curve[k].y
  {
    curve := Tabulate(x => GumbelDensity(g, exp, x), xmin, xmax, samples);
    if ExpLike(exp) && 0.0 < g.delta {
      forall k | 0 <= k < |curve|
        ensures 0.0 < curve[k].y
      {
        GumbelDensitySign(g, exp, curve[k].x);
      }
    }
  }

  /** `cdf_func(xmin, xmax, samples)` of `gumbel_cdf`: one point per domain
      point holding the rounded CDF there; the values lie in [0, 1] and, with a
      positive scale, never decrease along the curve. */
  method EvaluateGumbelCdf(g: Gumbel, exp: real -> real, xmin: real, xmax: real, samples: int)
    returns (curve: seq<Point>)
    requires 0 < samples
    requires g.delta != 0.0
    ensures |curve| == |Domain(xmin, xmax, samples)|
    ensures forall k :: 0 <= k < |curve| ==>
              curve[k] == Point(Domain(xmin, xmax, samples)[k], GumbelCdf(g, exp, Domain(xmin, xmax, samples)[k]))
    ensures ExpLike(exp) ==> forall k :: 0 <= k < |curve| ==> 0.0 <= curve[k].y <= 1.0
    ensures ExpLike(exp) && 0.0 < g.delta ==> forall j, k :: 0 <= j < k < |curve| ==> curve[j].y <= curve[k].y
  {
    curve := Tabulate(x => GumbelCdf(g, exp, x), xmin, xmax, samples);
    if ExpLike(exp) {
      forall k | 0 <= k < |curve|
        ensures 0.0 <= curve[k].y <= 1.0
      {
        GumbelCdfBounds(g, exp, curve[k].x);
      }
      if 0.0 < g.delta {
        DomainShape(xmin, xmax, samples);
        forall j, k | 0 <= j < k < |curve|
          ensures curve[j].y <= curve[k].y
        {
          GumbelCdfMonotone(g, exp, curve[j].x, curve[k].x);
        }
      }
    }
  }
}
