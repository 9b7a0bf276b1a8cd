/** The location parameter `q` of a Gumbel curve: risk + momentum + underlying
    drift, read from the series `u` (underlying) and `p` (derived) at one tick. */
module Location {
  import opened Curves
  import opened RealMath

  /** One party's weights: alpha and tau for risk, beta for momentum, gamma for
      the underlying drift, and the Gumbel scale delta. Element order of the
      source's five-element parameter arrays. */
  datatype Params = Params(alpha: real, tau: real, beta: real, gamma: real, delta: real)

  /** Every entry the three terms read exists: `p[tick-1]`, `p[tick-2]`,
      `u[tick-1]` and `u[tick]`. */
  predicate LocationDefined(u: seq<Point>, p: seq<Point>, tick: int) {
    2 <= tick <= |p| && tick < |u|
  }

  /** The exponent of the risk term: tau times the gap between the derived and
      the underlying series at the prior tick. */
  function RiskExponent(u: seq<Point>, p: seq<Point>, tick: int, tau: real): real
    requires 1 <= tick <= |p| && tick <= |u|
  {
    tau * (p[tick - 1].y - u[tick - 1].y)
  }

  /** Risk: `-alpha * exp(tau * (p[tick-1].y - u[tick-1].y))`. As exp is
      positive, its sign is the opposite of alpha's. */
  function Risk(u: seq<Point>, p: seq<Point>, tick: int, alpha: real, tau: real, exp: real -> real): (r: real)
    requires 1 <= tick <= |p| && tick <= |u|
    ensures alpha == 0.0 ==> r == 0.0
    ensures ExpLike(exp) && 0.0 < alpha ==> r < 0.0
    ensures ExpLike(exp) && alpha < 0.0 ==> 0.0 < r
  {
    -alpha * exp(RiskExponent(u, p, tick, tau))
  }

  /** Momentum: beta times the last change of the derived series; a rising
      derived series with a non-negative weight never lowers `q`. */
  function Momentum(u: seq<Point>, p: seq<Point>, tick: int, beta: real): (r: real)
    requires 2 <= tick <= |p|
    ensures beta == 0.0 || p[tick - 1].y == p[tick - 2].y ==> r == 0.0
    ensures 0.0 <= beta && p[tick - 2].y <= p[tick - 1].y ==> 0.0 <= r
  {
    beta * (p[tick - 1].y - p[tick - 2].y)
  }

  /** Underlying drift: gamma times the change of `u` INTO the tick
      (`u[tick] - u[tick-1]`, one entry later than the risk term reads). */
  function Underlying(u: seq<Point>, tick: int, gamma: real): (r: real)
    requires 1 <= tick < |u|
    ensures gamma == 0.0 || u[tick].y == u[tick - 1].y ==> r == 0.0
    ensures 0.0 <= gamma && u[tick - 1].y <= u[tick].y ==> 0.0 <= r
  {
    gamma * (u[tick].y - u[tick - 1].y)
  }

  /** `q = risk + momentum + underlying`, each term with its own weights. The
      risk term moves `q` away from the trend terms: down for a positive
      `alpha`, up for a negative one, not at all for `alpha == 0`. */
  function LocationParameter(u: seq<Point>, p: seq<Point>, tick: int, w: Params, exp: real -> real): (q: real)
    requires LocationDefined(u, p, tick)
    ensures w.alpha == 0.0 ==> q == Momentum(u, p, tick, w.beta) + Underlying(u, tick, w.gamma)
    ensures ExpLike(exp) && 0.0 < w.alpha ==> q < Momentum(u, p, tick, w.beta) + Underlying(u, tick, w.gamma)
    ensures ExpLike(exp) && w.alpha < 0.0 ==> q > Momentum(u, p, tick, w.beta) + Underlying(u, tick, w.gamma)
  {
    Risk(u, p, tick, w.alpha, w.tau, exp) + Momentum(u, p, tick, w.beta) + Underlying(u, tick, w.gamma)
  }

  /** With all three weights zero, `q` is zero whatever the series hold. */
  lemma LocationZeroWeights(u: seq<Point>, p: seq<Point>, tick: int, w: Params, exp: real -> real)
    requires LocationDefined(u, p, tick)
    requires w.alpha == 0.0 && w.beta == 0.0 && w.gamma == 0.0
    ensures LocationParameter(u, p, tick, w, exp) == 0.0
  {
  }

  /** `q` reads nothing but `p[tick-2]`, `p[tick-1]`, `u[tick-1]` and `u[tick]`:
      two pairs of series that agree there give the same `q`. */
  lemma LocationFrame(u: seq<Point>, p: seq<Point>, u': seq<Point>, p': seq<Point>, tick: int,
                      w: Params, exp: real -> real)
    requires LocationDefined(u, p, tick) && LocationDefined(u', p', tick)
    requires p[tick - 2].y == p'[tick - 2].y && p[tick - 1].y == p'[tick - 1].y
    requires u[tick - 1].y == u'[tick - 1].y && u[tick].y == u'[tick].y
    ensures LocationParameter(u, p, tick, w, exp) == LocationParameter(u', p', tick, w, exp)
  {
    assert RiskExponent(u, p, tick, w.tau) == RiskExponent(u', p', tick, w.tau);
  }
}
