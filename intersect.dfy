/** The intersection finder: a linear scan of the shared domain for the point
    where the buyer's survival curve `1 - CDF` comes closest to the seller's CDF. */
module Intersect {
  import opened Curves
  import opened RealMath
  import opened Rounding
  import opened Discretisation
  import opened Location
  import opened Evaluators

  /** A probe of one domain point: the distance there, the point's `x` and the
      seller's CDF there. The scan's accumulators `mindist`, `minindex` and
      `ratio` hold one probe: the best seen so far. */
  datatype Probe = Probe(dist: real, x: real, ratio: real)

  /** The accumulators before the first point: a distance no CDF gap reaches,
      and -1 for the position and the ratio. */
  const Unset := Probe(5000.0, -1.0, -1.0)

  /** The distance the scan minimises at `x`: `|(1 - buyer CDF) - seller CDF|`,
      both CDFs rounded. */
  function Gap(buyer: Gumbel, seller: Gumbel, exp: real -> real, x: real): (d: real)
    requires buyer.delta != 0.0 && seller.delta != 0.0
    ensures 0.0 <= d
    ensures d == 0.0 <==> 1.0 - GumbelCdf(buyer, exp, x) == GumbelCdf(seller, exp, x)
  {
    Abs((1.0 - GumbelCdf(buyer, exp, x)) - GumbelCdf(seller, exp, x))
  }

  /** With CDFs in [0, 1] the distance is at most 1, far below the sentinel. */
  lemma GapAtMostOne(buyer: Gumbel, seller: Gumbel, exp: real -> real, x: real)
    requires ExpLike(exp)
    requires buyer.delta != 0.0 && seller.delta != 0.0
    ensures 0.0 <= Gap(buyer, seller, exp, x) <= 1.0 < Unset.dist
  {
    GumbelCdfBounds(buyer, exp, x);
    GumbelCdfBounds(seller, exp, x);
  }

  /** The probe of the point `x`. */
  function ProbeAt(buyer: Gumbel, seller: Gumbel, exp: real -> real, x: real): Probe
    requires buyer.delta != 0.0 && seller.delta != 0.0
  {
    Probe(Gap(buyer, seller, exp, x), x, GumbelCdf(seller, exp, x))
  }

  /** The probes of a sequence of points, in order. */
  function Probes(xs: seq<real>, buyer: Gumbel, seller: Gumbel, exp: real -> real): (ps: seq<Probe>)
    requires xs != [] ==> buyer.delta != 0.0 && seller.delta != 0.0
    ensures |ps| == |xs|
  {
    seq(|xs|, k requires 0 <= k < |xs| => ProbeAt(buyer, seller, exp, xs[k]))
  }

  /** One step of the scan: a strictly smaller distance replaces the
      accumulators; on a tie the earlier probe stays. */
  function Keep(best: Probe, next: Probe): (r: Probe)
    ensures r == best || r == next
    ensures r.dist <= best.dist && r.dist <= next.dist
    ensures best.dist <= next.dist ==> r == best
  {
    if next.dist < best.dist then next else best
  }

  /** The accumulators after scanning `ps` from left to right: a distance no
      probe and not the sentinel beats, strictly below the sentinel's once the
      sentinel has been replaced. */
  function Scan(ps: seq<Probe>): (r: Probe)
    ensures r.dist <= Unset.dist
    ensures r != Unset ==> r.dist < Unset.dist
    ensures forall j :: 0 <= j < |ps| ==> r.dist <= ps[j].dist
  {
    if ps == [] then Unset else Keep(Scan(ps[..|ps| - 1]), ps[|ps| - 1])
  }

  /** `k` is the first position of `ps` with the smallest distance, and `best`
      is the probe there. */
  ghost predicate FirstArgmin(ps: seq<Probe>, best: Probe, k: int)
  {
    && 0 <= k < |ps|
    && best == ps[k]
    && (forall j :: 0 <= j < |ps| ==> best.dist <= ps[j].dist)
    && (forall j :: 0 <= j < k ==> best.dist < ps[j].dist)
  }

  /** The scan keeps the sentinel exactly when no distance beats it; otherwise
      it ends on the first probe of smallest distance (the strict `<` lets an
      earlier minimum win a tie). */
  lemma {:induction false} ScanFindsFirstArgmin(ps: seq<Probe>)
    ensures (forall j :: 0 <= j < |ps| ==> Unset.dist <= ps[j].dist) ==> Scan(ps) == Unset
    ensures (exists j :: 0 <= j < |ps| && ps[j].dist < Unset.dist) ==> exists k :: FirstArgmin(ps, Scan(ps), k)
  {
    if ps != [] {
      var n := |ps| - 1;
      var front := ps[..n];
      ScanFindsFirstArgmin(front);
      assert forall j :: 0 <= j < n ==> front[j] == ps[j];
      var prev := Scan(front);
      if exists j :: 0 <= j < n && front[j].dist < Unset.dist {
        var k :| FirstArgmin(front, prev, k);
        if ps[n].dist < prev.dist {
          assert FirstArgmin(ps, Scan(ps), n);
        } else {
          assert FirstArgmin(ps, Scan(ps), k);
        }
      } else if ps[n].dist < Unset.dist {
        assert prev == Unset;
        assert FirstArgmin(ps, Scan(ps), n);
      }
    }
  }

  /** What `find_intersect` returns, with `q` computed once per party by the
      Gumbel evaluator's constructor: `(-1, -1)` over an empty domain,
      the index error when the domain is non-empty but the series are too
      short, and otherwise the position and seller CDF the scan keeps. */
  function Intersection(buyer: Params, seller: Params, u: seq<Point>, p: seq<Point>, tick: int,
                        xmin: real, xmax: real, samples: int, exp: real -> real): (r: Result<(real, real)>)
    requires 0 < samples
    requires xmin < xmax ==> buyer.delta != 0.0 && seller.delta != 0.0
    ensures xmax <= xmin ==> r == Ok((-1.0, -1.0))
    ensures r.Err? <==> xmin < xmax && !LocationDefined(u, p, tick)
  {
    var xs := Domain(xmin, xmax, samples);
    if xs == [] then Ok((-1.0, -1.0))
    else match (MakeGumbel(u, p, tick, buyer, exp), MakeGumbel(u, p, tick, seller, exp))
      case (Ok(b), Ok(s)) =>
        var best := Scan(Probes(xs, b, s, exp));
        Ok((best.x, best.ratio))
      case _ => Err(IndexOutOfRange)
  }

  /** `r` is `(x, seller CDF at x)` for a point `x = xs[k]` of smallest
      distance, and every point before `k` is strictly farther. */
  ghost predicate ClosestPoint(xs: seq<real>, buyer: Gumbel, seller: Gumbel, exp: real -> real, r: (real, real))
    requires buyer.delta != 0.0 && seller.delta != 0.0
  {
    exists k :: 0 <= k < |xs| && r == (xs[k], GumbelCdf(seller, exp, xs[k]))
      && (forall j :: 0 <= j < |xs| ==> Gap(buyer, seller, exp, xs[k]) <= Gap(buyer, seller, exp, xs[j]))
      && (forall j :: 0 <= j < k ==> Gap(buyer, seller, exp, xs[k]) < Gap(buyer, seller, exp, xs[j]))
  }

  /** Over points of which the first lies below the sentinel, the scan ends on
      the first point of smallest distance. */
  lemma ScanClosest(xs: seq<real>, buyer: Gumbel, seller: Gumbel, exp: real -> real)
    requires buyer.delta != 0.0 && seller.delta != 0.0
    requires xs != [] && Gap(buyer, seller, exp, xs[0]) < Unset.dist
    ensures var best := Scan(Probes(xs, buyer, seller, exp));
            ClosestPoint(xs, buyer, seller, exp, (best.x, best.ratio))
  {
    var ps := Probes(xs, buyer, seller, exp);
    assert ps[0].dist < Unset.dist;
    ScanFindsFirstArgmin(ps);
    var k :| FirstArgmin(ps, Scan(ps), k);
    forall j | 0 <= j < |xs|
      ensures ps[j].dist == Gap(buyer, seller, exp, xs[j])
    {
      assert ps[j] == ProbeAt(buyer, seller, exp, xs[j]);
    }
    assert Scan(ps) == ProbeAt(buyer, seller, exp, xs[k]);
    assert (Scan(ps).x, Scan(ps).ratio) == (xs[k], GumbelCdf(seller, exp, xs[k]));
    assert forall j :: 0 <= j < |xs| ==> Gap(buyer, seller, exp, xs[k]) <= Gap(buyer, seller, exp, xs[j]);
    assert forall j :: 0 <= j < k ==> Gap(buyer, seller, exp, xs[k]) < Gap(buyer, seller, exp, xs[j]);
  }

  /** Over a non-empty domain with readable series, the finder returns a domain
      point `x` and the seller's rounded CDF at `x`; no domain point has a
      smaller distance and every earlier point has a larger one. */
  lemma IntersectionFound(buyer: Params, seller: Params, u: seq<Point>, p: seq<Point>, tick: int,
                          xmin: real, xmax: real, samples: int, exp: real -> real)
    requires 0 < samples
    requires ExpLike(exp)
    requires xmin < xmax && LocationDefined(u, p, tick)
    requires buyer.delta != 0.0 && seller.delta != 0.0
    ensures var r := Intersection(buyer, seller, u, p, tick, xmin, xmax, samples, exp);
            && r.Ok?
            && ClosestPoint(Domain(xmin, xmax, samples), MakeGumbel(u, p, tick, buyer, exp).value,
                            MakeGumbel(u, p, tick, seller, exp).value, exp, r.value)
  {
    var xs := Domain(xmin, xmax, samples);
    var b := MakeGumbel(u, p, tick, buyer, exp).value;
    var s := MakeGumbel(u, p, tick, seller, exp).value;
    DomainShape(xmin, xmax, samples);
    GapAtMostOne(b, s, exp, xs[0]);
    ScanClosest(xs, b, s, exp);
    IntersectionCases(buyer, seller, u, p, tick, xmin, xmax, samples, exp);
    assert HoistedProbes(buyer, seller, u, p, tick, xmin, xmax, samples, exp) == Probes(xs, b, s, exp);
  }

  /** Over an empty domain (`xmin >= xmax`) the finder returns `(-1, -1)`
      whatever the series and the weights are: it reads neither. */
  lemma EmptyDomainNotFound(buyer: Params, seller: Params, u: seq<Point>, p: seq<Point>, tick: int,
                            xmin: real, xmax: real, samples: int, exp: real -> real)
    requires 0 < samples && xmax <= xmin
    ensures Intersection(buyer, seller, u, p, tick, xmin, xmax, samples, exp) == Ok((-1.0, -1.0))
  {
  }

  /** The probes of the domain points with `q` hoisted: computed once per
      party by the Gumbel constructor. Empty when there is nothing to probe. */
  ghost function HoistedProbes(buyer: Params, seller: Params, u: seq<Point>, p: seq<Point>, tick: int,
                               xmin: real, xmax: real, samples: int, exp: real -> real): seq<Probe>
    requires 0 < samples
    requires xmin < xmax ==> buyer.delta != 0.0 && seller.delta != 0.0
  {
    var xs := Domain(xmin, xmax, samples);
    if xs != [] && LocationDefined(u, p, tick) then
      Probes(xs, MakeGumbel(u, p, tick, buyer, exp).value, MakeGumbel(u, p, tick, seller, exp).value, exp)
    else []
  }

  /** `Intersection` in terms of the hoisted probes. */
  lemma IntersectionCases(buyer: Params, seller: Params, u: seq<Point>, p: seq<Point>, tick: int,
                          xmin: real, xmax: real, samples: int, exp: real -> real)
    requires 0 < samples
    requires xmin < xmax ==> buyer.delta != 0.0 && seller.delta != 0.0
    ensures var xs := Domain(xmin, xmax, samples);
            var ps := HoistedProbes(buyer, seller, u, p, tick, xmin, xmax, samples, exp);
            Intersection(buyer, seller, u, p, tick, xmin, xmax, samples, exp) ==
              if xs == [] then Ok((-1.0, -1.0))
              else if !LocationDefined(u, p, tick) then Err(IndexOutOfRange)
              else Ok((Scan(ps).x, Scan(ps).ratio))
  {
  }

  /** The `k`-th hoisted probe is what one loop step computes at the `k`-th
      domain point with `q` recomputed there. */
  lemma ProbeOfHoisted(buyer: Params, seller: Params, u: seq<Point>, p: seq<Point>, tick: int,
                       xmin: real, xmax: real, samples: int, exp: real -> real, k: int)
    requires 0 < samples
    requires xmin < xmax ==> buyer.delta != 0.0 && seller.delta != 0.0
    requires LocationDefined(u, p, tick)
    requires 0 <= k < |Domain(xmin, xmax, samples)|
    ensures var x := Domain(xmin, xmax, samples)[k];
            var b := Gumbel(LocationParameter(u, p, tick, buyer, exp), buyer.delta);
            var s := Gumbel(LocationParameter(u, p, tick, seller, exp), seller.delta);
            && |HoistedProbes(buyer, seller, u, p, tick, xmin, xmax, samples, exp)| == |Domain(xmin, xmax, samples)|
            && HoistedProbes(buyer, seller, u, p, tick, xmin, xmax, samples, exp)[k] ==
                 Probe(Abs((1.0 - GumbelCdf(b, exp, x)) - GumbelCdf(s, exp, x)), x, GumbelCdf(s, exp, x))
  {
  }

  /** `find_intersect`: walks the domain with `i += increments`, recomputing
      both parties' `q` on every step as the source does, and keeps the first
      point of smallest distance. It returns what `Intersection` gives with
      `q` hoisted out of the loop. */
  method FindIntersect(buyer: Params, seller: Params, u: seq<Point>, p: seq<Point>, tick: int,
                       xmin: real, xmax: real, samples: int, exp: real -> real)
    returns (r: Result<(real, real)>)
    requires 0 < samples
    requires xmin < xmax ==> buyer.delta != 0.0 && seller.delta != 0.0
    ensures r == Intersection(buyer, seller, u, p, tick, xmin, xmax, samples, exp)
  {
    var mindist := 5000.0;
    var minindex := -1.0;
    var ratio := -1.0;
    var increments := Increment(xmin, xmax, samples);
    ghost var xs := Domain(xmin, xmax, samples);
    ghost var ps := HoistedProbes(buyer, seller, u, p, tick, xmin, xmax, samples, exp);
    ghost var k := 0;
    var i := xmin;
    LoopVisitsDomain(xmin, xmax, samples, k);
    while i < xmax
      invariant 0 <= k <= |xs|
      invariant i == Visit(xmin, xmax, samples, k)
      invariant k == 0 ==> Probe(mindist, minindex, ratio) == Unset
      invariant 0 < k ==> LocationDefined(u, p, tick) && |ps| == |xs|
      invariant 0 < k ==> Probe(mindist, minindex, ratio) == Scan(ps[..k])
      decreases |xs| - k
    {
      LoopVisitsDomain(xmin, xmax, samples, k);
      if !LocationDefined(u, p, tick) {
        IntersectionCases(buyer, seller, u, p, tick, xmin, xmax, samples, exp);
        return Err(IndexOutOfRange);
      }
      var b_q := LocationParameter(u, p, tick, buyer, exp);
      var b_rounded := GumbelCdf(Gumbel(b_q, buyer.delta), exp, i);
      var s_q := LocationParameter(u, p, tick, seller, exp);
      var s_rounded := GumbelCdf(Gumbel(s_q, seller.delta), exp, i);
      var diff := Abs((1.0 - b_rounded) - s_rounded);

      ProbeOfHoisted(buyer, seller, u, p, tick, xmin, xmax, samples, exp, k);
      assert ps[k] == Probe(diff, i, s_rounded);
      assert ps[..k + 1] == ps[..k] + [ps[k]];
      if diff < mindist {
        mindist := diff;
        minindex := i;
        ratio := s_rounded;
      }
      i := i + increments;
      k := k + 1;
    }
    LoopVisitsDomain(xmin, xmax, samples, k);
    IntersectionCases(buyer, seller, u, p, tick, xmin, xmax, samples, exp);
    r := Ok((minindex, ratio));
    if 0 < k {
      assert ps[..k] == ps;
    }
  }
}
