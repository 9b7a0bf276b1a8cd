/** The domain loop shared by every evaluator and by the intersection finder:
    `for (i = xmin; i < xmax; i += (xmax - xmin) / samples)`, over exact reals. */
module Discretisation {
  import opened Curves

  /** The step between two consecutive domain points. */
  function Increment(xmin: real, xmax: real, samples: int): real
    requires 0 < samples
  {
    (xmax - xmin) / samples as real
  }

  /** The value of the loop variable after `k` additions of the increment. */
  function Visit(xmin: real, xmax: real, samples: int, k: int): real
    requires 0 < samples
  {
    xmin + k as real * Increment(xmin, xmax, samples)
  }

  /** The points the loop visits: `samples` equally spaced points from `xmin`
      when the range is non-empty, none otherwise. */
  function Domain(xmin: real, xmax: real, samples: int): (xs: seq<real>)
    requires 0 < samples
    ensures |xs| == if xmin < xmax then samples else 0
    ensures xs != [] ==> xs[0] == xmin
  {
    if xmin < xmax then seq(samples, k => Visit(xmin, xmax, samples, k))
    else []
  }

  /** After `k` additions of the increment the loop variable is `xmin + k * increment`;
      the loop guard `i < xmax` holds exactly while `k` indexes a domain point,
      and then `i` is that point. */
  lemma LoopVisitsDomain(xmin: real, xmax: real, samples: int, k: int)
    requires 0 < samples
    requires 0 <= k <= |Domain(xmin, xmax, samples)|
    ensures Visit(xmin, xmax, samples, 0) == xmin
    ensures Visit(xmin, xmax, samples, k) + Increment(xmin, xmax, samples) == Visit(xmin, xmax, samples, k + 1)
    ensures Visit(xmin, xmax, samples, k) < xmax <==> k < |Domain(xmin, xmax, samples)|
    ensures k < |Domain(xmin, xmax, samples)| ==> Domain(xmin, xmax, samples)[k] == Visit(xmin, xmax, samples, k)
  {
    assert (k + 1) as real * Increment(xmin, xmax, samples) == k as real * Increment(xmin, xmax, samples) + Increment(xmin, xmax, samples);
    if xmin < xmax {
      var inc := Increment(xmin, xmax, samples);
      var n := samples as real;
      assert n * inc == xmax - xmin;
      assert 0.0 < inc;
      if k < samples {
        assert 0.0 < (n - k as real) * inc;
      }
    }
  }

  /** Two domain points `j < k` lie `(k - j)` increments apart, so the later one is larger. */
  lemma DomainOrdered(xmin: real, xmax: real, samples: int, j: int, k: int)
    requires 0 < samples
    requires 0 <= j < k < |Domain(xmin, xmax, samples)|
    ensures Domain(xmin, xmax, samples)[k] - Domain(xmin, xmax, samples)[j] == (k - j) as real * Increment(xmin, xmax, samples)
    ensures Domain(xmin, xmax, samples)[j] < Domain(xmin, xmax, samples)[k]
  {
    var inc := Increment(xmin, xmax, samples);
    var n := samples as real;
    assert n * inc == xmax - xmin;
    assert 0.0 < inc;
    assert 0.0 < (k - j) as real * inc;
  }

  /** The shape of the domain: `samples` points when `xmin < xmax` and none
      otherwise, the first at `xmin`, consecutive points one increment apart,
      strictly increasing, and all inside `[xmin, xmax)`. */
  lemma DomainShape(xmin: real, xmax: real, samples: int)
    requires 0 < samples
    ensures |Domain(xmin, xmax, samples)| == if xmin < xmax then samples else 0
    ensures xmin < xmax ==> Domain(xmin, xmax, samples)[0] == xmin
    ensures forall k :: 0 < k < |Domain(xmin, xmax, samples)| ==>
              Domain(xmin, xmax, samples)[k] - Domain(xmin, xmax, samples)[k - 1] == Increment(xmin, xmax, samples)
    ensures forall j, k :: 0 <= j < k < |Domain(xmin, xmax, samples)| ==>
              Domain(xmin, xmax, samples)[j] < Domain(xmin, xmax, samples)[k]
    ensures forall k :: 0 <= k < |Domain(xmin, xmax, samples)| ==>
              xmin <= Domain(xmin, xmax, samples)[k] < xmax
  {
    var xs := Domain(xmin, xmax, samples);
    forall k | 0 < k < |xs|
      ensures xs[k] - xs[k - 1] == Increment(xmin, xmax, samples)
    {
      DomainOrdered(xmin, xmax, samples, k - 1, k);
    }
    forall j, k | 0 <= j < k < |xs|
      ensures xs[j] < xs[k]
    {
      DomainOrdered(xmin, xmax, samples, j, k);
    }
    forall k | 0 <= k < |xs|
      ensures xmin <= xs[k] < xmax
    {
      if 0 < k {
        DomainOrdered(xmin, xmax, samples, 0, k);
      }
      LoopVisitsDomain(xmin, xmax, samples, k);
    }
  }

  /** The concrete case of the standard normal example: six samples over [-3, 3). */
  lemma StandardGrid()
    ensures Domain(-3.0, 3.0, 6) == [-3.0, -2.0, -1.0, 0.0, 1.0, 2.0]
  {
    var xs := Domain(-3.0, 3.0, 6);
    assert Increment(-3.0, 3.0, 6) == 1.0;
    assert xs[0] == -3.0 && xs[1] == -2.0 && xs[2] == -1.0;
    assert xs[3] == 0.0 && xs[4] == 1.0 && xs[5] == 2.0;
  }

  /** The loop body every evaluator runs: push `{x: i, y: shape(i)}` and add the
      increment. The curve holds one point per domain point, in domain order,
      and each `y` is the shape at that point's `x` alone. */
  method Tabulate(shape: real -> real, xmin: real, xmax: real, samples: int) returns (curve: seq<Point>)
    requires 0 < samples
    ensures |curve| == |Domain(xmin, xmax, samples)|
    ensures forall k :: 0 <= k < |curve| ==>
              curve[k] == Point(Domain(xmin, xmax, samples)[k], shape(Domain(xmin, xmax, samples)[k]))
  {
    ghost var xs := Domain(xmin, xmax, samples);
    var increments := Increment(xmin, xmax, samples);
    curve := [];
    var i := xmin;
    ghost var k := 0;
    LoopVisitsDomain(xmin, xmax, samples, k);
    while i < xmax
      invariant 0 <= k <= |xs|
      invariant i == Visit(xmin, xmax, samples, k)
      invariant |curve| == k
      invariant forall j :: 0 <= j < k ==> curve[j] == Point(xs[j], shape(xs[j]))
      decreases |xs| - k
    {
      LoopVisitsDomain(xmin, xmax, samples, k);
      curve := curve + [Point(i, shape(i))];
      i := i + increments;
      k := k + 1;
    }
    LoopVisitsDomain(xmin, xmax, samples, k);
  }
}
