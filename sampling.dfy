/** Drawing points from a curve and accumulating a curve into running sums. */
module Sampling {
  import opened Curves

  /** `Math.floor(Math.random() * dist.length)`: the index one uniform draw in
      [0, 1) selects; it always indexes the curve. */
  function DrawIndex(draw: real, n: int): (i: int)
    requires 0.0 <= draw < 1.0 && 0 < n
    ensures 0 <= i < n
  {
    assert draw * n as real < n as real by {
      assert (1.0 - draw) * n as real > 0.0;
    }
    (draw * n as real).Floor
  }

  /** `sample(dist, size)`: `size` draws with replacement, in draw order. The
      values `Math.random()` returns are the parameter `draws`. Each drawn
      point is the entry of `dist` its draw selects, and so an entry of `dist`;
      a non-positive size draws nothing. */
  method Sample(dist: seq<Point>, size: int, draws: seq<real>) returns (samples: seq<Point>)
    requires 0 < size ==> 0 < |dist| && size <= |draws|
    requires forall j :: 0 <= j < |draws| ==> 0.0 <= draws[j] < 1.0
    ensures |samples| == if 0 < size then size else 0
    ensures forall j :: 0 <= j < |samples| ==> samples[j] == dist[DrawIndex(draws[j], |dist|)]
    ensures forall j :: 0 <= j < |samples| ==> samples[j] in dist
  {
    samples := [];
    var i := 0;
    while i < size
      invariant 0 <= i
      invariant if 0 < size then i <= size else i == 0
      invariant |samples| == i
      invariant forall j :: 0 <= j < i ==> samples[j] == dist[DrawIndex(draws[j], |dist|)]
    {
      var index := DrawIndex(draws[i], |dist|);
      samples := samples + [dist[index]];
      i := i + 1;
    }
  }

  /** The sum of the `y` values of a curve. */
  function SumY(s: seq<Point>): real
  {
    if s == [] then 0.0 else SumY(s[..|s| - 1]) + s[|s| - 1].y
  }

  /** Extending a prefix by one point adds that point's `y` to its sum. */
  lemma PrefixSumStep(data: seq<Point>, i: int)
    requires 0 <= i < |data|
    ensures SumY(data[..i + 1]) == SumY(data[..i]) + data[i].y
  {
    assert data[..i + 1][..i] == data[..i];
  }

  /** What `accumulate(data)` returns, as prefix sums: point 0 is the input's
      point 0 unchanged; every later point `i` is re-indexed to `x == i` and
      carries `data[0].y + ... + data[i].y`. */
  function Accumulated(data: seq<Point>): (acc: seq<Point>)
    requires 0 < |data|
    ensures |acc| == |data|
    ensures acc[0] == data[0]
    ensures forall i :: 0 < i < |data| ==> acc[i].x == i as real
    ensures forall i :: 0 <= i < |data| ==> acc[i].y == SumY(data[..i + 1])
  {
    PrefixSumStep(data, 0);
    [data[0]] + seq(|data| - 1, k requires 0 <= k < |data| - 1 => Point((k + 1) as real, SumY(data[..k + 2])))
  }

  /** The recurrence the source runs: each accumulated `y` is the previous
      accumulated `y` plus the input's `y` at the same position. */
  lemma AccumulatedStep(data: seq<Point>, i: int)
    requires 0 < i < |data|
    ensures Accumulated(data)[i].y == Accumulated(data)[i - 1].y + data[i].y
  {
    PrefixSumStep(data, i);
  }

  /** The last accumulated `y` is the sum of all input `y` values. */
  lemma AccumulatedTotal(data: seq<Point>)
    requires 0 < |data|
    ensures Accumulated(data)[|data| - 1].y == SumY(data)
  {
    assert data[..|data|] == data;
  }

  /** Accumulating non-negative values (a sampled density) gives a curve that
      never decreases. */
  lemma {:induction false} AccumulatedMonotone(data: seq<Point>, j: int, k: int)
    requires 0 <= j <= k < |data|
    requires forall i :: 0 <= i < |data| ==> 0.0 <= data[i].y
    ensures Accumulated(data)[j].y <= Accumulated(data)[k].y
    decreases k - j
  {
    if j < k {
      AccumulatedMonotone(data, j, k - 1);
      AccumulatedStep(data, k);
    }
  }

  /** `accumulate(data)`: copies point 0, then pushes `{x: i, y: data[i].y +
      copied[i-1].y}` reading back the point pushed just before. */
  method Accumulate(data: seq<Point>) returns (copied: seq<Point>)
    requires 0 < |data|
    ensures copied == Accumulated(data)
  {
    copied := [data[0]];
    PrefixSumStep(data, 0);
    var i := 1;
    while i < |data|
      invariant 1 <= i <= |data|
      invariant |copied| == i
      invariant copied[0] == data[0]
      invariant forall k :: 0 < k < i ==> copied[k].x == k as real
      invariant forall k :: 0 <= k < i ==> copied[k].y == SumY(data[..k + 1])
    {
      var current := data[i];
      var prev := copied[i - 1];
      PrefixSumStep(data, i);
      copied := copied + [Point(i as real, current.y + prev.y)];
      i := i + 1;
    }
    var acc := Accumulated(data);
    assert forall k :: 0 < k < |data| ==> copied[k] == acc[k];
  }
}
