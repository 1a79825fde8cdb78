/**
 Explicit-bound histograms: the bucket that sort.Search picks, the point of a list of observations, and the
 sum of two points.
 */
module ExplicitBuckets {

  /** Bounds are strictly increasing. */
  predicate Increasing(bounds: seq<real>) {
    forall i, j :: 0 <= i < j < |bounds| ==> bounds[i] < bounds[j]
  }

  /** The first bound that is not below v, or the overflow bucket. */
  function BucketOf(bounds: seq<real>, v: real): (i: nat)
    ensures i <= |bounds|
    ensures i < |bounds| ==> v <= bounds[i]
    ensures forall j :: 0 <= j < i ==> bounds[j] < v
  {
    if bounds == [] || v <= bounds[0] then 0 else 1 + BucketOf(bounds[1..], v)
  }

  /** sort.Search with the predicate v <= bounds[i]: a binary search. */
  method Search(bounds: seq<real>, v: real) returns (i: nat)
    requires Increasing(bounds)
    ensures i == BucketOf(bounds, v)
  {
    i := 0;
    var j := |bounds|;
    while i < j
      invariant 0 <= i <= j <= |bounds|
      invariant forall k :: 0 <= k < i ==> bounds[k] < v
      invariant forall k :: j <= k < |bounds| ==> v <= bounds[k]
    {
      var h := (i + j) / 2;
      if !(v <= bounds[h]) { i := h + 1; } else { j := h; }
    }
    BucketIff(bounds, v, i);
  }

  /** The bucket holds exactly the values above the bound before it and up to its own bound. */
  lemma BucketIff(bounds: seq<real>, v: real, i: nat)
    requires Increasing(bounds) && i <= |bounds|
    ensures BucketOf(bounds, v) == i <==> (i == 0 || bounds[i - 1] < v) && (i == |bounds| || v <= bounds[i])
  {
  }

  datatype Hist = Hist(count: nat, sum: real, buckets: seq<nat>, min: real, max: real)

  function First(bounds: seq<real>, v: real): Hist {
    Hist(1, v, seq<nat>(|bounds| + 1, i => if i == BucketOf(bounds, v) then 1 else 0), v, v)
  }

  /** One more observation in a data point. */
  function Observe(bounds: seq<real>, h: Hist, v: real): Hist
    requires |h.buckets| == |bounds| + 1
  {
    var b := BucketOf(bounds, v);
    Hist(h.count + 1, h.sum + v, h.buckets[b := h.buckets[b] + 1],
      if v < h.min then v else h.min, if v > h.max then v else h.max)
  }

  /** The data point of a non-empty list of observations. */
  function PointOf(bounds: seq<real>, vs: seq<real>): (h: Hist)
    requires vs != []
    ensures |h.buckets| == |bounds| + 1
  {
    if |vs| == 1 then First(bounds, vs[0])
    else Observe(bounds, PointOf(bounds, vs[..|vs| - 1]), vs[|vs| - 1])
  }

  /** addHistogram; the series keeps its bounds. */
  function AddHistogram(point: Hist, previous: Hist): Hist {
    Hist(point.count + previous.count, point.sum + previous.sum,
      seq<nat>(|point.buckets|, i requires 0 <= i < |point.buckets| =>
        point.buckets[i] + if i < |previous.buckets| then previous.buckets[i] else 0),
      if previous.min < point.min then previous.min else point.min,
      if previous.max > point.max then previous.max else point.max)
  }

  /** Adding the point of earlier observations gives the point of all of them. */
  lemma {:induction false} AddIsConcat(bounds: seq<real>, xs: seq<real>, ys: seq<real>)
    requires xs != [] && ys != []
    ensures AddHistogram(PointOf(bounds, ys), PointOf(bounds, xs)) == PointOf(bounds, xs + ys)
    decreases |ys|
  {
    var v, init := ys[|ys| - 1], ys[..|ys| - 1];
    assert (xs + ys)[..|xs + ys| - 1] == xs + init;
    if |ys| == 1 {
      assert xs + init == xs;
      AddFirst(bounds, PointOf(bounds, xs), v);
    } else {
      AddIsConcat(bounds, xs, init);
      AddObserve(bounds, PointOf(bounds, init), PointOf(bounds, xs), v);
    }
  }

  lemma AddFirst(bounds: seq<real>, h: Hist, v: real)
    requires |h.buckets| == |bounds| + 1
    ensures AddHistogram(First(bounds, v), h) == Observe(bounds, h, v)
  {
    assert AddHistogram(First(bounds, v), h).buckets == Observe(bounds, h, v).buckets;
  }

  lemma AddObserve(bounds: seq<real>, g: Hist, h: Hist, v: real)
    requires |h.buckets| == |bounds| + 1 == |g.buckets|
    ensures AddHistogram(Observe(bounds, g, v), h) == Observe(bounds, AddHistogram(g, h), v)
  {
    assert AddHistogram(Observe(bounds, g, v), h).buckets == Observe(bounds, AddHistogram(g, h), v).buckets;
  }

  /** How many observations satisfy the bounds of bucket i. */
  function CountIn(bounds: seq<real>, vs: seq<real>, i: nat): nat {
    if vs == [] then 0
    else CountIn(bounds, vs[..|vs| - 1], i) + if BucketOf(bounds, vs[|vs| - 1]) == i then 1 else 0
  }

  function SumOf(vs: seq<real>): real {
    if vs == [] then 0.0 else SumOf(vs[..|vs| - 1]) + vs[|vs| - 1]
  }

  /** A point says how many, how much, in which buckets and between which extremes. */
  lemma {:induction false} PointMeans(bounds: seq<real>, vs: seq<real>)
    requires vs != []
    ensures var h := PointOf(bounds, vs);
            && h.count == |vs| && h.sum == SumOf(vs)
            && (forall i :: 0 <= i <= |bounds| ==> h.buckets[i] == CountIn(bounds, vs, i))
            && h.min in vs && h.max in vs && forall v :: v in vs ==> h.min <= v <= h.max
    decreases |vs|
  {
    var init := vs[..|vs| - 1];
    assert vs == init + [vs[|vs| - 1]];
    if |vs| == 1 {
      assert vs == [vs[0]] && init == [];
      assert forall i {:trigger CountIn(bounds, vs, i)} ::
        CountIn(bounds, vs, i) == CountIn(bounds, [], i) + if BucketOf(bounds, vs[0]) == i then 1 else 0;
    } else {
      PointMeans(bounds, init);
    }
  }
}
