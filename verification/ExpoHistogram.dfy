/**
 The exponential histogram as the object the exporter updates in place. Every method is
 proved against the value-level operation whose properties ExpoTheorems and ExpoMerge establish.
 */
module ExpoHistogram {
  import opened ExpoIndex
  import B = ExpoBuckets
  import opened ExpoSpec
  import opened ExpoRecord
  import opened ExpoMerge
  import P = ExpoPoint

  class BucketRange {
    var offset: int
    var counts: seq<nat>

    constructor ()
      ensures Value() == B.Buckets(0, [])
    {
      offset, counts := 0, [];
    }

    function Value(): B.Buckets
      reads this
    {
      B.Buckets(offset, counts)
    }

    /** The same weights at a scale lower by `change`. */
    method Downscale(change: nat)
      modifies this
      ensures Value() == B.Downscaled(old(Value()), change)
    {
      if |counts| == 0 { return; }
      ghost var b := Value();
      ghost var es := B.EntriesOf(b);
      var first, last := Shr(offset, change), Shr(offset + |counts| - 1, change);
      ShrMonotone(offset, offset + |counts| - 1, change);
      var merged: seq<nat> := seq<nat>(last - first + 1, i => 0);
      var i := 0;
      while i < |counts|
        invariant 0 <= i <= |counts| && Value() == b && |merged| == last - first + 1
        invariant forall j :: 0 <= j < |merged| ==> merged[j] == B.Weight(es[..i], change, first + j)
      {
        ShrMonotone(offset, offset + i, change);
        ShrMonotone(offset + i, offset + |counts| - 1, change);
        assert es[..i + 1][..i] == es[..i];
        var at := Shr(offset + i, change) - first;
        merged := merged[at := merged[at] + counts[i]];
        i := i + 1;
      }
      assert es[..i] == es;
      offset, counts := first, merged;
    }

    /** One more entry of weight n. */
    method Add(index: int, n: nat)
      modifies this
      ensures Value() == B.Added(old(Value()), index, n)
    {
      ghost var b := Value();
      if |counts| == 0 {
        offset, counts := index, [0];
      } else if index < offset {
        counts := seq<nat>(offset - index, i => 0) + counts;
        offset := index;
      } else if index >= offset + |counts| {
        counts := counts + seq<nat>(index - offset - |counts| + 1, i => 0);
      }
      counts := counts[index - offset := counts[index - offset] + n];
      forall i | 0 <= i < |counts| ensures counts[i] == B.Bumped(b, index, n, offset + i) {
      }
      assert counts == B.Added(b, index, n).counts;
    }
  }

  class Histogram {
    var maxSize: int
    var scale: int
    var count: nat
    var zeroCount: nat
    var sum: real
    var min: real
    var max: real
    const positive: BucketRange
    const negative: BucketRange

    ghost predicate Valid()
      reads this
    {
      positive != negative && MIN_SIZE <= maxSize && MIN_SCALE <= scale <= MAX_SCALE
    }

    function Value(): Hist
      reads this, positive, negative
    {
      Hist(maxSize, scale, Totals(count, zeroCount, sum, min, max), positive.Value(), negative.Value())
    }

    constructor (size: int, maxScale: int)
      ensures Valid() && Value() == NewHist(size, maxScale) && fresh(positive) && fresh(negative)
    {
      maxSize := if size < MIN_SIZE then MIN_SIZE else size;
      scale := if maxScale < MIN_SCALE then MIN_SCALE else if maxScale > MAX_SCALE then MAX_SCALE else maxScale;
      count, zeroCount, sum, min, max := 0, 0, 0.0, 0.0, 0.0;
      positive := new BucketRange();
      negative := new BucketRange();
    }

    function SideOf(b: BucketRange): Side
    {
      if b == positive then Pos else Neg
    }

    /** How far AddCount lowers the scale before it counts at index. */
    method FindScaleChange(b: BucketRange, index: int) returns (change: nat)
      requires Valid() && (b == positive || b == negative)
      ensures change == ScaleChange(Value(), b.Value(), index)
    {
      if |b.counts| == 0 { return 0; }
      var low := if index < b.offset then index else b.offset;
      var high := if index > b.offset + |b.counts| - 1 then index else b.offset + |b.counts| - 1;
      change := 0;
      while high - low >= maxSize && scale - change > MIN_SCALE
        invariant change <= scale - MIN_SCALE
        invariant ScaleChange(Value(), b.Value(), index) ==
          change + Change(low, high, maxSize, scale - change - MIN_SCALE)
      {
        low, high, change := low / 2, high / 2, change + 1;
      }
    }

    /** An entry of weight n on the side of b, at the best scale for what is then recorded. */
    method Count(b: BucketRange, index: int, n: nat)
      requires Valid() && (b == positive || b == negative)
      modifies this`scale, positive, negative
      ensures Valid() && Value() == AddCount(old(Value()), SideOf(b), index, n)
    {
      if n == 0 { return; }
      var change := FindScaleChange(b, index);
      var at := index;
      if change > 0 {
        scale := scale - change;
        positive.Downscale(change);
        negative.Downscale(change);
        at := Shr(index, change);
      }
      b.Add(at, n);
    }

    /** One more recorded value. */
    method Observe(f: Float)
      requires Valid()
      modifies this, positive, negative
      ensures Valid() && Value() == Record(old(Value()), f)
    {
      hide AddCount;
      if f.NotFinite? { return; }
      if count == 0 || f.v < min { min := f.v; }
      if count == 0 || f.v > max { max := f.v; }
      count := count + 1;
      sum := sum + f.v;
      if f.v > 0.0 {
        Count(positive, Index(f.mag, scale), 1);
      } else if f.v < 0.0 {
        Count(negative, Index(f.mag, scale), 1);
      } else {
        zeroCount := zeroCount + 1;
      }
    }

    /** The entries of another histogram's range, recorded one after the other on the side of dst. */
    method ReplayBuckets(dst: BucketRange, src: B.Buckets, srcScale: int)
      requires Valid() && (dst == positive || dst == negative) && scale <= srcScale
      modifies this`scale, positive, negative
      ensures Valid() && scale <= old(scale)
      ensures Value() == Replay(old(Value()), SideOf(dst), B.EntriesOf(src), srcScale)
    {
      hide AddCount, Replay;
      ghost var es := B.EntriesOf(src);
      ghost var before := Value();
      ReplayNothing(before, SideOf(dst), srcScale, [], 0);
      var i := 0;
      while i < |src.counts|
        invariant Valid() && 0 <= i <= |src.counts| && scale <= old(scale)
        invariant Value() == Replay(before, SideOf(dst), es[..i], srcScale)
      {
        assert es[..i + 1][..i] == es[..i];
        ReplayLast(before, SideOf(dst), es[..i + 1], srcScale);
        if src.counts[i] != 0 {
          Count(dst, Shr(src.offset + i, srcScale - scale), src.counts[i]);
        }
        i := i + 1;
      }
      assert es[..i] == es;
    }

    /** One round of mergeExpo: takes in all of src. */
    method Absorb(src: Histogram)
      requires Valid() && src.Valid() && src != this && scale <= src.scale
      requires {src.positive, src.negative} !! {positive, negative}
      modifies this, positive, negative
      ensures Valid() && scale <= old(scale)
      ensures var was, s := old(Value()), src.Value();
              Value() == ReplayBoth(was, s).(totals := Combine(was.totals, s.totals))
    {
      hide AddCount, Replay;
      ReplayBuckets(positive, src.positive.Value(), src.scale);
      ReplayBuckets(negative, src.negative.Value(), src.scale);
      zeroCount := zeroCount + src.zeroCount;
      count := count + src.count;
      sum := sum + src.sum;
      if src.count > 0 {
        if count == src.count || src.min < min { min := src.min; }
        if count == src.count || src.max > max { max := src.max; }
      }
    }

    /** mergeExpo: a new histogram; a and b keep their values and share nothing with it. */
    static method MergeExpo(a: Histogram, b: Histogram) returns (h: Histogram)
      requires a.Valid() && b.Valid()
      ensures fresh(h) && fresh(h.positive) && fresh(h.negative) && h.Valid()
      ensures h.Value() == Merge(a.Value(), b.Value())
    {
      hide ReplayBoth;
      h := new Histogram(
        if b.maxSize < a.maxSize then b.maxSize else a.maxSize, if b.scale < a.scale then b.scale else a.scale);
      h.Absorb(a);
      h.Absorb(b);
    }

    /** expoHistogramFromPoint */
    static method Rebuild(dp: P.Point, maxSize: int) returns (h: Histogram)
      ensures fresh(h) && fresh(h.positive) && fresh(h.negative) && h.Valid()
      ensures h.Value() == P.FromPoint(dp, maxSize)
    {
      hide Replay;
      h := new Histogram(maxSize, dp.scale);
      var srcScale := h.scale;
      h.ReplayBuckets(h.positive, dp.positive, srcScale);
      h.ReplayBuckets(h.negative, dp.negative, srcScale);
      h.zeroCount, h.count, h.sum := dp.zeroCount, dp.count, dp.sum;
      if dp.count > 0 {
        if dp.min.Defined? { h.min := dp.min.value; }
        if dp.max.Defined? { h.max := dp.max.value; }
      }
    }
  }
}
