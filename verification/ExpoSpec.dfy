/**
 The exponential histogram as a value: what recording and replaying compute, and the
 canonical histogram that a multiset of observations determines.
 */
module ExpoSpec {
  import opened ExpoIndex
  import opened ExpoBuckets

  // ---- Count, sum and extrema ----

  /** The fields that do not depend on buckets. min and max are 0 until something was observed. */
  datatype Totals = Totals(count: nat, zeroCount: nat, sum: real, min: real, max: real)

  const NO_TOTALS := Totals(0, 0, 0.0, 0.0, 0.0)

  predicate TotalsOk(t: Totals) {
    t.count == 0 ==> t.min == 0.0 && t.max == 0.0
  }

  function Least(x: real, y: real): real { if y < x then y else x }

  function Greatest(x: real, y: real): real { if y > x then y else x }

  /** The totals of two disjoint groups of observations taken together. */
  function Combine(a: Totals, b: Totals): Totals {
    Totals(
      a.count + b.count, a.zeroCount + b.zeroCount, a.sum + b.sum,
      if b.count == 0 then a.min else if a.count == 0 then b.min else Least(a.min, b.min),
      if b.count == 0 then a.max else if a.count == 0 then b.max else Greatest(a.max, b.max))
  }

  lemma CombineLaws(a: Totals, b: Totals, c: Totals)
    requires TotalsOk(a) && TotalsOk(b) && TotalsOk(c)
    ensures TotalsOk(Combine(a, b))
    ensures Combine(a, b) == Combine(b, a)
    ensures Combine(Combine(a, b), c) == Combine(a, Combine(b, c))
    ensures Combine(NO_TOTALS, a) == a == Combine(a, NO_TOTALS)
  {
  }

  // ---- The histogram ----

  datatype Hist = Hist(maxSize: int, scale: int, totals: Totals, positive: Buckets, negative: Buckets)

  datatype Side = Pos | Neg

  function Range(h: Hist, side: Side): Buckets {
    if side == Pos then h.positive else h.negative
  }

  function Flip(h: Hist): Hist {
    h.(positive := h.negative, negative := h.positive)
  }

  /** newExpoHistogram, with its clamping of both parameters. */
  function NewHist(maxSize: int, maxScale: int): (h: Hist)
    ensures MIN_SIZE <= h.maxSize && MIN_SCALE <= h.scale <= MAX_SCALE
  {
    Hist(
      if maxSize < MIN_SIZE then MIN_SIZE else maxSize,
      if maxScale < MIN_SCALE then MIN_SCALE else if maxScale > MAX_SCALE then MAX_SCALE else maxScale,
      NO_TOTALS, Buckets(0, []), Buckets(0, []))
  }

  /** How often low and high must be halved to span fewer than maxSize, with at most `room` halvings. */
  function Change(low: int, high: int, maxSize: int, room: nat): (c: nat)
    ensures c <= room
    decreases room
  {
    if high - low >= maxSize && room > 0 then 1 + Change(low / 2, high / 2, maxSize, room - 1) else 0
  }

  function ScaleChange(h: Hist, b: Buckets, index: int): (c: nat)
    requires MIN_SCALE <= h.scale
    ensures c <= h.scale - MIN_SCALE
  {
    if b.counts == [] then 0
    else
      var low := if index < b.offset then index else b.offset;
      var high := if index > b.offset + |b.counts| - 1 then index else b.offset + |b.counts| - 1;
      Change(low, high, h.maxSize, h.scale - MIN_SCALE)
  }

  function Lowered(h: Hist, change: nat): Hist {
    h.(scale := h.scale - change, positive := Downscaled(h.positive, change),
      negative := Downscaled(h.negative, change))
  }

  function WithRange(h: Hist, side: Side, b: Buckets): Hist {
    if side == Pos then h.(positive := b) else h.(negative := b)
  }

  /** addCount: an entry of weight n on one side; both ranges move to a lower scale when that side needs it. */
  function AddCount(h: Hist, side: Side, index: int, n: nat): (r: Hist)
    requires MIN_SCALE <= h.scale
    ensures MIN_SCALE <= r.scale <= h.scale && r.maxSize == h.maxSize && r.totals == h.totals
  {
    if n == 0 then h
    else
      var change := ScaleChange(h, Range(h, side), index);
      var low := Lowered(h, change);
      if change > 0 then WithRange(low, side, Added(Range(low, side), Shr(index, change), n))
      else WithRange(h, side, Added(Range(h, side), index, n))
  }

  // ---- The best scale ----

  /** es fits maxSize buckets after k downscalings. */
  predicate Fits(es: seq<Entry>, maxSize: int, k: nat) {
    es == [] || Shr(High(es), k) - Shr(Low(es), k) < maxSize
  }

  /** Both ranges, with indexes at scale `start`, fit at scale s. */
  predicate BothFit(p: seq<Entry>, n: seq<Entry>, maxSize: int, start: int, s: int)
    requires s <= start
  {
    Fits(p, maxSize, start - s) && Fits(n, maxSize, start - s)
  }

  /** The largest scale from `scale` down at which both ranges fit, or the coarsest scale. */
  function Best(p: seq<Entry>, n: seq<Entry>, maxSize: int, start: int, scale: int): (s: int)
    requires MIN_SCALE <= scale <= start
    ensures MIN_SCALE <= s <= scale
    ensures s == MIN_SCALE || BothFit(p, n, maxSize, start, s)
    ensures forall t :: s < t <= scale ==> !BothFit(p, n, maxSize, start, t)
    decreases scale - MIN_SCALE
  {
    if scale == MIN_SCALE || BothFit(p, n, maxSize, start, scale) then scale
    else Best(p, n, maxSize, start, scale - 1)
  }

  /** The scale that the contract of Best pins down is unique. */
  lemma BestIs(p: seq<Entry>, n: seq<Entry>, maxSize: int, start: int, s: int)
    requires MIN_SCALE <= s <= start
    requires s == MIN_SCALE || BothFit(p, n, maxSize, start, s)
    requires forall t :: s < t <= start ==> !BothFit(p, n, maxSize, start, t)
    ensures Best(p, n, maxSize, start, start) == s
  {
    var b := Best(p, n, maxSize, start, start);
    var atS, atB := BothFit(p, n, maxSize, start, s), BothFit(p, n, maxSize, start, b);
  }

  /**
   h is the histogram of the positive-range observations p and the negative-range observations n,
   whose indexes are at scale `start`: the best scale, and the canonical range of each.
   */
  ghost predicate Canonical(h: Hist, start: int, p: seq<Entry>, n: seq<Entry>) {
    && Positive(p) && Positive(n)
    && MIN_SIZE <= h.maxSize && MIN_SCALE <= h.scale <= start
    && h.scale == Best(p, n, h.maxSize, start, start)
    && h.positive == Canon(p, start - h.scale)
    && h.negative == Canon(n, start - h.scale)
  }

  lemma FitsLower(es: seq<Entry>, maxSize: int, j: nat, k: nat)
    requires Fits(es, maxSize, j) && j <= k && MIN_SIZE <= maxSize
    ensures Fits(es, maxSize, k)
    decreases k
  {
    if j < k && es != [] {
      FitsLower(es, maxSize, j, k - 1);
      ShrLast(High(es), k - 1);
      ShrLast(Low(es), k - 1);
      LowHigh(es, k - 1);
    }
  }

  lemma FitsPart(es: seq<Entry>, e: Entry, maxSize: int, k: nat)
    requires Fits(es + [e], maxSize, k)
    ensures Fits(es, maxSize, k)
  {
    if es != [] { LowHighAppend(es, e, k); }
  }

  /** The loop of scaleChange stops at the best scale, counting down from a scale where the other range fits. */
  lemma {:induction false} ChangeIsBest(p: seq<Entry>, n: seq<Entry>, maxSize: int, start: int, s: int)
    requires MIN_SCALE <= s <= start && p != [] && MIN_SIZE <= maxSize
    requires s == MIN_SCALE || Fits(n, maxSize, start - s)
    ensures Best(p, n, maxSize, start, s)
            == s - Change(Shr(Low(p), start - s), Shr(High(p), start - s), maxSize, s - MIN_SCALE)
    decreases s - MIN_SCALE
  {
    if s != MIN_SCALE && !Fits(p, maxSize, start - s) {
      FitsLower(n, maxSize, start - s, start - s + 1);
      ShrLast(Low(p), start - s);
      ShrLast(High(p), start - s);
      ChangeIsBest(p, n, maxSize, start, s - 1);
    }
  }

  /** Adding an observation never allows a finer scale, so the search may restart from the current one. */
  lemma {:induction false} BestRestart(p: seq<Entry>, e: Entry, n: seq<Entry>, maxSize: int, start: int, s: int)
    requires MIN_SCALE <= s <= start
    ensures Best(p + [e], n, maxSize, start, s) == Best(p + [e], n, maxSize, start, Best(p, n, maxSize, start, s))
    decreases s - MIN_SCALE
  {
    if s != MIN_SCALE && !BothFit(p, n, maxSize, start, s) {
      if Fits(p + [e], maxSize, start - s) { FitsPart(p, e, maxSize, start - s); }
      BestRestart(p, e, n, maxSize, start, s - 1);
    }
  }

  // ---- addCount keeps histograms canonical ----

  lemma BestAfterAdding(h: Hist, start: int, p: seq<Entry>, n: seq<Entry>, e: Entry)
    requires Canonical(h, start, p, n)
    ensures Best(p + [e], n, h.maxSize, start, start)
            == h.scale - ScaleChange(h, h.positive, Shr(e.index, start - h.scale))
  {
    BestRestart(p, e, n, h.maxSize, start, start);
    ChangeIsBest(p + [e], n, h.maxSize, start, h.scale);
    ChangeAfterAdding(h, p, start - h.scale, e);
  }

  lemma RangesAfterAdding(p: seq<Entry>, n: seq<Entry>, k: nat, c: nat, e: Entry)
    requires Positive(p) && Positive(n)
    ensures Added(Downscaled(Canon(p, k), c), Shr(Shr(e.index, k), c), e.n) == Canon(p + [e], k + c)
    ensures Downscaled(Canon(n, k), c) == Canon(n, k + c)
  {
    ShrCompose(e.index, k, c);
    DownscaleCanon(p, k, c);
    DownscaleCanon(n, k, c);
    AddCanon(p, k + c, e.index, e.n);
  }

  lemma AddToPositive(h: Hist, start: int, p: seq<Entry>, n: seq<Entry>, e: Entry)
    requires Canonical(h, start, p, n) && e.n > 0
    ensures Canonical(AddCount(h, Pos, Shr(e.index, start - h.scale), e.n), start, p + [e], n)
  {
    var k := start - h.scale;
    var c := ScaleChange(h, h.positive, Shr(e.index, k));
    BestAfterAdding(h, start, p, n, e);
    RangesAfterAdding(p, n, k, c, e);
    if c == 0 { AddCanon(p, k, e.index, e.n); }
  }

  /** The bounds scaleChange works on are the bounds of the range with the new index. */
  lemma ChangeAfterAdding(h: Hist, p: seq<Entry>, k: nat, e: Entry)
    requires MIN_SCALE <= h.scale && MIN_SIZE <= h.maxSize && h.positive == Canon(p, k)
    ensures ScaleChange(h, h.positive, Shr(e.index, k))
            == Change(Shr(Low(p + [e]), k), Shr(High(p + [e]), k), h.maxSize, h.scale - MIN_SCALE)
  {
    if p == [] {
      assert p + [e] == [e];
    } else {
      LowHigh(p, k);
      LowHighAppend(p, e, k);
    }
  }

  lemma BestSymmetric(p: seq<Entry>, n: seq<Entry>, maxSize: int, start: int)
    requires MIN_SCALE <= start
    ensures Best(p, n, maxSize, start, start) == Best(n, p, maxSize, start, start)
  {
    var b := Best(n, p, maxSize, start, start);
    assert forall t :: b < t <= start ==> !BothFit(p, n, maxSize, start, t) by {
      assert forall t | b < t <= start :: BothFit(p, n, maxSize, start, t) == BothFit(n, p, maxSize, start, t);
    }
    BestIs(p, n, maxSize, start, b);
  }

  lemma FlipAdd(h: Hist, index: int, n: nat)
    requires MIN_SCALE <= h.scale
    ensures AddCount(h, Neg, index, n) == Flip(AddCount(Flip(h), Pos, index, n))
  {
  }

  lemma AddToNegative(h: Hist, start: int, p: seq<Entry>, n: seq<Entry>, e: Entry)
    requires Canonical(h, start, p, n) && e.n > 0
    ensures Canonical(AddCount(h, Neg, Shr(e.index, start - h.scale), e.n), start, p, n + [e])
  {
    BestSymmetric(p, n, h.maxSize, start);
    AddToPositive(Flip(h), start, n, p, e);
    BestSymmetric(p, n + [e], h.maxSize, start);
    FlipAdd(h, Shr(e.index, start - h.scale), e.n);
  }

  /** Two canonical histograms of observations that look alike have the same scale and the same ranges. */
  lemma CanonicalUnique(h: Hist, g: Hist, start: int, p: seq<Entry>, n: seq<Entry>, p': seq<Entry>, n': seq<Entry>)
    requires Canonical(h, start, p, n) && Canonical(g, start, p', n') && h.maxSize == g.maxSize
    requires Alike(p, 0, p', 0) && Alike(n, 0, n', 0)
    ensures h.scale == g.scale && h.positive == g.positive && h.negative == g.negative
  {
    forall t | MIN_SCALE <= t <= start
      ensures BothFit(p, n, h.maxSize, start, t) == BothFit(p', n', h.maxSize, start, t)
    {
      AlikeFits(p, p', h.maxSize, start - t);
      AlikeFits(n, n', h.maxSize, start - t);
    }
    BestIs(p, n, h.maxSize, start, g.scale);
    AlikeFits(p, p', h.maxSize, start - h.scale);
    AlikeFits(n, n', h.maxSize, start - h.scale);
  }

  lemma AlikeFits(a: seq<Entry>, b: seq<Entry>, maxSize: int, k: nat)
    requires Alike(a, 0, b, 0) && Positive(a) && Positive(b)
    ensures Fits(a, maxSize, k) == Fits(b, maxSize, k) && Canon(a, k) == Canon(b, k)
  {
    AlikeShift(a, 0, b, 0, k);
    AlikeCanon(a, k, b, k);
  }
}
