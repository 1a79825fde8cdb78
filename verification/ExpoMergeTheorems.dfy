/**
 Merging is recording everything: it is commutative and associative, and any way of
 splitting a stream of observations into parts and merging them gives the same histogram.
 */
module ExpoMergeTheorems {
  import opened ExpoIndex
  import opened ExpoBuckets
  import opened ExpoSpec
  import opened ExpoRecord
  import opened ExpoTheorems
  import opened ExpoMerge

  lemma AlikeTrans(a: seq<Entry>, ka: nat, b: seq<Entry>, kb: nat, c: seq<Entry>, kc: nat)
    requires Alike(a, ka, b, kb) && Alike(b, kb, c, kc)
    ensures Alike(a, ka, c, kc)
  {
  }

  lemma AlikeBack(a: seq<Entry>, ka: nat, b: seq<Entry>, kb: nat)
    requires Alike(a, ka, b, kb)
    ensures Alike(b, kb, a, ka)
  {
  }

  // ---- Merging equals recording ----

  lemma ObservedShift(fs: seq<Float>, side: Side, high: int, low: int)
    requires low <= high
    ensures Alike(Observed(fs, side, low), 0, Observed(fs, side, high), high - low)
  {
    var k := high - low;
    forall j ensures Weight(Observed(fs, side, low), 0, j) == Weight(Observed(fs, side, high), k, j) {
      CountIsWeight(fs, side, high, high - low, j);
      CountIsWeight(fs, side, low, 0, j);
    }
  }

  /** The content of a recorded histogram is what was observed, at any scale not above its own. */
  lemma ContentIsObserved(maxSize: int, maxScale: int, fs: seq<Float>, side: Side, s: int)
    requires s <= Recorded(maxSize, maxScale, fs).scale
    ensures Alike(Content(Recorded(maxSize, maxScale, fs), side, s), 0, Observed(fs, side, s), 0)
  {
    var h, start := Recorded(maxSize, maxScale, fs), NewHist(maxSize, maxScale).scale;
    RecordedIsCanonical(maxSize, maxScale, fs);
    ContentAlike(h, side, Observed(fs, side, start), start - h.scale, s);
    ObservedShift(fs, side, start, s);
    AlikeBack(Observed(fs, side, s), 0, Observed(fs, side, start), start - s);
    AlikeTrans(Content(h, side, s), 0, Observed(fs, side, start), start - s, Observed(fs, side, s), 0);
  }

  lemma MergedContent(a: Hist, b: Hist, fs: seq<Float>, gs: seq<Float>, side: Side, s: int)
    requires s <= a.scale && s <= b.scale
    requires Alike(Content(a, side, s), 0, Observed(fs, side, s), 0)
    requires Alike(Content(b, side, s), 0, Observed(gs, side, s), 0)
    ensures Alike(Content(a, side, s) + Content(b, side, s), 0, Observed(fs + gs, side, s), 0)
  {
    ObservedConcat(fs, gs, side, s);
    AlikeConcat(Content(a, side, s), Content(b, side, s), Observed(fs, side, s), Observed(gs, side, s), 0);
  }

  /**
   mergeExpo of two recorded histograms is the histogram of all their observations, recorded
   with the smaller maxSize starting at the smaller scale.
   */
  lemma MergeIsRecordingAll(ma: int, sa: int, fs: seq<Float>, mb: int, sb: int, gs: seq<Float>)
    ensures var a, b := Recorded(ma, sa, fs), Recorded(mb, sb, gs);
            Merge(a, b) == Recorded(Min(a.maxSize, b.maxSize), Min(a.scale, b.scale), fs + gs)
  {
    hide Merge, Recorded, Content, Observed, Canonical, Alike, WellFormed, TotalsOf, Combine;
    var a, b := Recorded(ma, sa, fs), Recorded(mb, sb, gs);
    var m, s := Min(a.maxSize, b.maxSize), Min(a.scale, b.scale);
    RecordedWellFormed(ma, sa, fs);
    RecordedWellFormed(mb, sb, gs);
    MergeCanonical(a, b);
    RecordedIsCanonical(m, s, fs + gs);
    ContentIsObserved(ma, sa, fs, Pos, s);
    ContentIsObserved(ma, sa, fs, Neg, s);
    ContentIsObserved(mb, sb, gs, Pos, s);
    ContentIsObserved(mb, sb, gs, Neg, s);
    MergedContent(a, b, fs, gs, Pos, s);
    MergedContent(a, b, fs, gs, Neg, s);
    RecordedTotals(ma, sa, fs);
    RecordedTotals(mb, sb, gs);
    RecordedTotals(m, s, fs + gs);
    TotalsConcat(fs, gs);
    CanonicalUnique(Merge(a, b), Recorded(m, s, fs + gs), s,
      Content(a, Pos, s) + Content(b, Pos, s), Content(a, Neg, s) + Content(b, Neg, s),
      Observed(fs + gs, Pos, s), Observed(fs + gs, Neg, s));
  }

  // ---- Splitting a stream ----

  lemma {:induction false} FitsLeft(p: seq<Entry>, q: seq<Entry>, m: int, m': int, k: nat)
    requires Fits(p + q, m, k) && m <= m'
    ensures Fits(p, m', k)
    decreases |q|
  {
    if q == [] {
      assert p + q == p;
    } else {
      assert p + q == (p + q[..|q| - 1]) + [q[|q| - 1]];
      FitsPart(p + q[..|q| - 1], q[|q| - 1], m, k);
      FitsLeft(p, q[..|q| - 1], m, m', k);
    }
  }

  /** Recording more observations never raises the scale. */
  lemma ScaleOfPrefix(maxSize: int, maxScale: int, fs: seq<Float>, gs: seq<Float>)
    ensures Recorded(maxSize, maxScale, fs + gs).scale <= Recorded(maxSize, maxScale, fs).scale
  {
    var h0, t := NewHist(maxSize, maxScale), Recorded(maxSize, maxScale, fs + gs).scale;
    RecordedIsCanonical(maxSize, maxScale, fs);
    RecordedIsCanonical(maxSize, maxScale, fs + gs);
    if t > MIN_SCALE {
      ObservedConcat(fs, gs, Pos, h0.scale);
      ObservedConcat(fs, gs, Neg, h0.scale);
      FitsLeft(Observed(fs, Pos, h0.scale), Observed(gs, Pos, h0.scale), h0.maxSize, h0.maxSize, h0.scale - t);
      FitsLeft(Observed(fs, Neg, h0.scale), Observed(gs, Neg, h0.scale), h0.maxSize, h0.maxSize, h0.scale - t);
      assert BothFit(Observed(fs, Pos, h0.scale), Observed(fs, Neg, h0.scale), h0.maxSize, h0.scale, t);
    }
  }

  /** Starting at any scale between the final one and the original start gives the same histogram. */
  lemma StartDoesNotMatter(maxSize: int, maxScale: int, fs: seq<Float>, low: int)
    requires Recorded(maxSize, maxScale, fs).scale <= low <= NewHist(maxSize, maxScale).scale
    ensures Recorded(maxSize, low, fs) == Recorded(maxSize, maxScale, fs)
  {
    var high := NewHist(maxSize, maxScale).scale;
    var h, g := Recorded(maxSize, low, fs), Recorded(maxSize, maxScale, fs);
    var p, n := Observed(fs, Pos, high), Observed(fs, Neg, high);
    RecordedIsCanonical(maxSize, maxScale, fs);
    RecordedIsCanonical(maxSize, low, fs);
    ObservedShift(fs, Pos, high, low);
    ObservedShift(fs, Neg, high, low);
    CanonicalFromHigher(h, low, Observed(fs, Pos, low), Observed(fs, Neg, low), high, p, n);
    SelfAlike(p);
    SelfAlike(n);
    CanonicalUnique(h, g, high, p, n, p, n);
    RecordedTotals(maxSize, maxScale, fs);
    RecordedTotals(maxSize, low, fs);
  }

  /** Two halves of a stream, recorded separately and merged, give the histogram of the whole stream. */
  lemma MergeOfParts(maxSize: int, maxScale: int, fs: seq<Float>, gs: seq<Float>)
    ensures Merge(Recorded(maxSize, maxScale, fs), Recorded(maxSize, maxScale, gs)) ==
      Recorded(maxSize, maxScale, fs + gs)
  {
    var a, b := Recorded(maxSize, maxScale, fs), Recorded(maxSize, maxScale, gs);
    MergeIsRecordingAll(maxSize, maxScale, fs, maxSize, maxScale, gs);
    ScaleOfPrefix(maxSize, maxScale, fs, gs);
    ScaleOfPrefix(maxSize, maxScale, gs, fs);
    OrderIndependent(maxSize, maxScale, fs + gs, gs + fs);
    StartDoesNotMatter(maxSize, maxScale, fs + gs, Min(a.scale, b.scale));
    SizeClamps(maxSize, maxScale, Min(a.scale, b.scale), fs + gs);
  }

  /** maxSize matters only through its clamped value. */
  lemma {:induction false} SizeClamps(maxSize: int, maxScale: int, scale: int, fs: seq<Float>)
    ensures Recorded(NewHist(maxSize, maxScale).maxSize, scale, fs) == Recorded(maxSize, scale, fs)
    decreases |fs|
  {
    if fs != [] { SizeClamps(maxSize, maxScale, scale, fs[..|fs| - 1]); }
  }

  // ---- Associativity ----

  lemma ContentShift(h: Hist, side: Side, high: int, low: int)
    requires low <= high <= h.scale
    ensures Alike(Content(h, side, low), 0, Content(h, side, high), high - low)
  {
    var es, k := EntriesOf(Range(h, side)), high - low;
    forall j ensures Weight(Content(h, side, low), 0, j) == Weight(Content(h, side, high), k, j) {
      MovedWeight(es, h.scale - low, 0, j);
      MovedWeight(es, h.scale - high, high - low, j);
    }
  }

  lemma MergeRange(a: Hist, b: Hist, side: Side)
    requires WellFormed(a) && WellFormed(b)
    ensures var ab, s := Merge(a, b), Min(a.scale, b.scale);
            && ab.scale <= s && ab.maxSize == Min(a.maxSize, b.maxSize)
            && Range(ab, side) == Canon(Content(a, side, s) + Content(b, side, s), s - ab.scale)
  {
    MergeCanonical(a, b);
  }

  lemma ContentOfRange(ab: Hist, side: Side, top: seq<Entry>, s2: int, mid: seq<Entry>, s: int, low: int)
    requires low <= s <= s2 && low <= ab.scale <= s2 && Range(ab, side) == Canon(top, s2 - ab.scale)
    requires Alike(mid, 0, top, s2 - s)
    ensures Alike(Content(ab, side, low), 0, mid, s - low)
  {
    hide *;
    ContentAlike(ab, side, top, s2 - ab.scale, low);
    AlikeShift(mid, 0, top, s2 - s, s - low);
    AlikeBack(mid, s - low, top, s2 - low);
    AlikeTrans(Content(ab, side, low), 0, top, s2 - low, mid, s - low);
  }

  lemma BothContentShift(a: Hist, b: Hist, side: Side, high: int, low: int)
    requires low <= high <= a.scale && high <= b.scale
    ensures Alike(Content(a, side, low) + Content(b, side, low), 0, Content(a, side, high) + Content(b, side, high),
      high - low)
  {
    hide *;
    ContentShift(a, side, high, low);
    ContentShift(b, side, high, low);
    AlikeConcat(Content(a, side, low), Content(b, side, low), Content(a, side, high), Content(b, side, high),
      high - low);
  }

  /** The content of a merged histogram looks like the contents of both parts at a common scale s. */
  lemma MergeContent(a: Hist, b: Hist, side: Side, s: int, low: int)
    requires WellFormed(a) && WellFormed(b)
    requires low <= s <= Min(a.scale, b.scale) && low <= Merge(a, b).scale
    ensures Alike(Content(Merge(a, b), side, low), 0, Content(a, side, s) + Content(b, side, s), s - low)
  {
    var s2 := Min(a.scale, b.scale);
    MergeRange(a, b, side);
    BothContentShift(a, b, side, s2, s);
    ContentOfRange(Merge(a, b), side, Content(a, side, s2) + Content(b, side, s2), s2,
      Content(a, side, s) + Content(b, side, s), s, low);
  }

  /** Where two histograms together do not fit, they do not fit with a third one either. */
  lemma StillTooWide(a: Hist, b: Hist, c: Hist, m: int, s: int, t: int)
    requires WellFormed(a) && WellFormed(b) && s <= Min(a.scale, b.scale) && s <= c.scale
    requires Merge(a, b).scale < t <= s && m <= Min(a.maxSize, b.maxSize)
    ensures !BothFit(Content(a, Pos, s) + Content(b, Pos, s) + Content(c, Pos, s),
                     Content(a, Neg, s) + Content(b, Neg, s) + Content(c, Neg, s), m, s, t)
  {
    hide Merge, Content, WellFormed;
    var m2, s2 := Min(a.maxSize, b.maxSize), Min(a.scale, b.scale);
    MergeCanonical(a, b);
    assert !BothFit(Content(a, Pos, s2) + Content(b, Pos, s2), Content(a, Neg, s2) + Content(b, Neg, s2), m2, s2, t);
    FitsDown(a, b, c, Pos, m, s, t);
    FitsDown(a, b, c, Neg, m, s, t);
  }

  lemma FitsDown(a: Hist, b: Hist, c: Hist, side: Side, m: int, s: int, t: int)
    requires s <= Min(a.scale, b.scale) && s <= c.scale && t <= s && m <= Min(a.maxSize, b.maxSize)
    ensures Fits(Content(a, side, s) + Content(b, side, s) + Content(c, side, s), m, s - t)
            ==> Fits(Content(a, side, Min(a.scale, b.scale)) + Content(b, side, Min(a.scale, b.scale)),
                     Min(a.maxSize, b.maxSize), Min(a.scale, b.scale) - t)
  {
    var m2, s2 := Min(a.maxSize, b.maxSize), Min(a.scale, b.scale);
    var top, mid := Content(a, side, s2) + Content(b, side, s2), Content(a, side, s) + Content(b, side, s);
    if Fits(mid + Content(c, side, s), m, s - t) {
      FitsLeft(mid, Content(c, side, s), m, m2, s - t);
      BothContentShift(a, b, side, s2, s);
      SameAtBothScales(s, mid, s2, top, t, m2);
    }
  }

  /** Merging a third histogram into a merged pair gives the canonical histogram of all three contents. */
  lemma MergeThree(a: Hist, b: Hist, c: Hist, s: int)
    requires WellFormed(a) && WellFormed(b) && WellFormed(c) && s == Min(Min(a.scale, b.scale), c.scale)
    ensures Canonical(Merge(Merge(a, b), c), s,
                      Content(a, Pos, s) + Content(b, Pos, s) + Content(c, Pos, s),
                      Content(a, Neg, s) + Content(b, Neg, s) + Content(c, Neg, s))
  {
    var ab := Merge(a, b);
    MergeRange(a, b, Pos);
    MergeWellFormed(a, b);
    MergeCanonical(ab, c);
    MergeThreeLow(a, b, c, ab, Merge(ab, c), s, Min(ab.scale, c.scale));
  }

  lemma MergeThreeLow(a: Hist, b: Hist, c: Hist, ab: Hist, abc: Hist, s: int, low: int)
    requires WellFormed(a) && WellFormed(b) && WellFormed(c)
    requires s == Min(Min(a.scale, b.scale), c.scale) && ab == Merge(a, b) && low == Min(ab.scale, c.scale) <= s
    requires abc.maxSize <= Min(a.maxSize, b.maxSize)
    requires Canonical(abc, low, Content(ab, Pos, low) + Content(c, Pos, low),
      Content(ab, Neg, low) + Content(c, Neg, low))
    ensures Canonical(abc, s, Content(a, Pos, s) + Content(b, Pos, s) + Content(c, Pos, s),
                      Content(a, Neg, s) + Content(b, Neg, s) + Content(c, Neg, s))
  {
    hide Merge, Content, Alike, WellFormed, Canonical, BothFit;
    var p := Content(a, Pos, s) + Content(b, Pos, s) + Content(c, Pos, s);
    var n := Content(a, Neg, s) + Content(b, Neg, s) + Content(c, Neg, s);
    MergeContent(a, b, Pos, s, low);
    MergeContent(a, b, Neg, s, low);
    MergeThreeSide(ab, Content(a, Pos, s) + Content(b, Pos, s), c, Pos, s, low);
    MergeThreeSide(ab, Content(a, Neg, s) + Content(b, Neg, s), c, Neg, s, low);
    forall t | low < t <= s ensures !BothFit(p, n, abc.maxSize, s, t) {
      StillTooWide(a, b, c, abc.maxSize, s, t);
    }
    CanonicalFromHigher(abc, low, Content(ab, Pos, low) + Content(c, Pos, low),
      Content(ab, Neg, low) + Content(c, Neg, low),
      s, p, n);
  }

  lemma MergeThreeSide(ab: Hist, p: seq<Entry>, c: Hist, side: Side, s: int, low: int)
    requires low <= s <= c.scale && low <= ab.scale && Alike(Content(ab, side, low), 0, p, s - low)
    ensures Alike(Content(ab, side, low) + Content(c, side, low), 0, p + Content(c, side, s), s - low)
  {
    hide *;
    ContentShift(c, side, s, low);
    AlikeConcat(Content(ab, side, low), Content(c, side, low), p, Content(c, side, s), s - low);
  }

  lemma Rotate(a: seq<Entry>, b: seq<Entry>, c: seq<Entry>)
    ensures Alike(a + b + c, 0, b + c + a, 0)
  {
    SelfAlike(a);
    SelfAlike(b + c);
    AlikeConcat(a, b + c, a, b + c, 0);
    assert a + b + c == a + (b + c);
  }

  /** mergeExpo is associative, even when replaying lowers the scale midway. */
  lemma MergeAssociates(a: Hist, b: Hist, c: Hist)
    requires WellFormed(a) && WellFormed(b) && WellFormed(c)
    ensures WellFormed(Merge(a, b)) && WellFormed(Merge(b, c))
    ensures Merge(Merge(a, b), c) == Merge(a, Merge(b, c))
  {
    MergeWellFormed(a, b);
    MergeWellFormed(b, c);
    MergeCommutes(a, Merge(b, c));
    MergeRotates(a, b, c);
  }

  lemma MergeRotates(a: Hist, b: Hist, c: Hist)
    requires WellFormed(a) && WellFormed(b) && WellFormed(c) && WellFormed(Merge(a, b)) && WellFormed(Merge(b, c))
    ensures Merge(Merge(a, b), c) == Merge(Merge(b, c), a)
  {
    var s := Min(Min(a.scale, b.scale), c.scale);
    MergeThree(a, b, c, s);
    MergeThree(b, c, a, s);
    RotateTotals(a, b, c);
    Rotate(Content(a, Pos, s), Content(b, Pos, s), Content(c, Pos, s));
    Rotate(Content(a, Neg, s), Content(b, Neg, s), Content(c, Neg, s));
    CanonicalUnique(Merge(Merge(a, b), c), Merge(Merge(b, c), a), s,
      Content(a, Pos, s) + Content(b, Pos, s) + Content(c, Pos, s),
      Content(a, Neg, s) + Content(b, Neg, s) + Content(c, Neg, s),
      Content(b, Pos, s) + Content(c, Pos, s) + Content(a, Pos, s),
      Content(b, Neg, s) + Content(c, Neg, s) + Content(a, Neg, s));
  }

  lemma RotateTotals(a: Hist, b: Hist, c: Hist)
    requires WellFormed(a) && WellFormed(b) && WellFormed(c) && WellFormed(Merge(a, b)) && WellFormed(Merge(b, c))
    ensures Merge(Merge(a, b), c).totals == Merge(Merge(b, c), a).totals
    ensures Merge(Merge(a, b), c).maxSize == Merge(Merge(b, c), a).maxSize
  {
    MergeCanonical(a, b);
    MergeCanonical(b, c);
    MergeCanonical(Merge(a, b), c);
    MergeCanonical(Merge(b, c), a);
    CombineLaws(a.totals, b.totals, c.totals);
    CombineLaws(a.totals, Combine(b.totals, c.totals), NO_TOTALS);
  }
}
