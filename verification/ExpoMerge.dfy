/**
 Merging exponential histograms, and rebuilding one from an exported data point.
 Merging equals recording everything, whichever way the observations were split.
 */
module ExpoMerge {
  import opened ExpoIndex
  import opened ExpoBuckets
  import opened ExpoSpec
  import opened ExpoRecord
  import opened ExpoTheorems

  /** replay: add the buckets es, whose indexes are at srcScale, to one range of h. */
  function Replay(h: Hist, side: Side, es: seq<Entry>, srcScale: int): (r: Hist)
    requires MIN_SCALE <= h.scale <= srcScale
    ensures MIN_SCALE <= r.scale <= h.scale && r.maxSize == h.maxSize && r.totals == h.totals
    decreases |es|
  {
    if es == [] then h
    else
      var r, e := Replay(h, side, es[..|es| - 1], srcScale), es[|es| - 1];
      if e.n == 0 then r else AddCount(r, side, Shr(e.index, srcScale - r.scale), e.n)
  }

  /** Both ranges of src replayed into h. */
  function ReplayBoth(h: Hist, src: Hist): (r: Hist)
    requires MIN_SCALE <= h.scale <= src.scale
    ensures MIN_SCALE <= r.scale <= h.scale && r.maxSize == h.maxSize && r.totals == h.totals
  {
    Replay(Replay(h, Pos, EntriesOf(src.positive), src.scale), Neg, EntriesOf(src.negative), src.scale)
  }

  function Min(x: int, y: int): int { if y < x then y else x }

  /** mergeExpo */
  function Merge(a: Hist, b: Hist): (h: Hist)
    requires MIN_SCALE <= a.scale <= MAX_SCALE && MIN_SCALE <= b.scale <= MAX_SCALE
    ensures MIN_SCALE <= h.scale <= MAX_SCALE
  {
    var h0 := NewHist(Min(a.maxSize, b.maxSize), Min(a.scale, b.scale));
    var h1 := ReplayBoth(h0, a).(totals := Combine(NO_TOTALS, a.totals));
    ReplayBoth(h1, b).(totals := Combine(h1.totals, b.totals))
  }

  // ---- Replaying ----

  /** The entries that carry observations, with their indexes moved down by c scales. */
  function Moved(es: seq<Entry>, c: nat): (r: seq<Entry>)
    ensures Positive(r)
  {
    if es == [] then []
    else
      var rest, e := Moved(es[..|es| - 1], c), es[|es| - 1];
      if e.n == 0 then rest else rest + [Entry(Shr(e.index, c), e.n)]
  }

  lemma {:induction false} MovedWeight(es: seq<Entry>, c: nat, k: nat, j: int)
    ensures Weight(Moved(es, c), k, j) == Weight(es, c + k, j)
    decreases |es|
  {
    if es != [] {
      var rest, e := es[..|es| - 1], es[|es| - 1];
      MovedWeight(rest, c, k, j);
      ShrCompose(e.index, c, k);
      if e.n > 0 { WeightAppend(Moved(rest, c), Entry(Shr(e.index, c), e.n), k, j); }
    }
  }

  lemma ReplayLast(h: Hist, side: Side, es: seq<Entry>, srcScale: int)
    requires MIN_SCALE <= h.scale <= srcScale && es != []
    ensures var r, e := Replay(h, side, es[..|es| - 1], srcScale), es[|es| - 1];
            Replay(h, side, es, srcScale)
            == if e.n == 0 then r else AddCount(r, side, Shr(e.index, srcScale - r.scale), e.n)
  {
    hide AddCount;
  }

  lemma ReplayNothing(h: Hist, side: Side, srcScale: int, es: seq<Entry>, c: nat)
    requires MIN_SCALE <= h.scale <= srcScale
    ensures Replay(h, side, [], srcScale) == h && es + Moved([], c) == es
  {
  }

  lemma MovedLast(es: seq<Entry>, c: nat)
    requires es != []
    ensures var rest, e := Moved(es[..|es| - 1], c), es[|es| - 1];
            Moved(es, c) == if e.n == 0 then rest else rest + [Entry(Shr(e.index, c), e.n)]
  {
  }

  lemma ReplayPositiveStep(r: Hist, start: int, p: seq<Entry>, n: seq<Entry>, q: seq<Entry>, e: Entry, srcScale: int)
    requires Canonical(r, start, p + q, n) && MIN_SCALE <= r.scale <= start <= srcScale && e.n > 0
    ensures var m := Entry(Shr(e.index, srcScale - start), e.n);
            Canonical(AddCount(r, Pos, Shr(e.index, srcScale - r.scale), e.n), start, p + (q + [m]), n)
  {
    hide *;
    var m := Entry(Shr(e.index, srcScale - start), e.n);
    ShrCompose(e.index, srcScale - start, start - r.scale);
    AddToPositive(r, start, p + q, n, m);
    assert p + (q + [m]) == p + q + [m];
  }

  lemma {:induction false} ReplayPositive(h: Hist, start: int, p: seq<Entry>, n: seq<Entry>, es: seq<Entry>,
      srcScale: int)
    requires Canonical(h, start, p, n) && MIN_SCALE <= h.scale <= start <= srcScale
    ensures Canonical(Replay(h, Pos, es, srcScale), start, p + Moved(es, srcScale - start), n)
    decreases |es|
  {
    hide *;
    if es == [] {
      ReplayNothing(h, Pos, srcScale, p, srcScale - start);
    } else {
      var rest, e := es[..|es| - 1], es[|es| - 1];
      ReplayPositive(h, start, p, n, rest, srcScale);
      ReplayLast(h, Pos, es, srcScale);
      MovedLast(es, srcScale - start);
      if e.n > 0 {
        ReplayPositiveStep(Replay(h, Pos, rest, srcScale), start, p, n, Moved(rest, srcScale - start), e, srcScale);
      }
    }
  }

  lemma ReplayNegativeStep(r: Hist, start: int, p: seq<Entry>, n: seq<Entry>, q: seq<Entry>, e: Entry, srcScale: int)
    requires Canonical(r, start, p, n + q) && MIN_SCALE <= r.scale <= start <= srcScale && e.n > 0
    ensures var m := Entry(Shr(e.index, srcScale - start), e.n);
            Canonical(AddCount(r, Neg, Shr(e.index, srcScale - r.scale), e.n), start, p, n + (q + [m]))
  {
    hide *;
    var m := Entry(Shr(e.index, srcScale - start), e.n);
    ShrCompose(e.index, srcScale - start, start - r.scale);
    AddToNegative(r, start, p, n + q, m);
    assert n + (q + [m]) == n + q + [m];
  }

  lemma {:induction false} ReplayNegative(h: Hist, start: int, p: seq<Entry>, n: seq<Entry>, es: seq<Entry>,
      srcScale: int)
    requires Canonical(h, start, p, n) && MIN_SCALE <= h.scale <= start <= srcScale
    ensures Canonical(Replay(h, Neg, es, srcScale), start, p, n + Moved(es, srcScale - start))
    decreases |es|
  {
    hide *;
    if es == [] {
      ReplayNothing(h, Neg, srcScale, n, srcScale - start);
    } else {
      var rest, e := es[..|es| - 1], es[|es| - 1];
      ReplayNegative(h, start, p, n, rest, srcScale);
      ReplayLast(h, Neg, es, srcScale);
      MovedLast(es, srcScale - start);
      if e.n > 0 {
        ReplayNegativeStep(Replay(h, Neg, rest, srcScale), start, p, n, Moved(rest, srcScale - start), e, srcScale);
      }
    }
  }

  /** The observations a range stands for, at scale `start`, not above its own. */
  function Content(h: Hist, side: Side, start: int): (es: seq<Entry>)
    requires start <= h.scale
    ensures Positive(es)
  {
    Moved(EntriesOf(Range(h, side)), h.scale - start)
  }

  lemma ReplayTwo(h: Hist, start: int, p: seq<Entry>, n: seq<Entry>, ep: seq<Entry>, en: seq<Entry>, srcScale: int)
    requires Canonical(h, start, p, n) && start <= srcScale
    ensures Canonical(Replay(Replay(h, Pos, ep, srcScale), Neg, en, srcScale), start,
                      p + Moved(ep, srcScale - start), n + Moved(en, srcScale - start))
  {
    ReplayPositive(h, start, p, n, ep, srcScale);
    var r := Replay(h, Pos, ep, srcScale);
    ReplayNegative(r, start, p + Moved(ep, srcScale - start), n, en, srcScale);
  }

  lemma ReplayBothCanonical(h: Hist, start: int, p: seq<Entry>, n: seq<Entry>, src: Hist)
    requires Canonical(h, start, p, n) && start <= src.scale
    ensures Canonical(ReplayBoth(h, src), start, p + Content(src, Pos, start), n + Content(src, Neg, start))
  {
    hide Canonical, Replay, Moved;
    ReplayTwo(h, start, p, n, EntriesOf(src.positive), EntriesOf(src.negative), src.scale);
  }

  // ---- What a range stands for ----

  lemma ContentWeight(h: Hist, side: Side, start: int, j: int)
    requires start <= h.scale
    ensures Weight(Content(h, side, start), 0, j) == Weight(EntriesOf(Range(h, side)), h.scale - start, j)
  {
    MovedWeight(EntriesOf(Range(h, side)), h.scale - start, 0, j);
  }

  /** If a range is canonical for es after k downscalings, its content looks like es after the same and more. */
  lemma ContentAlike(h: Hist, side: Side, es: seq<Entry>, k: nat, start: int)
    requires start <= h.scale && Range(h, side) == Canon(es, k)
    ensures Alike(Content(h, side, start), 0, es, k + h.scale - start)
  {
    var b := Range(h, side);
    assert Alike(EntriesOf(b), 0, es, k) by {
      forall j ensures Weight(EntriesOf(b), 0, j) == Weight(es, k, j) {
        WeightOfBuckets(b, j);
        AtCanon(es, k, j);
      }
    }
    var c := h.scale - start;
    AlikeShift(EntriesOf(b), 0, es, k, c);
    forall j ensures Weight(Content(h, side, start), 0, j) == Weight(es, k + c, j) {
      ContentWeight(h, side, start, j);
    }
  }

  /** A histogram that is the canonical histogram of its own buckets. Every recorded and every merged one is. */
  ghost predicate WellFormed(h: Hist) {
    && MIN_SCALE <= h.scale <= MAX_SCALE && TotalsOk(h.totals)
    && Canonical(h, h.scale, Content(h, Pos, h.scale), Content(h, Neg, h.scale))
  }

  lemma AlikeFitsShifted(a: seq<Entry>, ka: nat, b: seq<Entry>, kb: nat, maxSize: int)
    requires Alike(a, ka, b, kb) && Positive(a) && Positive(b)
    ensures Fits(a, maxSize, ka) == Fits(b, maxSize, kb) && Canon(a, ka) == Canon(b, kb)
  {
    AlikeCanon(a, ka, b, kb);
  }

  lemma CanonicalIsWellFormed(h: Hist, start: int, p: seq<Entry>, n: seq<Entry>)
    requires Canonical(h, start, p, n) && h.scale <= MAX_SCALE && TotalsOk(h.totals)
    ensures WellFormed(h)
  {
    var cp, cn, k := Content(h, Pos, h.scale), Content(h, Neg, h.scale), start - h.scale;
    ContentAlike(h, Pos, p, k, h.scale);
    ContentAlike(h, Neg, n, k, h.scale);
    AlikeFitsShifted(cp, 0, p, k, h.maxSize);
    AlikeFitsShifted(cn, 0, n, k, h.maxSize);
    BestIs(cp, cn, h.maxSize, h.scale, h.scale);
  }

  lemma SameAtBothScales(low: int, es': seq<Entry>, high: int, es: seq<Entry>, t: int, maxSize: int)
    requires t <= low <= high && Alike(es', 0, es, high - low) && Positive(es') && Positive(es)
    ensures Fits(es, maxSize, high - t) == Fits(es', maxSize, low - t) && Canon(es, high - t) == Canon(es', low - t)
  {
    AlikeShift(es', 0, es, high - low, low - t);
    AlikeFitsShifted(es', low - t, es, high - t, maxSize);
  }

  /** A canonical histogram of observations at scale low, which look like p and n at scale high, is one for p and n too
      unless p and n would have fit at some scale in between. */
  lemma CanonicalFromHigher(h: Hist, low: int, p': seq<Entry>, n': seq<Entry>, high: int, p: seq<Entry>, n: seq<Entry>)
    requires Canonical(h, low, p', n') && low <= high && Positive(p) && Positive(n)
    requires Alike(p', 0, p, high - low) && Alike(n', 0, n, high - low)
    requires forall t :: low < t <= high ==> !BothFit(p, n, h.maxSize, high, t)
    ensures Canonical(h, high, p, n)
  {
    hide Alike, Fits, Canon, Positive;
    forall t | t <= low ensures BothFit(p, n, h.maxSize, high, t) == BothFit(p', n', h.maxSize, low, t) {
      SameAtBothScales(low, p', high, p, t, h.maxSize);
      SameAtBothScales(low, n', high, n, t, h.maxSize);
    }
    BestIs(p, n, h.maxSize, high, h.scale);
    SameAtBothScales(low, p', high, p, h.scale, h.maxSize);
    SameAtBothScales(low, n', high, n, h.scale, h.maxSize);
  }

  // ---- mergeExpo ----

  lemma CanonicalAnyTotals(h: Hist, t: Totals, start: int, p: seq<Entry>, n: seq<Entry>)
    requires Canonical(h, start, p, n)
    ensures Canonical(h.(totals := t), start, p, n)
  {
  }

  /** Merging well-formed histograms gives the canonical histogram of all their buckets at the lower of both scales. */
  lemma MergeCanonical(a: Hist, b: Hist)
    requires WellFormed(a) && WellFormed(b)
    ensures var s := Min(a.scale, b.scale);
            && Canonical(Merge(a, b), s, Content(a, Pos, s) + Content(b, Pos, s),
              Content(a, Neg, s) + Content(b, Neg, s))
            && Merge(a, b).totals == Combine(a.totals, b.totals)
            && Merge(a, b).maxSize == Min(a.maxSize, b.maxSize)
  {
    var s := Min(a.scale, b.scale);
    var h0 := NewHist(Min(a.maxSize, b.maxSize), s);
    NewIsCanonical(Min(a.maxSize, b.maxSize), s);
    CombineLaws(a.totals, b.totals, NO_TOTALS);
    MergeSteps(h0, a, b, s);
  }

  lemma MergeSteps(h0: Hist, a: Hist, b: Hist, s: int)
    requires Canonical(h0, s, [], []) && MIN_SCALE <= h0.scale <= s <= a.scale && s <= b.scale
    ensures var h1 := ReplayBoth(h0, a).(totals := Combine(NO_TOTALS, a.totals));
            var h2 := ReplayBoth(h1, b).(totals := Combine(h1.totals, b.totals));
            Canonical(h2, s, Content(a, Pos, s) + Content(b, Pos, s), Content(a, Neg, s) + Content(b, Neg, s))
  {
    hide *;
    var pa, na, pb, nb := Content(a, Pos, s), Content(a, Neg, s), Content(b, Pos, s), Content(b, Neg, s);
    ReplayBothCanonical(h0, s, [], [], a);
    assert [] + pa == pa && [] + na == na;
    var h1 := ReplayBoth(h0, a).(totals := Combine(NO_TOTALS, a.totals));
    CanonicalAnyTotals(ReplayBoth(h0, a), Combine(NO_TOTALS, a.totals), s, pa, na);
    ReplayBothCanonical(h1, s, pa, na, b);
    CanonicalAnyTotals(ReplayBoth(h1, b), Combine(h1.totals, b.totals), s, pa + pb, na + nb);
  }

  lemma MergeWellFormed(a: Hist, b: Hist)
    requires WellFormed(a) && WellFormed(b)
    ensures WellFormed(Merge(a, b))
  {
    var s := Min(a.scale, b.scale);
    MergeCanonical(a, b);
    CombineLaws(a.totals, b.totals, NO_TOTALS);
    CanonicalIsWellFormed(Merge(a, b), s, Content(a, Pos, s) + Content(b, Pos, s),
      Content(a, Neg, s) + Content(b, Neg, s));
  }

  lemma RecordedWellFormed(maxSize: int, maxScale: int, fs: seq<Float>)
    ensures WellFormed(Recorded(maxSize, maxScale, fs))
  {
    var start := NewHist(maxSize, maxScale).scale;
    RecordedIsCanonical(maxSize, maxScale, fs);
    RecordedTotals(maxSize, maxScale, fs);
    CanonicalIsWellFormed(Recorded(maxSize, maxScale, fs), start, Observed(fs, Pos, start), Observed(fs, Neg, start));
  }

  lemma AlikeConcat(a: seq<Entry>, b: seq<Entry>, c: seq<Entry>, d: seq<Entry>, k: nat)
    requires Alike(a, 0, c, k) && Alike(b, 0, d, k)
    ensures Alike(a + b, 0, c + d, k) && Alike(a + b, 0, d + c, k)
  {
    forall j ensures Weight(a + b, 0, j) == Weight(c + d, k, j) == Weight(d + c, k, j) {
      WeightConcat(a, b, 0, j);
      WeightConcat(c, d, k, j);
      WeightConcat(d, c, k, j);
    }
  }

  lemma SelfAlike(es: seq<Entry>)
    ensures Alike(es, 0, es, 0)
  {
  }

  lemma MergeCommutes(a: Hist, b: Hist)
    requires WellFormed(a) && WellFormed(b)
    ensures Merge(a, b) == Merge(b, a)
  {
    var s := Min(a.scale, b.scale);
    var pa, na, pb, nb := Content(a, Pos, s), Content(a, Neg, s), Content(b, Pos, s), Content(b, Neg, s);
    MergeCanonical(a, b);
    MergeCanonical(b, a);
    SelfAlike(pa); SelfAlike(pb); SelfAlike(na); SelfAlike(nb);
    AlikeConcat(pa, pb, pa, pb, 0);
    AlikeConcat(na, nb, na, nb, 0);
    CombineLaws(a.totals, b.totals, NO_TOTALS);
    CanonicalUnique(Merge(a, b), Merge(b, a), s, pa + pb, na + nb, pb + pa, nb + na);
  }
}
