/**
 What the recorded histogram is, without reference to how it was computed, and that the
 order of the observations does not matter.
 */
module ExpoTheorems {
  import opened ExpoIndex
  import opened ExpoBuckets
  import opened ExpoSpec
  import opened ExpoRecord

  // ---- Concatenation ----

  lemma {:induction false} WeightConcat(a: seq<Entry>, b: seq<Entry>, k: nat, j: int)
    ensures Weight(a + b, k, j) == Weight(a, k, j) + Weight(b, k, j)
    decreases |b|
  {
    if b == [] {
      assert a + b == a;
    } else {
      WeightConcat(a, b[..|b| - 1], k, j);
      assert (a + b)[..|a + b| - 1] == a + b[..|b| - 1];
    }
  }

  lemma {:induction false} ObservedConcat(a: seq<Float>, b: seq<Float>, side: Side, scale: int)
    ensures Observed(a + b, side, scale) == Observed(a, side, scale) + Observed(b, side, scale)
    decreases |b|
  {
    if b == [] {
      assert a + b == a;
    } else {
      ObservedConcat(a, b[..|b| - 1], side, scale);
      assert (a + b)[..|a + b| - 1] == a + b[..|b| - 1];
    }
  }

  lemma TotalsLast(fs: seq<Float>, f: Float, t: Totals)
    requires t == TotalsOf(fs)
    ensures TotalsOf(fs + [f]) == Combine(t, TotalsOne(f))
  {
    assert (fs + [f])[..|fs + [f]| - 1] == fs;
  }

  lemma CombineAssoc(a: Totals, b: Totals, f: Totals, ab: Totals, bf: Totals)
    requires TotalsOk(a) && TotalsOk(b) && TotalsOk(f) && ab == Combine(a, b) && bf == Combine(b, f)
    ensures Combine(ab, f) == Combine(a, bf)
  {
    CombineLaws(a, b, f);
  }

  lemma {:induction false} TotalsConcat(a: seq<Float>, b: seq<Float>)
    ensures TotalsOf(a + b) == Combine(TotalsOf(a), TotalsOf(b))
    decreases |b|
  {
    hide Combine, TotalsOne;
    if b == [] {
      assert a + b == a;
      CombineLaws(TotalsOf(a), NO_TOTALS, NO_TOTALS);
    } else {
      var rest, f := b[..|b| - 1], b[|b| - 1];
      var ta, tr, tb, tab := TotalsOf(a), TotalsOf(rest), TotalsOf(b), TotalsOf(a + rest);
      TotalsConcat(a, rest);
      assert a + b == (a + rest) + [f] && b == rest + [f];
      TotalsLast(a + rest, f, tab);
      TotalsLast(rest, f, tr);
      CombineAssoc(ta, tr, TotalsOne(f), tab, tb);
    }
  }

  // ---- Order independence ----

  /** What the observations contribute: the weights on each side, and the totals. */
  ghost predicate SameObservations(a: seq<Float>, b: seq<Float>, scale: int) {
    && Alike(Observed(a, Pos, scale), 0, Observed(b, Pos, scale), 0)
    && Alike(Observed(a, Neg, scale), 0, Observed(b, Neg, scale), 0)
    && TotalsOf(a) == TotalsOf(b)
  }

  lemma SwapWeights(a: seq<Float>, b: seq<Float>, side: Side, scale: int)
    ensures Alike(Observed(a + b, side, scale), 0, Observed(b + a, side, scale), 0)
  {
    ObservedConcat(a, b, side, scale);
    ObservedConcat(b, a, side, scale);
    forall j ensures Weight(Observed(a + b, side, scale), 0, j) == Weight(Observed(b + a, side, scale), 0, j) {
      WeightConcat(Observed(a, side, scale), Observed(b, side, scale), 0, j);
      WeightConcat(Observed(b, side, scale), Observed(a, side, scale), 0, j);
    }
  }

  lemma SwapIsSame(a: seq<Float>, b: seq<Float>, scale: int)
    ensures SameObservations(a + b, b + a, scale)
  {
    SwapWeights(a, b, Pos, scale);
    SwapWeights(a, b, Neg, scale);
    TotalsConcat(a, b);
    TotalsConcat(b, a);
    CombineLaws(TotalsOf(a), TotalsOf(b), NO_TOTALS);
  }

  lemma PrependWeights(a: seq<Float>, b: seq<Float>, c: seq<Float>, side: Side, scale: int)
    requires Alike(Observed(b, side, scale), 0, Observed(c, side, scale), 0)
    ensures Alike(Observed(a + b, side, scale), 0, Observed(a + c, side, scale), 0)
  {
    ObservedConcat(a, b, side, scale);
    ObservedConcat(a, c, side, scale);
    forall j ensures Weight(Observed(a + b, side, scale), 0, j) == Weight(Observed(a + c, side, scale), 0, j) {
      WeightConcat(Observed(a, side, scale), Observed(b, side, scale), 0, j);
      WeightConcat(Observed(a, side, scale), Observed(c, side, scale), 0, j);
    }
  }

  lemma PrependIsSame(a: seq<Float>, b: seq<Float>, c: seq<Float>, scale: int)
    requires SameObservations(b, c, scale)
    ensures SameObservations(a + b, a + c, scale)
  {
    PrependWeights(a, b, c, Pos, scale);
    PrependWeights(a, b, c, Neg, scale);
    TotalsConcat(a, b);
    TotalsConcat(a, c);
  }

  lemma FindFirst(a: seq<Float>, b: seq<Float>) returns (i: nat)
    requires a != [] && multiset(a) == multiset(b)
    ensures i < |b| && b[i] == a[0] && multiset(a[1..]) == multiset(b[i + 1..] + b[..i])
  {
    assert a[0] in multiset(b);
    i :| i < |b| && b[i] == a[0];
    assert multiset(a) == multiset([a[0]]) + multiset(a[1..]) by { assert a == [a[0]] + a[1..]; }
    assert multiset(b) == multiset(b[..i]) + multiset([b[i]]) + multiset(b[i + 1..]) by {
      assert b == b[..i] + [b[i]] + b[i + 1..];
    }
    assert multiset(b[i + 1..] + b[..i]) == multiset(b[i + 1..]) + multiset(b[..i]);
    assert multiset(a[1..]) == multiset(a) - multiset([a[0]]);
  }

  lemma {:induction false} PermutedIsSame(a: seq<Float>, b: seq<Float>, scale: int)
    requires multiset(a) == multiset(b)
    ensures SameObservations(a, b, scale)
    decreases |a|
  {
    if a == [] {
      assert |multiset(b)| == 0;
    } else {
      var i := FindFirst(a, b);
      var x, before, after := b[i], b[..i], b[i + 1..];
      PermutedIsSame(a[1..], after + before, scale);
      PrependIsSame([x], a[1..], after + before, scale);
      assert a == [x] + a[1..];
      assert [x] + (after + before) == ([x] + after) + before;
      SwapIsSame([x] + after, before, scale);
      assert b == before + ([x] + after);
    }
  }

  /** The recorded histogram depends only on the multiset of observed values. */
  lemma OrderIndependent(maxSize: int, maxScale: int, a: seq<Float>, b: seq<Float>)
    requires multiset(a) == multiset(b)
    ensures Recorded(maxSize, maxScale, a) == Recorded(maxSize, maxScale, b)
  {
    var start := NewHist(maxSize, maxScale).scale;
    PermutedIsSame(a, b, start);
    RecordedIsCanonical(maxSize, maxScale, a);
    RecordedIsCanonical(maxSize, maxScale, b);
    RecordedTotals(maxSize, maxScale, a);
    RecordedTotals(maxSize, maxScale, b);
    CanonicalUnique(Recorded(maxSize, maxScale, a), Recorded(maxSize, maxScale, b), start,
      Observed(a, Pos, start), Observed(a, Neg, start), Observed(b, Pos, start), Observed(b, Neg, start));
  }

  // ---- What the buckets hold ----

  /** How many observations on one side have index j at the given scale. */
  function CountAt(fs: seq<Float>, side: Side, scale: int, j: int): nat {
    if fs == [] then 0
    else
      var f := fs[|fs| - 1];
      CountAt(fs[..|fs| - 1], side, scale, j) + (if OnSide(f, side) && Index(f.mag, scale) == j then 1 else 0)
  }

  lemma {:induction false} CountIsWeight(fs: seq<Float>, side: Side, start: int, k: nat, j: int)
    ensures Weight(Observed(fs, side, start), k, j) == CountAt(fs, side, start - k, j)
    decreases |fs|
  {
    if fs != [] {
      var rest, f := fs[..|fs| - 1], fs[|fs| - 1];
      CountIsWeight(rest, side, start, k, j);
      if OnSide(f, side) {
        ShiftLaw(f.mag, start, k);
        WeightAppend(Observed(rest, side, start), Entry(Index(f.mag, start), 1), k, j);
      }
    }
  }

  /** Each bucket counts exactly the observations whose index at the final scale is the bucket's. */
  lemma BucketsCountObservations(maxSize: int, maxScale: int, fs: seq<Float>, side: Side, j: int)
    ensures var h := Recorded(maxSize, maxScale, fs);
            At(Range(h, side), j) == CountAt(fs, side, h.scale, j)
  {
    hide Recorded, Observed, CountAt;
    var h, start := Recorded(maxSize, maxScale, fs), NewHist(maxSize, maxScale).scale;
    RecordedIsCanonical(maxSize, maxScale, fs);
    AtCanon(Observed(fs, side, start), start - h.scale, j);
    CountIsWeight(fs, side, start, start - h.scale, j);
  }

  lemma CanonIsTight(es: seq<Entry>, k: nat)
    requires Positive(es)
    ensures var b := Canon(es, k);
            if b.counts == [] then b.offset == 0 else b.counts[0] > 0 && b.counts[|b.counts| - 1] > 0
  {
    if es != [] {
      LowHigh(es, k);
      EndsAreCounted(es, k);
    }
  }

  /** No range starts or ends with an empty bucket. */
  lemma RangesAreTight(maxSize: int, maxScale: int, fs: seq<Float>, side: Side)
    ensures var b := Range(Recorded(maxSize, maxScale, fs), side);
            if b.counts == [] then b.offset == 0 else b.counts[0] > 0 && b.counts[|b.counts| - 1] > 0
  {
    var h, start := Recorded(maxSize, maxScale, fs), NewHist(maxSize, maxScale).scale;
    RecordedIsCanonical(maxSize, maxScale, fs);
    CanonIsTight(Observed(fs, side, start), start - h.scale);
  }

  // ---- The scale ----

  /** Some observation on this side has the least index, and some the greatest. */
  lemma {:induction false} Extremes(fs: seq<Float>, side: Side, scale: int) returns (f: Float, g: Float)
    requires Observed(fs, side, scale) != []
    ensures f in fs && OnSide(f, side) && Index(f.mag, scale) == Low(Observed(fs, side, scale))
    ensures g in fs && OnSide(g, side) && Index(g.mag, scale) == High(Observed(fs, side, scale))
    decreases |fs|
  {
    var rest, last := fs[..|fs| - 1], fs[|fs| - 1];
    if Observed(rest, side, scale) == [] {
      f, g := last, last;
    } else {
      f, g := Extremes(rest, side, scale);
      if OnSide(last, side) {
        assert Observed(fs, side, scale)[..|Observed(fs, side, scale)| - 1] == Observed(rest, side, scale);
        if Index(last.mag, scale) < Index(f.mag, scale) { f := last; }
        if Index(last.mag, scale) > Index(g.mag, scale) { g := last; }
      }
    }
  }

  /** Two observations on one side of zero are at least maxSize buckets apart at scale t. */
  ghost predicate TooWide(fs: seq<Float>, maxSize: int, t: int) {
    exists side, f, g :: f in fs && g in fs && OnSide(f, side) && OnSide(g, side)
      && Index(g.mag, t) - Index(f.mag, t) >= maxSize
  }

  lemma NotFittingIsTooWide(fs: seq<Float>, side: Side, maxSize: int, start: int, t: int)
    requires t <= start && !Fits(Observed(fs, side, start), maxSize, start - t)
    ensures TooWide(fs, maxSize, t)
  {
    var f, g := Extremes(fs, side, start);
    ShiftLaw(f.mag, start, start - t);
    ShiftLaw(g.mag, start, start - t);
  }

  /** The scale is as fine as maxSize allows: at every finer scale some two observations were too far apart. */
  lemma ScaleIsBest(maxSize: int, maxScale: int, fs: seq<Float>, t: int)
    requires Recorded(maxSize, maxScale, fs).scale < t <= NewHist(maxSize, maxScale).scale
    ensures TooWide(fs, NewHist(maxSize, maxScale).maxSize, t)
  {
    var h0 := NewHist(maxSize, maxScale);
    RecordedIsCanonical(maxSize, maxScale, fs);
    var p, n := Observed(fs, Pos, h0.scale), Observed(fs, Neg, h0.scale);
    assert !BothFit(p, n, h0.maxSize, h0.scale, t);
    if !Fits(p, h0.maxSize, h0.scale - t) {
      NotFittingIsTooWide(fs, Pos, h0.maxSize, h0.scale, t);
    } else {
      NotFittingIsTooWide(fs, Neg, h0.maxSize, h0.scale, t);
    }
  }

  /** A range holds at most maxSize buckets, except at the coarsest scale, where three always suffice. */
  lemma RangesFit(maxSize: int, maxScale: int, fs: seq<Float>, side: Side)
    requires forall f :: f in fs && f.Finite? ==> IsFloat64(f.mag)
    ensures var h := Recorded(maxSize, maxScale, fs);
            |Range(h, side).counts| <= h.maxSize || (h.scale == MIN_SCALE && |Range(h, side).counts| <= 3)
  {
    hide Recorded, Observed;
    var h, start := Recorded(maxSize, maxScale, fs), NewHist(maxSize, maxScale).scale;
    var es := Observed(fs, side, start);
    RecordedIsCanonical(maxSize, maxScale, fs);
    if es != [] && h.scale == MIN_SCALE {
      var f, g := Extremes(fs, side, start);
      ShiftLaw(f.mag, start, start - h.scale);
      ShiftLaw(g.mag, start, start - h.scale);
      CoarsestBuckets(f.mag);
      CoarsestBuckets(g.mag);
    }
  }

  // ---- Nothing is lost ----

  function Sum(c: seq<nat>): nat {
    if c == [] then 0 else Sum(c[..|c| - 1]) + c[|c| - 1]
  }

  function TotalN(es: seq<Entry>): nat {
    if es == [] then 0 else TotalN(es[..|es| - 1]) + es[|es| - 1].n
  }

  function Weights(es: seq<Entry>, k: nat, first: int, len: nat): (c: seq<nat>)
    ensures |c| == len
  {
    seq<nat>(len, i => Weight(es, k, first + i))
  }

  lemma {:induction false} SumOfWeights(es: seq<Entry>, e: Entry, k: nat, first: int, len: nat)
    ensures Sum(Weights(es + [e], k, first, len))
            == Sum(Weights(es, k, first, len)) + (if first <= Shr(e.index, k) < first + len then e.n else 0)
    decreases len
  {
    if len > 0 {
      SumOfWeights(es, e, k, first, len - 1);
      WeightAppend(es, e, k, first + len - 1);
      assert Weights(es, k, first, len)[..len - 1] == Weights(es, k, first, len - 1);
      assert Weights(es + [e], k, first, len)[..len - 1] == Weights(es + [e], k, first, len - 1);
    }
  }

  lemma {:induction false} SumOfNothing(k: nat, first: int, len: nat)
    ensures Sum(Weights([], k, first, len)) == 0
    decreases len
  {
    if len > 0 {
      SumOfNothing(k, first, len - 1);
      assert Weights([], k, first, len)[..len - 1] == Weights([], k, first, len - 1);
      assert Weights([], k, first, len)[len - 1] == Weight([], k, first + len - 1) == 0;
    }
  }

  lemma {:induction false} SumIsTotal(es: seq<Entry>, k: nat, first: int, len: nat)
    requires forall i :: 0 <= i < |es| ==> first <= Shr(es[i].index, k) < first + len
    ensures Sum(Weights(es, k, first, len)) == TotalN(es)
    decreases |es|
  {
    if es == [] {
      SumOfNothing(k, first, len);
    } else {
      var rest, e := es[..|es| - 1], es[|es| - 1];
      SumIsTotal(rest, k, first, len);
      SumOfWeights(rest, e, k, first, len);
      assert es == rest + [e];
    }
  }

  lemma CanonSum(es: seq<Entry>, k: nat)
    ensures Sum(Canon(es, k).counts) == TotalN(es)
  {
    if es != [] {
      LowHigh(es, k);
      forall i | 0 <= i < |es| ensures Shr(Low(es), k) <= Shr(es[i].index, k) <= Shr(High(es), k) {
        ShrMonotone(Low(es), es[i].index, k);
        ShrMonotone(es[i].index, High(es), k);
      }
      var first, len := Shr(Low(es), k), |Canon(es, k).counts|;
      assert Canon(es, k).counts == Weights(es, k, first, len);
      SumIsTotal(es, k, first, len);
    }
  }

  lemma {:induction false} ObservedSizes(fs: seq<Float>, scale: int)
    ensures TotalsOf(fs).count
            == TotalsOf(fs).zeroCount + TotalN(Observed(fs, Pos, scale)) + TotalN(Observed(fs, Neg, scale))
    decreases |fs|
  {
    if fs != [] {
      var rest, f := fs[..|fs| - 1], fs[|fs| - 1];
      ObservedSizes(rest, scale);
      if OnSide(f, Pos) { TotalAppend(Observed(rest, Pos, scale), Entry(Index(f.mag, scale), 1)); }
      if OnSide(f, Neg) { TotalAppend(Observed(rest, Neg, scale), Entry(Index(f.mag, scale), 1)); }
    }
  }

  lemma TotalAppend(es: seq<Entry>, e: Entry)
    ensures TotalN(es + [e]) == TotalN(es) + e.n
  {
    assert (es + [e])[..|es|] == es;
  }

  /** Every counted observation is in exactly one bucket or counted as zero. */
  lemma NothingIsLost(maxSize: int, maxScale: int, fs: seq<Float>)
    ensures var h := Recorded(maxSize, maxScale, fs);
            h.totals.count == h.totals.zeroCount + Sum(h.positive.counts) + Sum(h.negative.counts)
  {
    var h, start := Recorded(maxSize, maxScale, fs), NewHist(maxSize, maxScale).scale;
    RecordedIsCanonical(maxSize, maxScale, fs);
    RecordedTotals(maxSize, maxScale, fs);
    CanonSum(Observed(fs, Pos, start), start - h.scale);
    CanonSum(Observed(fs, Neg, start), start - h.scale);
    ObservedSizes(fs, start);
  }

  // ---- Extrema ----

  ghost predicate IsExtrema(fs: seq<Float>, min: real, max: real) {
    && (exists f :: f in fs && f.Finite? && f.v == min)
    && (exists f :: f in fs && f.Finite? && f.v == max)
    && (forall f :: f in fs && f.Finite? ==> min <= f.v <= max)
  }

  lemma {:induction false} TotalsExtrema(fs: seq<Float>)
    ensures TotalsOf(fs).count == 0 ==> forall f :: f in fs ==> f.NotFinite?
    ensures TotalsOf(fs).count > 0 ==> IsExtrema(fs, TotalsOf(fs).min, TotalsOf(fs).max)
    decreases |fs|
  {
    if fs != [] {
      var rest, last := fs[..|fs| - 1], fs[|fs| - 1];
      assert fs == rest + [last];
      assert last in fs;
      assert forall f :: f in fs <==> f in rest || f == last;
      TotalsExtrema(rest);
      var t, u := TotalsOf(rest), TotalsOf(fs);
      if u.count > 0 {
        if t.count > 0 {
          var a, b :| a in rest && a.Finite? && a.v == t.min && b in rest && b.Finite? && b.v == t.max;
          assert (if last.Finite? && last.v < t.min then last else a).v == u.min;
          assert (if last.Finite? && last.v > t.max then last else b).v == u.max;
        } else {
          assert last.Finite? && last.v == u.min == u.max;
        }
      }
    }
  }

  /** min and max are the least and the greatest finite observation. */
  lemma RecordedExtrema(maxSize: int, maxScale: int, fs: seq<Float>)
    ensures var t := Recorded(maxSize, maxScale, fs).totals;
            t.count > 0 ==> IsExtrema(fs, t.min, t.max)
  {
    RecordedTotals(maxSize, maxScale, fs);
    TotalsExtrema(fs);
  }
}
