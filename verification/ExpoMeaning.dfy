/**
 What an exported exponential data point says about the stream of observations behind it: number, sum, zeros, extremes
 and the counts of both ranges, each defined on the stream alone.
 */
module ExpoMeaning {
  import opened ExpoIndex
  import opened ExpoBuckets
  import opened ExpoSpec
  import opened ExpoRecord
  import opened ExpoTheorems
  import opened ExpoPoint

  // ---- what a stream holds ----

  function FiniteValues(fs: seq<Float>): seq<real> {
    if fs == [] then [] else (if fs[0].Finite? then [fs[0].v] else []) + FiniteValues(fs[1..])
  }

  function SumOf(vs: seq<real>): real {
    if vs == [] then 0.0 else vs[0] + SumOf(vs[1..])
  }

  function Zeros(vs: seq<real>): nat {
    if vs == [] then 0 else (if vs[0] == 0.0 then 1 else 0) + Zeros(vs[1..])
  }

  /** The number of positive values with bucket index j. */
  function PositivesAt(fs: seq<Float>, scale: int, j: int): nat {
    if fs == [] then 0
    else
      (if fs[0].Finite? && fs[0].v > 0.0 && Index(fs[0].mag, scale) == j then 1 else 0) + PositivesAt(fs[1..], scale, j)
  }

  /** The number of negative values whose magnitude has bucket index j. */
  function NegativesAt(fs: seq<Float>, scale: int, j: int): nat {
    if fs == [] then 0
    else
      (if fs[0].Finite? && fs[0].v < 0.0 && Index(fs[0].mag, scale) == j then 1 else 0) + NegativesAt(fs[1..], scale, j)
  }

  predicate IsLeast(v: real, vs: seq<real>) {
    v in vs && forall x :: x in vs ==> v <= x
  }

  predicate IsGreatest(v: real, vs: seq<real>) {
    v in vs && forall x :: x in vs ==> x <= v
  }

  // ---- one value more ----

  lemma FirstValue(fs: seq<Float>)
    requires fs != []
    ensures FiniteValues(fs) == (if fs[0].Finite? then [fs[0].v] else []) + FiniteValues(fs[1..])
  {
  }

  lemma NoValues()
    ensures FiniteValues([]) == []
  {
  }

  lemma {:induction false} OneMoreValue(fs: seq<Float>, f: Float)
    ensures FiniteValues(fs + [f]) == FiniteValues(fs) + if f.Finite? then [f.v] else []
  {
    hide FiniteValues;
    FirstValue(fs + [f]);
    if fs == [] {
      NoValues();
      assert (fs + [f])[1..] == [];
    } else {
      FirstValue(fs);
      assert (fs + [f])[1..] == fs[1..] + [f];
      OneMoreValue(fs[1..], f);
    }
  }

  lemma {:induction false} OneMoreSum(vs: seq<real>, v: real)
    ensures SumOf(vs + [v]) == SumOf(vs) + v
    ensures Zeros(vs + [v]) == Zeros(vs) + if v == 0.0 then 1 else 0
  {
    if vs == [] {
      assert (vs + [v])[1..] == [];
    } else {
      assert (vs + [v])[1..] == vs[1..] + [v];
      OneMoreSum(vs[1..], v);
    }
  }

  lemma {:induction false} OneMoreCount(fs: seq<Float>, f: Float, scale: int, j: int)
    ensures PositivesAt(fs + [f], scale, j) ==
      PositivesAt(fs, scale, j) + if f.Finite? && f.v > 0.0 && Index(f.mag, scale) == j then 1 else 0
    ensures NegativesAt(fs + [f], scale, j) ==
      NegativesAt(fs, scale, j) + if f.Finite? && f.v < 0.0 && Index(f.mag, scale) == j then 1 else 0
  {
    hide Index;
    if fs == [] {
      assert (fs + [f])[1..] == [];
    } else {
      assert (fs + [f])[1..] == fs[1..] + [f];
      OneMoreCount(fs[1..], f, scale, j);
    }
  }

  // ---- the recorded histogram ----

  lemma {:induction false} TotalsMean(fs: seq<Float>)
    ensures var t, vs := TotalsOf(fs), FiniteValues(fs);
            t.count == |vs| && t.sum == SumOf(vs) && t.zeroCount == Zeros(vs)
    decreases |fs|
  {
    if fs != [] {
      var init, f := fs[..|fs| - 1], fs[|fs| - 1];
      TotalsMean(init);
      assert fs == init + [f];
      OneMoreValue(init, f);
      if f.Finite? { OneMoreSum(FiniteValues(init), f.v); }
      else { assert FiniteValues(init) + [] == FiniteValues(init); }
    }
  }

  /** Count, zero count and sum of a recorded histogram are those of the finite values of the stream. */
  lemma RecordedMeans(maxSize: int, maxScale: int, fs: seq<Float>)
    ensures var t, vs := Recorded(maxSize, maxScale, fs).totals, FiniteValues(fs);
            t.count == |vs| && t.sum == SumOf(vs) && t.zeroCount == Zeros(vs)
  {
    hide Recorded, TotalsOf;
    RecordedTotals(maxSize, maxScale, fs);
    TotalsMean(fs);
  }

  lemma {:induction false} CountsMean(fs: seq<Float>, scale: int, j: int)
    ensures CountAt(fs, Pos, scale, j) == PositivesAt(fs, scale, j)
    ensures CountAt(fs, Neg, scale, j) == NegativesAt(fs, scale, j)
    decreases |fs|
  {
    hide Index;
    if fs != [] {
      var init, f := fs[..|fs| - 1], fs[|fs| - 1];
      CountsMean(init, scale, j);
      OneMoreCount(init, f, scale, j);
      assert fs == init + [f];
    }
  }

  lemma {:induction false} ValueOfStream(fs: seq<Float>, v: real)
    ensures v in FiniteValues(fs) <==> exists f :: f in fs && f.Finite? && f.v == v
  {
    if fs != [] {
      ValueOfStream(fs[1..], v);
      assert fs == [fs[0]] + fs[1..];
    }
  }

  lemma ExtremaMean(fs: seq<Float>, min: real, max: real)
    requires IsExtrema(fs, min, max)
    ensures IsLeast(min, FiniteValues(fs)) && IsGreatest(max, FiniteValues(fs))
  {
    hide FiniteValues;
    forall v ensures v in FiniteValues(fs) <==> exists f :: f in fs && f.Finite? && f.v == v { ValueOfStream(fs, v); }
  }

  // ---- the data point ----

  /** Everything a data point says is true of the stream. */
  ghost predicate Describes(p: Point, fs: seq<Float>) {
    var vs := FiniteValues(fs);
    && p.count == |vs| && p.sum == SumOf(vs) && p.zeroCount == Zeros(vs)
    && (vs == [] ==> p.min == Undefined && p.max == Undefined)
    && (vs != [] ==> p.min.Defined? && p.max.Defined? && IsLeast(p.min.value, vs) && IsGreatest(p.max.value, vs))
    && (forall j :: At(p.positive, j) == PositivesAt(fs, p.scale, j))
    && (forall j :: At(p.negative, j) == NegativesAt(fs, p.scale, j))
  }

  /** The point of a histogram describes what was recorded. */
  lemma SnapshotDescribes(maxSize: int, maxScale: int, fs: seq<Float>)
    requires AllFloat64(fs)
    ensures Describes(Snapshot(Recorded(maxSize, maxScale, fs)), fs)
  {
    hide Recorded, FiniteValues, PositivesAt, NegativesAt, IsExtrema, IsLeast, IsGreatest;
    var h := Recorded(maxSize, maxScale, fs);
    RecordedMeans(maxSize, maxScale, fs);
    RecordedExtrema(maxSize, maxScale, fs);
    if h.totals.count > 0 { ExtremaMean(fs, h.totals.min, h.totals.max); }
    OffsetFits(maxSize, maxScale, fs, Pos);
    OffsetFits(maxSize, maxScale, fs, Neg);
    forall j
      ensures At(h.positive, j) == PositivesAt(fs, h.scale, j) && At(h.negative, j) == NegativesAt(fs, h.scale, j)
    {
      BucketsCountObservations(maxSize, maxScale, fs, Pos, j);
      BucketsCountObservations(maxSize, maxScale, fs, Neg, j);
      CountsMean(fs, h.scale, j);
    }
  }

  /** However a stream is split into exports, the cumulative point describes the whole stream. */
  lemma CumulativeDescribes(maxSize: int, maxScale: int, exports: seq<seq<Float>>)
    requires exports != [] && AllFloat64(Flatten(exports))
    ensures Describes(Cumulative(maxSize, maxScale, exports), Flatten(exports))
  {
    hide *;
    CumulativeIsWholeStream(maxSize, maxScale, exports);
    SnapshotDescribes(maxSize, maxScale, Flatten(exports));
  }

  // ---- the scale ----

  function Between(low: int, x: int, high: int): int {
    if x < low then low else if high < x then high else x
  }

  /**
   Recording starts at the configured scale, brought into [-10, 20], and stays at the finest scale from there on at
   which no two values of one sign are maxSize buckets apart, a size below 2 counting as 2; or at -10.
   */
  lemma ScaleMeans(maxSize: int, maxScale: int, fs: seq<Float>, side: Side, t: int)
    requires AllFloat64(fs)
    ensures var h, size := Recorded(maxSize, maxScale, fs), if maxSize < 2 then 2 else maxSize;
            && -10 <= h.scale <= Between(-10, maxScale, 20)
            && (h.scale < t <= Between(-10, maxScale, 20) ==> TooWide(fs, size, t))
            && (|Range(h, side).counts| <= size || (h.scale == -10 && |Range(h, side).counts| <= 3))
  {
    hide Recorded, TooWide, Range;
    var h0 := NewHist(maxSize, maxScale);
    assert h0.scale == Between(-10, maxScale, 20);
    if Recorded(maxSize, maxScale, fs).scale < t <= h0.scale { ScaleIsBest(maxSize, maxScale, fs, t); }
    RangesFit(maxSize, maxScale, fs, side);
  }
}
