/**
 Exported exponential data points: snapshot and expoHistogramFromPoint are inverse, so a
 cumulative series merged export by export equals one histogram of the whole stream.
 */
module ExpoPoint {
  import opened ExpoIndex
  import opened ExpoBuckets
  import opened ExpoSpec
  import opened ExpoRecord
  import opened ExpoTheorems
  import opened ExpoMerge
  import opened ExpoMergeTheorems

  datatype Extremum = Undefined | Defined(value: real)

  datatype Point = Point(
    count: nat, sum: real, scale: int, zeroCount: nat,
    positive: Buckets, negative: Buckets, min: Extremum, max: Extremum)

  predicate IsInt32(x: int) {
    -0x8000_0000 <= x <= 0x7fff_ffff
  }

  /** bucketOffset: an index that does not fit in 32 bits would become 0. */
  function SnapshotRange(b: Buckets): Buckets {
    Buckets(if IsInt32(b.offset) then b.offset else 0, b.counts)
  }

  function Snapshot(h: Hist): Point {
    Point(h.totals.count, h.totals.sum, h.scale, h.totals.zeroCount,
      SnapshotRange(h.positive), SnapshotRange(h.negative),
      if h.totals.count > 0 then Defined(h.totals.min) else Undefined,
      if h.totals.count > 0 then Defined(h.totals.max) else Undefined)
  }

  function ValueOr0(count: nat, e: Extremum): real {
    if count > 0 && e.Defined? then e.value else 0.0
  }

  /** expoHistogramFromPoint */
  function FromPoint(dp: Point, maxSize: int): (h: Hist)
    ensures MIN_SCALE <= h.scale <= MAX_SCALE
  {
    var h0 := NewHist(maxSize, dp.scale);
    var h1 := Replay(h0, Pos, EntriesOf(dp.positive), h0.scale);
    var h2 := Replay(h1, Neg, EntriesOf(dp.negative), h0.scale);
    h2.(totals := Totals(dp.count, dp.zeroCount, dp.sum, ValueOr0(dp.count, dp.min), ValueOr0(dp.count, dp.max)))
  }

  predicate OffsetsFit(h: Hist) {
    IsInt32(h.positive.offset) && IsInt32(h.negative.offset)
  }

  /** Rebuilding a histogram from its own data point gives the histogram back. */
  lemma FromPointInvertsSnapshot(h: Hist, maxSize: int)
    requires WellFormed(h) && OffsetsFit(h) && h.maxSize == NewHist(maxSize, h.scale).maxSize
    ensures FromPoint(Snapshot(h), maxSize) == h
  {
    hide Canonical, Replay, Moved, EntriesOf, Alike;
    var h0 := NewHist(maxSize, h.scale);
    NewIsCanonical(maxSize, h.scale);
    ReplayTwo(h0, h.scale, [], [], EntriesOf(h.positive), EntriesOf(h.negative), h.scale);
    var p, n := Content(h, Pos, h.scale), Content(h, Neg, h.scale);
    assert [] + p == p && [] + n == n;
    var h2 := Replay(Replay(h0, Pos, EntriesOf(h.positive), h.scale), Neg, EntriesOf(h.negative), h.scale);
    SelfAlike(p);
    SelfAlike(n);
    CanonicalUnique(h2, h, h.scale, p, n, p, n);
  }

  lemma OffsetFits(maxSize: int, maxScale: int, fs: seq<Float>, side: Side)
    requires forall f :: f in fs && f.Finite? ==> IsFloat64(f.mag)
    ensures IsInt32(Range(Recorded(maxSize, maxScale, fs), side).offset)
  {
    var h, start := Recorded(maxSize, maxScale, fs), NewHist(maxSize, maxScale).scale;
    RecordedIsCanonical(maxSize, maxScale, fs);
    if Observed(fs, side, start) != [] {
      var f, g := Extremes(fs, side, start);
      ShiftLaw(f.mag, start, start - h.scale);
      IndexBounds(f.mag, h.scale);
    }
  }

  /** addExponential: the previous cumulative point merged into the point of this export. */
  function AddExponential(point: Point, previous: Point, maxSize: int): Point {
    Snapshot(Merge(FromPoint(previous, maxSize), FromPoint(point, maxSize)))
  }

  function Flatten(exports: seq<seq<Float>>): seq<Float> {
    if exports == [] then [] else Flatten(exports[..|exports| - 1]) + exports[|exports| - 1]
  }

  /** The cumulative point of a series after a non-empty sequence of exports. */
  function Cumulative(maxSize: int, maxScale: int, exports: seq<seq<Float>>): Point
    requires exports != []
  {
    var point := Snapshot(Recorded(maxSize, maxScale, exports[|exports| - 1]));
    if |exports| == 1 then point
    else AddExponential(point, Cumulative(maxSize, maxScale, exports[..|exports| - 1]), maxSize)
  }

  predicate AllFloat64(fs: seq<Float>) {
    forall f :: f in fs && f.Finite? ==> IsFloat64(f.mag)
  }

  lemma RebuildRecorded(maxSize: int, maxScale: int, fs: seq<Float>)
    requires AllFloat64(fs)
    ensures FromPoint(Snapshot(Recorded(maxSize, maxScale, fs)), maxSize) == Recorded(maxSize, maxScale, fs)
  {
    RecordedWellFormed(maxSize, maxScale, fs);
    OffsetFits(maxSize, maxScale, fs, Pos);
    OffsetFits(maxSize, maxScale, fs, Neg);
    FromPointInvertsSnapshot(Recorded(maxSize, maxScale, fs), maxSize);
  }

  /** However a stream is split into exports, the cumulative point is the point of the whole stream. */
  lemma {:induction false} CumulativeIsWholeStream(maxSize: int, maxScale: int, exports: seq<seq<Float>>)
    requires exports != [] && AllFloat64(Flatten(exports))
    ensures Cumulative(maxSize, maxScale, exports) == Snapshot(Recorded(maxSize, maxScale, Flatten(exports)))
    decreases |exports|
  {
    var last := exports[|exports| - 1];
    var before := Flatten(exports[..|exports| - 1]);
    assert Flatten(exports) == before + last;
    if |exports| == 1 {
      assert exports[..0] == [];
      assert before + last == last;
    } else {
      assert forall f :: f in before || f in last ==> f in before + last;
      CumulativeIsWholeStream(maxSize, maxScale, exports[..|exports| - 1]);
      RebuildRecorded(maxSize, maxScale, before);
      RebuildRecorded(maxSize, maxScale, last);
      MergeOfParts(maxSize, maxScale, before, last);
    }
  }
}
