/**
 Recording: the histogram after any finite sequence of observations is a function of the
 multiset of observed values alone.
 */
module ExpoRecord {
  import opened ExpoIndex
  import opened ExpoBuckets
  import opened ExpoSpec

  /** A float64 observation. `mag` is the Frexp split of |v| and is not looked at when v is zero. */
  datatype Float = NotFinite | Finite(v: real, mag: Magnitude)

  /** The totals of a single observation. */
  function One(v: real): Totals {
    Totals(1, if v == 0.0 then 1 else 0, v, v, v)
  }

  /** record */
  function Record(h: Hist, f: Float): (r: Hist)
    requires MIN_SCALE <= h.scale
    ensures MIN_SCALE <= r.scale <= h.scale && r.maxSize == h.maxSize
  {
    if f.NotFinite? then h
    else
      var counted := h.(totals := Combine(h.totals, One(f.v)));
      if f.v > 0.0 then AddCount(counted, Pos, Index(f.mag, h.scale), 1)
      else if f.v < 0.0 then AddCount(counted, Neg, Index(f.mag, h.scale), 1)
      else counted
  }

  /** The histogram after recording fs one by one into a new one. */
  function Recorded(maxSize: int, maxScale: int, fs: seq<Float>): (h: Hist)
    ensures MIN_SCALE <= h.scale <= NewHist(maxSize, maxScale).scale && h.maxSize == NewHist(maxSize, maxScale).maxSize
  {
    if fs == [] then NewHist(maxSize, maxScale)
    else Record(Recorded(maxSize, maxScale, fs[..|fs| - 1]), fs[|fs| - 1])
  }

  // ---- What was observed ----

  predicate OnSide(f: Float, side: Side) {
    f.Finite? && if side == Pos then f.v > 0.0 else f.v < 0.0
  }

  /** The indexes at `scale` of the observations on one side of zero. */
  function Observed(fs: seq<Float>, side: Side, scale: int): (es: seq<Entry>)
    ensures Positive(es)
  {
    if fs == [] then []
    else
      var rest, f := Observed(fs[..|fs| - 1], side, scale), fs[|fs| - 1];
      if OnSide(f, side) then rest + [Entry(Index(f.mag, scale), 1)] else rest
  }

  function TotalsOne(f: Float): (t: Totals)
    ensures TotalsOk(t)
  {
    if f.Finite? then One(f.v) else NO_TOTALS
  }

  function TotalsOf(fs: seq<Float>): (t: Totals)
    ensures TotalsOk(t)
  {
    if fs == [] then NO_TOTALS
    else
      Combine(TotalsOf(fs[..|fs| - 1]), TotalsOne(fs[|fs| - 1]))
  }

  lemma NewIsCanonical(maxSize: int, maxScale: int)
    ensures Canonical(NewHist(maxSize, maxScale), NewHist(maxSize, maxScale).scale, [], [])
  {
  }

  lemma RecordZero(h: Hist, start: int, p: seq<Entry>, n: seq<Entry>, f: Float)
    requires Canonical(h, start, p, n) && !OnSide(f, Pos) && !OnSide(f, Neg)
    ensures Canonical(Record(h, f), start, p, n)
  {
  }

  lemma RecordPositive(h: Hist, start: int, p: seq<Entry>, n: seq<Entry>, f: Float)
    requires Canonical(h, start, p, n) && OnSide(f, Pos)
    ensures Canonical(Record(h, f), start, p + [Entry(Index(f.mag, start), 1)], n)
  {
    ShiftLaw(f.mag, start, start - h.scale);
    AddToPositive(h.(totals := Combine(h.totals, One(f.v))), start, p, n, Entry(Index(f.mag, start), 1));
  }

  lemma RecordNegative(h: Hist, start: int, p: seq<Entry>, n: seq<Entry>, f: Float)
    requires Canonical(h, start, p, n) && OnSide(f, Neg)
    ensures Canonical(Record(h, f), start, p, n + [Entry(Index(f.mag, start), 1)])
  {
    ShiftLaw(f.mag, start, start - h.scale);
    AddToNegative(h.(totals := Combine(h.totals, One(f.v))), start, p, n, Entry(Index(f.mag, start), 1));
  }

  /** Every recorded histogram is canonical for what was observed. */
  lemma {:induction false} RecordedIsCanonical(maxSize: int, maxScale: int, fs: seq<Float>)
    ensures var start := NewHist(maxSize, maxScale).scale;
            Canonical(Recorded(maxSize, maxScale, fs), start, Observed(fs, Pos, start), Observed(fs, Neg, start))
    decreases |fs|
  {
    if fs == [] {
      NewIsCanonical(maxSize, maxScale);
    } else {
      var start := NewHist(maxSize, maxScale).scale;
      var rest, f := fs[..|fs| - 1], fs[|fs| - 1];
      var h, p, n := Recorded(maxSize, maxScale, rest), Observed(rest, Pos, start), Observed(rest, Neg, start);
      RecordedIsCanonical(maxSize, maxScale, rest);
      if OnSide(f, Pos) {
        RecordPositive(h, start, p, n, f);
        assert Observed(fs, Neg, start) == n;
      } else if OnSide(f, Neg) {
        RecordNegative(h, start, p, n, f);
        assert Observed(fs, Pos, start) == p;
      } else {
        RecordZero(h, start, p, n, f);
        assert Observed(fs, Pos, start) == p && Observed(fs, Neg, start) == n;
      }
    }
  }

  lemma {:induction false} RecordedTotals(maxSize: int, maxScale: int, fs: seq<Float>)
    ensures Recorded(maxSize, maxScale, fs).totals == TotalsOf(fs)
    decreases |fs|
  {
    if fs != [] { RecordedTotals(maxSize, maxScale, fs[..|fs| - 1]); }
  }
}
