/**
 One series of the OTLP accumulator over any number of exports: which points it sends, with which start,
 time and value, in cumulative and in delta temporality.
 */
module Accumulator {
  import Expo = ExpoPoint
  import ExpoRecord
  import Explicit = ExplicitBuckets
  import opened Options

  /** Nanoseconds; 0 is the zero time.Time. */
  type Time = nat

  const MIN_POINT_SPACING := 1_000_000

  datatype Value = Sum(total: real) | Histogram(hist: Explicit.Hist) | Exponential(point: Expo.Point)

  /** A point as observed in one export; a sum has one for every observation, a histogram one per export. */
  datatype Input = Input(value: Value, time: Time)

  /** The committed state; the running value is kept in cumulative temporality only. */
  datatype Series = Series(start: Time, last: Time, value: Option<Value>)

  /** A point as sent. */
  datatype Output = Output(start: Time, time: Time, value: Value)

  /** `previous` added to the point of this export; a series keeps its kind. */
  function Combine(point: Value, previous: Value, maxSize: int): Value {
    if point.Sum? && previous.Sum? then Sum(previous.total + point.total)
    else if point.Histogram? && previous.Histogram? then Histogram(Explicit.AddHistogram(point.hist, previous.hist))
    else if point.Exponential? && previous.Exponential? then
      Exponential(Expo.AddExponential(point.point, previous.point, maxSize))
    else point
  }

  function Max(a: Time, b: Time): Time {
    if a < b then b else a
  }

  function Floor(exported: Time, cumulative: bool): Time {
    if cumulative && exported != 0 then exported + MIN_POINT_SPACING else exported
  }

  /** pointTime */
  function PointTime(last: Time, observed: Time, exported: Time, cumulative: bool): Time {
    Max(Max(observed, Floor(exported, cumulative)), last)
  }

  /** sumPoint, histogramPoint and exponentialPoint; `exported` is the time of the point before this export. */
  function Step(cumulative: bool, maxSize: int, exported: Time, s: Option<Series>, x: Input): (Series, Output) {
    var start := if s.None? then x.time else s.value.start;
    var last := if s.None? then 0 else s.value.last;
    var value :=
      if cumulative && s.Some? && s.value.value.Some? then Combine(x.value, s.value.value.value, maxSize) else x.value;
    var time := PointTime(last, x.time, exported, cumulative);
    (Series(start, time, if cumulative then Some(value) else None),
     Output(if !cumulative && last != 0 then last else start, time, value))
  }

  /** addSumPoint, when this export already has a point of the series. */
  function MergePoint(cumulative: bool, maxSize: int, previous: Option<Output>, point: Output): Output {
    if cumulative || previous.None? then point
    else Output(previous.value.start, point.time, Combine(point.value, previous.value.value, maxSize))
  }

  function LastOf(s: Option<Series>): Time {
    if s.None? then 0 else s.value.last
  }

  /** The observed points of one export, in batch order. */
  function Observed(cumulative: bool, maxSize: int, s: Option<Series>, xs: seq<Input>)
      : (Option<Series>, Option<Output>) {
    if xs == [] then (s, None)
    else
      var (t, point) := Observed(cumulative, maxSize, s, xs[..|xs| - 1]);
      var (u, next) := Step(cumulative, maxSize, LastOf(s), t, xs[|xs| - 1]);
      (Some(u), Some(MergePoint(cumulative, maxSize, point, next)))
  }

  /** One export: what was observed, or else the cumulative state repeated at `now`. */
  function Export(cumulative: bool, maxSize: int, s: Option<Series>, xs: seq<Input>, now: Time)
      : (Option<Series>, Option<Output>) {
    if xs == [] && cumulative && s.Some? && s.value.value.Some? then
      var time := PointTime(s.value.last, now, s.value.last, true);
      (Some(s.value.(last := time)), Some(Output(s.value.start, time, s.value.value.value)))
    else Observed(cumulative, maxSize, s, xs)
  }

  datatype Round = Round(inputs: seq<Input>, now: Time)

  /** Stamps are set before a metric reaches an exporter. */
  predicate Stamped(r: Round) {
    r.now > 0 && forall x :: x in r.inputs ==> x.time > 0
  }

  /** The state after a sequence of exports and all points sent; a failed send is committed like any other. */
  function Run(cumulative: bool, maxSize: int, rounds: seq<Round>): (Option<Series>, seq<Output>) {
    if rounds == [] then (None, [])
    else
      var (s, sent) := Run(cumulative, maxSize, rounds[..|rounds| - 1]);
      var r := rounds[|rounds| - 1];
      var (t, point) := Export(cumulative, maxSize, s, r.inputs, r.now);
      (t, if point.None? then sent else sent + [point.value])
  }

  /** Everything observed, in order. */
  function Values(xs: seq<Input>): seq<Value> {
    if xs == [] then [] else Values(xs[..|xs| - 1]) + [xs[|xs| - 1].value]
  }

  function AllValues(rounds: seq<Round>): seq<Value> {
    if rounds == [] then [] else AllValues(rounds[..|rounds| - 1]) + Values(rounds[|rounds| - 1].inputs)
  }

  function Total(maxSize: int, vs: seq<Value>): Value
    requires vs != []
  {
    if |vs| == 1 then vs[0] else Combine(vs[|vs| - 1], Total(maxSize, vs[..|vs| - 1]), maxSize)
  }

  // ---- cumulative temporality ----

  lemma ValuesLast(xs: seq<Input>, vs: seq<Value>)
    requires xs != []
    ensures vs + Values(xs) == vs + Values(xs[..|xs| - 1]) + [xs[|xs| - 1].value]
  {
    Regroup(vs, Values(xs[..|xs| - 1]), [xs[|xs| - 1].value]);
  }

  lemma Regroup(a: seq<Value>, b: seq<Value>, c: seq<Value>)
    ensures a + (b + c) == a + b + c
  {
  }

  lemma TotalLast(maxSize: int, vs: seq<Value>, v: Value)
    ensures Total(maxSize, vs + [v]) == if vs == [] then v else Combine(v, Total(maxSize, vs), maxSize)
  {
    assert (vs + [v])[..|vs + [v]| - 1] == vs;
  }

  /** The state keeps the total of the values so far, and a point carries the state. */
  predicate Holds(maxSize: int, s: Option<Series>, vs: seq<Value>) {
    && (s.None? <==> vs == [])
    && (s.Some? ==> s.value.value == Some(Total(maxSize, vs)) && 0 < s.value.start <= s.value.last)
  }

  lemma {:induction false} CumulativeObserved(maxSize: int, s: Option<Series>, xs: seq<Input>, vs: seq<Value>)
    requires Holds(maxSize, s, vs) && forall x :: x in xs ==> x.time > 0
    ensures var (t, point) := Observed(true, maxSize, s, xs);
            && Holds(maxSize, t, vs + Values(xs))
            && (s.Some? ==> t.Some? && t.value.start == s.value.start && s.value.last <= t.value.last)
            && (point.Some? <==> xs != [])
            && (point.Some? ==> t.Some? && point.value == Output(t.value.start, t.value.last, t.value.value.value))
            && (point.Some? && s.Some? ==> s.value.last + MIN_POINT_SPACING <= t.value.last)
    decreases |xs|
  {
    hide Combine, Total;
    if xs == [] {
      assert vs + Values(xs) == vs;
    } else {
      var init, x := xs[..|xs| - 1], xs[|xs| - 1];
      CumulativeObserved(maxSize, s, init, vs);
      ValuesLast(xs, vs);
      TotalLast(maxSize, vs + Values(init), x.value);
    }
  }

  lemma CumulativeExport(maxSize: int, s: Option<Series>, r: Round, vs: seq<Value>)
    requires Holds(maxSize, s, vs) && Stamped(r)
    ensures var (t, point) := Export(true, maxSize, s, r.inputs, r.now);
            && Holds(maxSize, t, vs + Values(r.inputs))
            && (s.Some? ==> t.Some? && t.value.start == s.value.start)
            && (point.Some? <==> t.Some?)
            && (point.Some? ==> point.value == Output(t.value.start, t.value.last, t.value.value.value))
            && (s.Some? ==> s.value.last + MIN_POINT_SPACING <= t.value.last)
  {
    CumulativeObserved(maxSize, s, r.inputs, vs);
    if r.inputs == [] { assert vs + Values(r.inputs) == vs; }
  }

  /** Points with one start, each no earlier than it, at least a millisecond apart. */
  predicate WellTimed(sent: seq<Output>) {
    && (forall i :: 0 <= i < |sent| ==> sent[i].start == sent[0].start <= sent[i].time)
    && (forall i :: 0 < i < |sent| ==> sent[i - 1].time + MIN_POINT_SPACING <= sent[i].time)
  }

  lemma WellTimedNext(sent: seq<Output>, point: Output)
    requires WellTimed(sent) && point.start <= point.time
    requires sent != [] ==>
      sent[|sent| - 1].time + MIN_POINT_SPACING <= point.time && sent[|sent| - 1].start == point.start
    ensures WellTimed(sent + [point])
  {
  }

  lemma {:induction false} CumulativeRun(maxSize: int, rounds: seq<Round>)
    requires forall r :: r in rounds ==> Stamped(r)
    ensures var (s, sent) := Run(true, maxSize, rounds);
            && Holds(maxSize, s, AllValues(rounds)) && WellTimed(sent)
            && (sent == [] <==> s.None?)
            && (s.Some? ==> sent[|sent| - 1] == Output(s.value.start, s.value.last, s.value.value.value))
    decreases |rounds|
  {
    if rounds != [] {
      var init, r := rounds[..|rounds| - 1], rounds[|rounds| - 1];
      assert forall q :: q in init ==> q in rounds;
      assert r in rounds;
      CumulativeRun(maxSize, init);
      var (s, sent) := Run(true, maxSize, init);
      CumulativeExport(maxSize, s, r, AllValues(init));
      hide WellTimed, Export;
      var (t, point) := Export(true, maxSize, s, r.inputs, r.now);
      if point.Some? { WellTimedNext(sent, point.value); }
    }
  }

  /**
   Over any sequence of exports, the points of a cumulative series have a constant StartTime not after their
   Time, Times at least 1 ms apart, and after every export that follows an observation the last point carries
   everything observed so far, whether or not earlier sends failed.
   */
  lemma CumulativeSeries(maxSize: int, rounds: seq<Round>)
    requires forall r :: r in rounds ==> Stamped(r)
    ensures var sent := Run(true, maxSize, rounds).1;
            && WellTimed(sent)
            && (sent == [] <==> AllValues(rounds) == [])
            && (sent != [] ==> sent[|sent| - 1].value == Total(maxSize, AllValues(rounds)))
  {
    CumulativeRun(maxSize, rounds);
  }

  // ---- delta temporality ----

  predicate Started(s: Option<Series>) {
    s.Some? ==> 0 < s.value.start <= s.value.last
  }

  lemma {:induction false} DeltaObserved(maxSize: int, s: Option<Series>, xs: seq<Input>)
    requires Started(s) && forall x :: x in xs ==> x.time > 0
    ensures var (t, point) := Observed(false, maxSize, s, xs);
            && Started(t) && (point.Some? <==> xs != []) && (xs == [] ==> t == s)
            && (point.Some? ==> t.Some? && point.value.start <= point.value.time == t.value.last)
            && (point.Some? && s.Some? ==> point.value.start == s.value.last)
    decreases |xs|
  {
    if xs != [] {
      DeltaObserved(maxSize, s, xs[..|xs| - 1]);
    }
  }

  /** Every point starts exactly where the one before it ended. */
  predicate Contiguous(sent: seq<Output>) {
    && (forall i :: 0 <= i < |sent| ==> sent[i].start <= sent[i].time)
    && (forall i :: 0 < i < |sent| ==> sent[i].start == sent[i - 1].time)
  }

  lemma ContiguousNext(sent: seq<Output>, point: Output)
    requires Contiguous(sent) && point.start <= point.time
    requires sent != [] ==> sent[|sent| - 1].time == point.start
    ensures Contiguous(sent + [point])
  {
  }

  lemma {:induction false} DeltaSeries(maxSize: int, rounds: seq<Round>)
    requires forall r :: r in rounds ==> Stamped(r)
    ensures var (s, sent) := Run(false, maxSize, rounds);
            && Contiguous(sent) && Started(s)
            && (sent == [] <==> s.None?) && (s.Some? ==> sent[|sent| - 1].time == s.value.last)
    decreases |rounds|
  {
    if rounds != [] {
      var init, r := rounds[..|rounds| - 1], rounds[|rounds| - 1];
      assert forall q :: q in init ==> q in rounds;
      assert r in rounds && Stamped(r);
      DeltaSeries(maxSize, init);
      var (s, sent) := Run(false, maxSize, init);
      DeltaObserved(maxSize, s, r.inputs);
      hide Contiguous, Observed;
      var (t, point) := Observed(false, maxSize, s, r.inputs);
      if point.Some? { ContiguousNext(sent, point.value); }
    }
  }

  /** The sum of sum values. */
  function SumOf(vs: seq<Value>): real {
    if vs == [] then 0.0
    else SumOf(vs[..|vs| - 1]) + if vs[|vs| - 1].Sum? then vs[|vs| - 1].total else 0.0
  }

  predicate AllSums(vs: seq<Value>) {
    forall v :: v in vs ==> v.Sum?
  }

  lemma {:induction false} SumConcat(a: seq<Value>, b: seq<Value>)
    ensures SumOf(a + b) == SumOf(a) + SumOf(b)
    decreases |b|
  {
    if b == [] {
      assert a + b == a;
    } else {
      assert (a + b)[..|a + b| - 1] == a + b[..|b| - 1];
      SumConcat(a, b[..|b| - 1]);
    }
  }

  /** The running value of a sum series is the arithmetic sum. */
  lemma {:induction false} TotalIsSum(maxSize: int, vs: seq<Value>)
    requires vs != [] && AllSums(vs)
    ensures Total(maxSize, vs) == Sum(SumOf(vs))
    decreases |vs|
  {
    if |vs| == 1 {
      assert vs[..0] == [];
    } else {
      TotalIsSum(maxSize, vs[..|vs| - 1]);
    }
  }

  lemma {:induction false} DeltaValue(maxSize: int, s: Option<Series>, xs: seq<Input>)
    requires xs != [] && AllSums(Values(xs))
    ensures Observed(false, maxSize, s, xs).1.Some?
    ensures Observed(false, maxSize, s, xs).1.value.value == Sum(SumOf(Values(xs)))
    decreases |xs|
  {
    var init := xs[..|xs| - 1];
    assert Values(xs) == Values(init) + [xs[|xs| - 1].value];
    assert xs[|xs| - 1].value in Values(xs);
    SumConcat(Values(init), [xs[|xs| - 1].value]);
    OneSum(xs[|xs| - 1].value);
    if init != [] {
      assert forall v :: v in Values(init) ==> v in Values(xs);
      DeltaValue(maxSize, s, init);
    }
  }

  lemma OneSum(v: Value)
    ensures SumOf([v]) == if v.Sum? then v.total else 0.0
  {
    assert [v][..0] == [];
  }

  function SentValues(sent: seq<Output>): seq<Value> {
    seq<Value>(|sent|, i requires 0 <= i < |sent| => sent[i].value)
  }

  /** The points of a delta sum series add up to everything observed. */
  lemma {:induction false} DeltaSumsAddUp(maxSize: int, rounds: seq<Round>)
    requires AllSums(AllValues(rounds))
    ensures SumOf(SentValues(Run(false, maxSize, rounds).1)) == SumOf(AllValues(rounds))
    decreases |rounds|
  {
    if rounds != [] {
      var init, r := rounds[..|rounds| - 1], rounds[|rounds| - 1];
      assert forall v :: v in AllValues(init) || v in Values(r.inputs) ==> v in AllValues(rounds);
      DeltaSumsAddUp(maxSize, init);
      SumConcat(AllValues(init), Values(r.inputs));
      if r.inputs != [] {
        var (s, sent) := Run(false, maxSize, init);
        DeltaValue(maxSize, s, r.inputs);
        var v := Observed(false, maxSize, s, r.inputs).1.value;
        assert SentValues(sent + [v]) == SentValues(sent) + [v.value];
        SumConcat(SentValues(sent), [v.value]);
        OneSum(v.value);
      }
    }
  }

  /** A delta histogram series, with at most one point per export, sends exactly the points observed. */
  lemma {:induction false} DeltaHistogramsAreSent(maxSize: int, rounds: seq<Round>)
    requires forall r :: r in rounds ==> |r.inputs| <= 1
    ensures SentValues(Run(false, maxSize, rounds).1) == AllValues(rounds)
    decreases |rounds|
  {
    if rounds != [] {
      var init, r := rounds[..|rounds| - 1], rounds[|rounds| - 1];
      DeltaHistogramsAreSent(maxSize, init);
      var (s, sent) := Run(false, maxSize, init);
      assert r in rounds;
      if r.inputs == [] {
        assert AllValues(rounds) == AllValues(init);
      } else {
        assert r.inputs == [r.inputs[0]] && r.inputs[..0] == [];
        assert Observed(false, maxSize, s, []) == (s, None);
        assert Values(r.inputs) == Values([]) + [r.inputs[0].value];
      }
    }
  }

  // ---- what the cumulative totals mean ----

  /** The values of an explicit-bound series, one data point per export. */
  function HistogramValues(bounds: seq<real>, groups: seq<seq<real>>): seq<Value>
    requires forall g :: g in groups ==> g != []
  {
    seq<Value>(|groups|,
      i requires 0 <= i < |groups| => assert groups[i] in groups; Histogram(Explicit.PointOf(bounds, groups[i])))
  }

  function Flat(groups: seq<seq<real>>): seq<real> {
    if groups == [] then [] else Flat(groups[..|groups| - 1]) + groups[|groups| - 1]
  }

  /** The cumulative point of an explicit histogram is the point of all observations. */
  lemma {:induction false} TotalHistogram(maxSize: int, bounds: seq<real>, groups: seq<seq<real>>)
    requires groups != [] && forall g :: g in groups ==> g != []
    ensures Flat(groups) != []
    ensures Total(maxSize, HistogramValues(bounds, groups)) == Histogram(Explicit.PointOf(bounds, Flat(groups)))
    decreases |groups|
  {
    var init, last := groups[..|groups| - 1], groups[|groups| - 1];
    var vs := HistogramValues(bounds, groups);
    assert last in groups;
    if |groups| == 1 {
      assert init == [] && Flat(init) == [];
      assert Flat(groups) == last;
    } else {
      assert forall g :: g in init ==> g in groups;
      assert vs[..|vs| - 1] == HistogramValues(bounds, init);
      TotalHistogram(maxSize, bounds, init);
      Explicit.AddIsConcat(bounds, Flat(init), last);
    }
  }

  function ExponentialValues(maxSize: int, maxScale: int, groups: seq<seq<ExpoRecord.Float>>): seq<Value> {
    seq<Value>(|groups|, i requires 0 <= i < |groups| =>
      Exponential(Expo.Snapshot(ExpoRecord.Recorded(maxSize, maxScale, groups[i]))))
  }

  lemma {:induction false} TotalIsCumulative(maxSize: int, maxScale: int, groups: seq<seq<ExpoRecord.Float>>)
    requires groups != []
    ensures Total(maxSize, ExponentialValues(maxSize, maxScale, groups)) ==
      Exponential(Expo.Cumulative(maxSize, maxScale, groups))
    decreases |groups|
  {
    var vs := ExponentialValues(maxSize, maxScale, groups);
    if |groups| > 1 {
      assert vs[..|vs| - 1] == ExponentialValues(maxSize, maxScale, groups[..|groups| - 1]);
      TotalIsCumulative(maxSize, maxScale, groups[..|groups| - 1]);
    }
  }

  /** The cumulative point of an exponential series is the point of one histogram of the whole stream. */
  lemma TotalExponential(maxSize: int, maxScale: int, groups: seq<seq<ExpoRecord.Float>>)
    requires groups != [] && Expo.AllFloat64(Expo.Flatten(groups))
    ensures Total(maxSize, ExponentialValues(maxSize, maxScale, groups)) ==
      Exponential(Expo.Snapshot(ExpoRecord.Recorded(maxSize, maxScale, Expo.Flatten(groups))))
  {
    hide *;
    TotalIsCumulative(maxSize, maxScale, groups);
    Expo.CumulativeIsWholeStream(maxSize, maxScale, groups);
  }
}
