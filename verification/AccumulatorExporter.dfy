/**
 The exporter's series map: one pass over the points of a batch and one over the series it did not observe.
 Each series fares as if it were alone.
 */
module AccumulatorExporter {
  import opened Accumulator
  import opened Options

  type Key = nat     // metric name and attribute set

  datatype Observation = Observation(key: Key, input: Input)

  datatype DataPoint = DataPoint(key: Key, out: Output)

  function Of(k: Key, xs: seq<Observation>): seq<Input> {
    if xs == [] then []
    else
      var x := xs[|xs| - 1];
      if x.key == k then Of(k, xs[..|xs| - 1]) + [x.input] else Of(k, xs[..|xs| - 1])
  }

  function Lookup(m: map<Key, Series>, k: Key): Option<Series> {
    if k in m then Some(m[k]) else None
  }

  /** The point of a series among the data points of an export. */
  function Find(points: seq<DataPoint>, k: Key): Option<Output> {
    if points == [] then None
    else if points[|points| - 1].key == k then Some(points[|points| - 1].out)
    else Find(points[..|points| - 1], k)
  }

  predicate Distinct(points: seq<DataPoint>) {
    forall i, j :: 0 <= i < j < |points| ==> points[i].key != points[j].key
  }

  lemma {:induction false} FindIff(points: seq<DataPoint>, k: Key, i: nat)
    requires Distinct(points)
    ensures i < |points| && points[i].key == k ==> Find(points, k) == Some(points[i].out)
    ensures (forall j :: 0 <= j < |points| ==> points[j].key != k) ==> Find(points, k) == None
  {
    if points != [] && points[|points| - 1].key != k { FindIff(points[..|points| - 1], k, i); }
  }

  lemma {:induction false} FindUpdate(points: seq<DataPoint>, i: nat, p: DataPoint, k: Key)
    requires i < |points| && points[i].key == p.key && k != p.key
    ensures Find(points[i := p], k) == Find(points, k)
  {
    if i == |points| - 1 {
      assert points[i := p][..|points| - 1] == points[..|points| - 1];
    } else {
      assert points[i := p][..|points| - 1] == points[..|points| - 1][i := p];
      FindUpdate(points[..|points| - 1], i, p, k);
    }
  }

  lemma FindAppend(points: seq<DataPoint>, p: DataPoint, k: Key)
    ensures Find(points + [p], k) == if p.key == k then Some(p.out) else Find(points, k)
  {
    assert (points + [p])[..|points + [p]| - 1] == points;
  }

  lemma OfLast(k: Key, xs: seq<Observation>, x: Observation)
    ensures Of(k, xs + [x]) == if x.key == k then Of(k, xs) + [x.input] else Of(k, xs)
  {
    assert (xs + [x])[..|xs + [x]| - 1] == xs;
  }

  lemma {:induction false} OfOthers(k: Key, xs: seq<Observation>)
    requires forall x :: x in xs ==> x.key != k
    ensures Of(k, xs) == []
  {
    if xs != [] { OfOthers(k, xs[..|xs| - 1]); }
  }

  lemma ObservedLast(cumulative: bool, maxSize: int, s: Option<Series>, xs: seq<Input>, x: Input)
    ensures var (t, point) := Observed(cumulative, maxSize, s, xs);
            var (u, next) := Step(cumulative, maxSize, LastOf(s), t, x);
            Observed(cumulative, maxSize, s, xs + [x]) == (Some(u), Some(MergePoint(cumulative, maxSize, point, next)))
  {
    assert (xs + [x])[..|xs + [x]| - 1] == xs;
  }

  /** A series is observed more than once in a batch only by the observations of a counter. */
  predicate OncePerHistogram(xs: seq<Observation>) {
    forall i, j :: 0 <= i < j < |xs| && xs[i].key == xs[j].key ==> xs[i].input.value.Sum? && xs[j].input.value.Sum?
  }

  class Exporter {
    const cumulative: bool
    const maxSize: int
    var series: map<Key, Series>

    constructor (cumulative: bool, maxSize: int)
      ensures this.cumulative == cumulative && this.maxSize == maxSize && series == map[] && Valid()
    {
      this.cumulative, this.maxSize, series := cumulative, maxSize, map[];
    }

    /** In cumulative temporality every known series has a running value. */
    predicate Valid()
      reads this
    {
      cumulative ==> forall k :: k in series ==> series[k].value.Some?
    }

    /** addSumPoint */
    method AddSumPoint(points: seq<DataPoint>, p: DataPoint) returns (r: seq<DataPoint>)
      requires Distinct(points)
      ensures Distinct(r) && forall q :: q in r ==> q.key == p.key || q in points
      ensures Find(r, p.key) == Some(MergePoint(cumulative, maxSize, Find(points, p.key), p.out))
      ensures forall k :: k != p.key ==> Find(r, k) == Find(points, k)
    {
      hide MergePoint;
      for i := 0 to |points|
        invariant forall j :: 0 <= j < i ==> points[j].key != p.key
      {
        if points[i].key == p.key {
          FindIff(points, p.key, i);
          var out := MergePoint(cumulative, maxSize, Some(points[i].out), p.out);
          r := points[i := DataPoint(p.key, out)];
          FindIff(r, p.key, i);
          forall k | k != p.key ensures Find(r, k) == Find(points, k) { FindUpdate(points, i, r[i], k); }
          return;
        }
      }
      FindIff(points, p.key, 0);
      r := points + [p];
      assert MergePoint(cumulative, maxSize, None, p.out) == p.out by { MergeFirst(cumulative, maxSize, p.out); }
      forall k ensures Find(r, k) == if p.key == k then Some(p.out) else Find(points, k) { FindAppend(points, p, k); }
    }

    /** One observed point of the batch. */
    method Observe(x: Observation, next: map<Key, Series>, points: seq<DataPoint>, seen: set<Key>,
        ghost xs: seq<Observation>)
      returns (next': map<Key, Series>, points': seq<DataPoint>)
      requires Distinct(points) && (forall q :: q in points ==> q.key in seen)
      requires x.key in seen ==> x.input.value.Sum?
      requires forall k: Key :: At(cumulative, maxSize, series, next, points, xs, k)
      ensures Distinct(points') && (forall q :: q in points' ==> q.key in seen + {x.key})
      ensures next'.Keys == next.Keys + {x.key}
      ensures forall k: Key :: At(cumulative, maxSize, series, next', points', xs + [x], k)
    {
      hide MergePoint, Step, LastOf, Distinct;
      var known := Lookup(next, x.key);
      var (state, out) := Step(cumulative, maxSize, LastOf(Lookup(series, x.key)), known, x.input);
      next' := next[x.key := state];
      points' := AppendPoint(points, x, out, seen);
      assert At(cumulative, maxSize, series, next, points, xs, x.key);
      ObservedLast(cumulative, maxSize, Lookup(series, x.key), Of(x.key, xs), x.input);
      forall k: Key ensures At(cumulative, maxSize, series, next', points', xs + [x], k) {
        OfLast(k, xs, x);
        assert At(cumulative, maxSize, series, next, points, xs, k);
      }
    }

    /** The first loop of accumulate. */
    method ObserveAll(xs: seq<Observation>)
      returns (next: map<Key, Series>, points: seq<DataPoint>, seen: set<Key>)
      requires OncePerHistogram(xs)
      ensures Distinct(points) && (forall q :: q in points ==> q.key in seen)
      ensures seen == set x | x in xs :: x.key
      ensures next.Keys == series.Keys + seen
      ensures forall k: Key :: At(cumulative, maxSize, series, next, points, xs, k)
    {
      hide Observed, Of, Find;
      next, points, seen := series, [], {};
      forall k: Key ensures At(cumulative, maxSize, series, next, points, xs[..0], k) {
        NothingObserved(cumulative, maxSize, series, k);
      }
      for i := 0 to |xs|
        invariant Distinct(points) && (forall q :: q in points ==> q.key in seen)
        invariant seen == set x | x in xs[..i] :: x.key
        invariant next.Keys == series.Keys + seen
        invariant forall k: Key :: At(cumulative, maxSize, series, next, points, xs[..i], k)
      {
        var x := xs[i];
        if x.key in seen {
          var y :| y in xs[..i] && y.key == x.key;
        }
        next, points := Observe(x, next, points, seen, xs[..i]);
        assert xs[..i + 1] == xs[..i] + [x];
        seen := seen + {x.key};
      }
      assert xs[..|xs|] == xs;
    }

    /** The second loop: every cumulative series without an observation is repeated at `now`. */
    method Unobserved(
        xs: seq<Observation>, now: Time, observed: map<Key, Series>, sent: seq<DataPoint>, seen: set<Key>)
      returns (next: map<Key, Series>, points: seq<DataPoint>)
      requires Valid() && Distinct(sent) && (forall q :: q in sent ==> q.key in seen)
      requires seen == (set x | x in xs :: x.key) && observed.Keys == series.Keys + seen
      requires forall k: Key :: At(cumulative, maxSize, series, observed, sent, xs, k)
      ensures Distinct(points)
      ensures forall k: Key :: After(cumulative, maxSize, series, next, points, xs, now, k)
    {
      hide Observed, Of, Find, Accumulator.Export;
      next, points := observed, sent;
      forall k: Key | k in seen || k !in observed || !cumulative
        ensures After(cumulative, maxSize, series, observed, sent, xs, now, k)
      {
        assert At(cumulative, maxSize, series, observed, sent, xs, k);
        SeenOrUnknown(cumulative, maxSize, series, observed, sent, xs, now, k);
      }
      if !cumulative { return; }
      var todo := observed.Keys - seen;
      forall k | k in todo ensures Lookup(observed, k) == Lookup(series, k) {
        assert At(cumulative, maxSize, series, observed, sent, xs, k);
        NoneOf(k, xs);
        ObservedNothing(cumulative, maxSize, Lookup(series, k));
      }
      while todo != {}
        invariant todo <= observed.Keys - seen
        invariant Distinct(points) && (forall q :: q in points ==> q.key !in todo)
        invariant forall k :: k in todo ==> Lookup(next, k) == Lookup(series, k)
        invariant forall k: Key :: k !in todo ==> After(cumulative, maxSize, series, next, points, xs, now, k)
        decreases todo
      {
        var key :| key in todo;
        var state := next[key];
        var time := PointTime(state.last, now, state.last, true);
        ghost var next0, points0 := next, points;
        next := next[key := state.(last := time)];
        points := points + [DataPoint(key, Output(state.start, time, state.value.value))];
        todo := todo - {key};
        assert series[key] == state;
        forall k: Key | k !in todo ensures After(cumulative, maxSize, series, next, points, xs, now, k) {
          FindAppend(points0, points[|points| - 1], k);
          if k == key {
            NoneOf(k, xs);
            Repeated(maxSize, state, now);
          } else {
            assert After(cumulative, maxSize, series, next0, points0, xs, now, k);
          }
        }
      }
    }

    /** export: the new state is committed whether or not the send succeeds. */
    method ExportBatch(xs: seq<Observation>, now: Time, sendFails: bool) returns (points: seq<DataPoint>, failed: bool)
      requires Valid() && OncePerHistogram(xs)
      modifies this
      ensures Valid()
      ensures Distinct(points) && failed == (sendFails && !(xs == [] && points == []))
      ensures forall k: Key :: After(cumulative, maxSize, old(series), series, points, xs, now, k)
    {
      hide Observed, Of, Find, Accumulator.Export;
      var observed, sent, seen := ObserveAll(xs);
      var next;
      next, points := Unobserved(xs, now, observed, sent, seen);
      ghost var before := series;
      forall k | cumulative && k in next ensures next[k].value.Some? {
        assert After(cumulative, maxSize, series, next, points, xs, now, k);
        KeepsValue(maxSize, Lookup(series, k), Of(k, xs), now);
      }
      if xs == [] && points == [] {
        forall k: Key ensures Lookup(next, k) == Lookup(series, k) {
          assert After(cumulative, maxSize, series, next, points, xs, now, k);
          NothingSent(cumulative, maxSize, series, next, now, k);
        }
        forall k: Key ensures After(cumulative, maxSize, series, series, points, xs, now, k) {
          assert After(cumulative, maxSize, series, next, points, xs, now, k);
        }
        return points, false;
      }
      series := next;
      return points, sendFails;
    }

    method AppendPoint(points: seq<DataPoint>, x: Observation, out: Output, seen: set<Key>) returns (r: seq<DataPoint>)
      requires Distinct(points) && (forall q :: q in points ==> q.key in seen)
      requires x.key in seen ==> x.input.value.Sum?
      ensures Distinct(r) && (forall q :: q in r ==> q.key in seen + {x.key})
      ensures Find(r, x.key) == Some(MergePoint(cumulative, maxSize, Find(points, x.key), out))
      ensures forall k :: k != x.key ==> Find(r, k) == Find(points, k)
    {
      hide MergePoint;
      if x.input.value.Sum? {
        r := AddSumPoint(points, DataPoint(x.key, out));
      } else {
        FindIff(points, x.key, 0);
        MergeFirst(cumulative, maxSize, out);
        r := points + [DataPoint(x.key, out)];
        forall k ensures Find(r, k) == if x.key == k then Some(out) else Find(points, k) {
          FindAppend(points, DataPoint(x.key, out), k);
        }
      }
    }
  }

  /** State and point of series k after an export are those of the series alone. */
  ghost predicate After(
      cumulative: bool, maxSize: int, series: map<Key, Series>,
      next: map<Key, Series>, points: seq<DataPoint>, xs: seq<Observation>, now: Time, k: Key)
  {
    (Lookup(next, k), Find(points, k)) == Accumulator.Export(cumulative, maxSize, Lookup(series, k), Of(k, xs), now)
  }

  lemma {:induction false} SomeOf(k: Key, xs: seq<Observation>)
    requires exists x :: x in xs && x.key == k
    ensures Of(k, xs) != []
  {
    if xs[|xs| - 1].key != k { SomeOf(k, xs[..|xs| - 1]); }
  }

  lemma NoneOf(k: Key, xs: seq<Observation>)
    requires k !in set x | x in xs :: x.key
    ensures Of(k, xs) == []
  {
    forall x | x in xs ensures x.key != k { }
    OfOthers(k, xs);
  }

  lemma SeenOrUnknown(
      cumulative: bool, maxSize: int, series: map<Key, Series>,
      observed: map<Key, Series>, sent: seq<DataPoint>, xs: seq<Observation>, now: Time, k: Key)
    requires At(cumulative, maxSize, series, observed, sent, xs, k)
    requires observed.Keys == series.Keys + set x | x in xs :: x.key
    requires k in (set x | x in xs :: x.key) || k !in observed || !cumulative
    ensures After(cumulative, maxSize, series, observed, sent, xs, now, k)
  {
    hide Observed, Find;
    if k in set x | x in xs :: x.key { SomeOf(k, xs); }
  }

  lemma Repeated(maxSize: int, s: Series, now: Time)
    requires s.value.Some?
    ensures var time := PointTime(s.last, now, s.last, true);
            Accumulator.Export(true, maxSize, Some(s), [], now) ==
              (Some(s.(last := time)), Some(Output(s.start, time, s.value.value)))
  {
  }

  lemma {:induction false} KeepsValue(maxSize: int, s: Option<Series>, xs: seq<Input>, now: Time)
    requires s.Some? ==> s.value.value.Some?
    ensures var t := Accumulator.Export(true, maxSize, s, xs, now).0; t.Some? ==> t.value.value.Some?
  {
    if xs != [] {
      var t := Observed(true, maxSize, s, xs).0;
    }
  }

  lemma NothingSent(cumulative: bool, maxSize: int, series: map<Key, Series>, next: map<Key, Series>, now: Time, k: Key)
    requires After(cumulative, maxSize, series, next, [], [], now, k)
    ensures Lookup(next, k) == Lookup(series, k)
  {
  }

  lemma NothingObserved(cumulative: bool, maxSize: int, series: map<Key, Series>, k: Key)
    ensures At(cumulative, maxSize, series, series, [], [], k)
  {
    hide Observed;
    ObservedNothing(cumulative, maxSize, Lookup(series, k));
  }

  lemma ObservedNothing(cumulative: bool, maxSize: int, s: Option<Series>)
    ensures Observed(cumulative, maxSize, s, []) == (s, None)
  {
  }

  lemma MergeFirst(cumulative: bool, maxSize: int, out: Output)
    ensures MergePoint(cumulative, maxSize, None, out) == out
  {
  }

  /** State and point of series k after the observations xs of this export. */
  ghost predicate At(
      cumulative: bool, maxSize: int, series: map<Key, Series>,
      next: map<Key, Series>, points: seq<DataPoint>, xs: seq<Observation>, k: Key)
  {
    (Lookup(next, k), Find(points, k)) == Observed(cumulative, maxSize, Lookup(series, k), Of(k, xs))
  }

  datatype Batch = Batch(xs: seq<Observation>, now: Time)

  /** What one series observes in each of the batches. */
  function RoundsOf(k: Key, batches: seq<Batch>): seq<Round> {
    if batches == [] then []
    else
      var b := batches[|batches| - 1];
      RoundsOf(k, batches[..|batches| - 1]) + [Round(Of(k, b.xs), b.now)]
  }

  /** The points of one series over all exports. */
  function PointsOf(k: Key, sent: seq<seq<DataPoint>>): seq<Output> {
    if sent == [] then []
    else
      var p := Find(sent[|sent| - 1], k);
      PointsOf(k, sent[..|sent| - 1]) + if p.None? then [] else [p.value]
  }

  /** States and points of successive calls of ExportBatch, starting from a new exporter. */
  ghost predicate History(
      cumulative: bool, maxSize: int, batches: seq<Batch>, states: seq<map<Key, Series>>, sent: seq<seq<DataPoint>>)
  {
    && |states| == |batches| + 1 && |sent| == |batches| && states[0] == map[]
    && forall i :: 0 <= i < |batches| ==> Called(cumulative, maxSize, batches[i], states[i], states[i + 1], sent[i])
  }

  /** One call of ExportBatch. */
  ghost predicate Called(
      cumulative: bool, maxSize: int, b: Batch, before: map<Key, Series>, after: map<Key, Series>, sent: seq<DataPoint>)
  {
    forall k: Key :: After(cumulative, maxSize, before, after, sent, b.xs, b.now, k)
  }

  /** Over any sequence of exports, with failed sends and idle ones, every series behaves as if it were alone. */
  lemma {:induction false} EachSeriesAlone(
      cumulative: bool, maxSize: int, batches: seq<Batch>, states: seq<map<Key, Series>>, sent: seq<seq<DataPoint>>,
      k: Key)
    requires History(cumulative, maxSize, batches, states, sent)
    ensures Lookup(states[|batches|], k) == Run(cumulative, maxSize, RoundsOf(k, batches)).0
    ensures PointsOf(k, sent) == Run(cumulative, maxSize, RoundsOf(k, batches)).1
    decreases |batches|
  {
    hide Accumulator.Export;
    if batches == [] {
    } else {
      var n := |batches| - 1;
      EachSeriesAlone(cumulative, maxSize, batches[..n], states[..n + 1], sent[..n], k);
      assert Called(cumulative, maxSize, batches[n], states[n], states[n + 1], sent[n]);
      assert After(cumulative, maxSize, states[n], states[n + 1], sent[n], batches[n].xs, batches[n].now, k);
      var rounds := RoundsOf(k, batches);
      assert rounds[..|rounds| - 1] == RoundsOf(k, batches[..n]);
    }
  }
}
