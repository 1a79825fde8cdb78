/**
 The times of the points a series sends, over any sequence of exports: each point is stamped with the newest of the
 times it must cover, and the series starts with its first observation.
 */
module AccumulatorTimes {
  import opened Accumulator
  import opened Options

  /** The latest of some times: one of them, and not before any of them. */
  predicate IsLatest(t: Time, times: set<Time>) {
    t in times && forall u :: u in times ==> u <= t
  }

  /** The times an export brings: those of its observations, or the clock when a cumulative series is repeated. */
  function TimesOf(r: Round): set<Time> {
    if r.inputs == [] then {r.now} else set x | x in r.inputs :: x.time
  }

  /** The earliest time that is still free after the points sent so far: 1 ms after the last one, or its own end. */
  function Free(cumulative: bool, sent: seq<Output>): set<Time> {
    if sent == [] then {} else {sent[|sent| - 1].time + if cumulative then 1_000_000 else 0}
  }

  /** Whether an export sends a point of the series. */
  predicate Sends(cumulative: bool, sent: seq<Output>, r: Round) {
    r.inputs != [] || (cumulative && sent != [])
  }

  /** The time of the first observation. */
  function FirstTime(rounds: seq<Round>): Time {
    if rounds == [] then 0
    else if rounds[0].inputs != [] then rounds[0].inputs[0].time
    else FirstTime(rounds[1..])
  }

  // ---- one export ----

  function InputTimes(xs: seq<Input>): set<Time> {
    set x | x in xs :: x.time
  }

  lemma OneMoreInput(xs: seq<Input>)
    requires xs != []
    ensures InputTimes(xs) == InputTimes(xs[..|xs| - 1]) + {xs[|xs| - 1].time}
  {
    assert xs == xs[..|xs| - 1] + [xs[|xs| - 1]];
  }

  /** The floor under the points of this export, when the series has sent one before. */
  function FloorOf(cumulative: bool, s: Option<Series>): set<Time> {
    if s.None? then {} else {s.value.last + if cumulative then 1_000_000 else 0}
  }

  lemma {:induction false} ObservedTime(cumulative: bool, maxSize: int, s: Option<Series>, xs: seq<Input>)
    requires xs != [] && (forall x :: x in xs ==> x.time > 0) && (s.Some? ==> s.value.last > 0)
    ensures var (t, point) := Observed(cumulative, maxSize, s, xs);
            && t.Some? && point.Some? && point.value.time == t.value.last > 0
            && IsLatest(t.value.last, InputTimes(xs) + FloorOf(cumulative, s))
            && t.value.start == (if s.None? then xs[0].time else s.value.start)
            && point.value.start == (if cumulative || s.None? then t.value.start else s.value.last)
            && (cumulative ==> t.value.value.Some?)
    decreases |xs|
  {
    hide Combine, IsLatest;
    var init, x := xs[..|xs| - 1], xs[|xs| - 1];
    OneMoreInput(xs);
    var before := if init == [] then 0 else Observed(cumulative, maxSize, s, init).0.value.last;
    if init == [] {
      assert xs == [x] && InputTimes(init) == {};
    } else {
      ObservedTime(cumulative, maxSize, s, init);
    }
    LatestOfMore(cumulative, s, init, x.time, before);
  }

  /** One more observation after a point that already covers the others. */
  lemma LatestOfMore(cumulative: bool, s: Option<Series>, xs: seq<Input>, x: Time, before: Time)
    requires x > 0 && (s.Some? ==> s.value.last > 0)
    requires if xs == [] then before == 0 else IsLatest(before, InputTimes(xs) + FloorOf(cumulative, s))
    ensures var last := if xs == [] then LastOf(s) else before;
            IsLatest(PointTime(last, x, LastOf(s), cumulative), InputTimes(xs) + {x} + FloorOf(cumulative, s))
  {
    hide InputTimes;
    if xs == [] { assert InputTimes(xs) == {} by { NoTimes(); } }
  }

  lemma NoTimes()
    ensures InputTimes([]) == {}
  {
  }

  lemma ExportTime(cumulative: bool, maxSize: int, s: Option<Series>, r: Round)
    requires Stamped(r) && (s.Some? ==> s.value.last > 0 && (cumulative ==> s.value.value.Some?))
    ensures var (t, point) := Export(cumulative, maxSize, s, r.inputs, r.now);
            if r.inputs == [] && (!cumulative || s.None?) then t == s && point == None
            else
              && t.Some? && point.Some? && point.value.time == t.value.last > 0
              && IsLatest(t.value.last, TimesOf(r) + FloorOf(cumulative, s))
              && t.value.start == (if s.None? then r.inputs[0].time else s.value.start)
              && point.value.start == (if cumulative || s.None? then t.value.start else s.value.last)
              && (cumulative ==> t.value.value.Some?)
  {
    if r.inputs != [] {
      ObservedTime(cumulative, maxSize, s, r.inputs);
      hide Observed, IsLatest;
      assert TimesOf(r) == InputTimes(r.inputs);
    } else if cumulative && s.Some? {
      assert TimesOf(r) + FloorOf(cumulative, s) == {r.now, s.value.last + 1_000_000};
    }
  }

  // ---- any sequence of exports ----

  predicate SomeObserved(rounds: seq<Round>) {
    exists i :: 0 <= i < |rounds| && rounds[i].inputs != []
  }

  lemma {:induction false} FirstTimeOfMore(rounds: seq<Round>, r: Round)
    ensures FirstTime(rounds + [r]) ==
      if SomeObserved(rounds) then FirstTime(rounds)
      else if r.inputs != [] then r.inputs[0].time else 0
  {
    if rounds == [] {
      assert (rounds + [r])[1..] == [];
    } else {
      assert (rounds + [r])[1..] == rounds[1..] + [r];
      FirstTimeOfMore(rounds[1..], r);
      if rounds[0].inputs == [] { SomeLater(rounds); }
    }
  }

  lemma SomeLater(rounds: seq<Round>)
    requires rounds != [] && rounds[0].inputs == []
    ensures SomeObserved(rounds) <==> SomeObserved(rounds[1..])
  {
    if SomeObserved(rounds) {
      var i :| 0 <= i < |rounds| && rounds[i].inputs != [];
      assert rounds[1..][i - 1] == rounds[i];
    }
    if SomeObserved(rounds[1..]) {
      var i :| 0 <= i < |rounds[1..]| && rounds[1..][i].inputs != [];
      assert rounds[i + 1] == rounds[1..][i];
    }
  }

  /** The state of a series and the points it has sent belong together. */
  predicate InStep(cumulative: bool, s: Option<Series>, sent: seq<Output>, rounds: seq<Round>) {
    && (s.None? <==> sent == []) && (s.None? <==> !SomeObserved(rounds))
    && (s.Some? ==>
          && s.value.last == sent[|sent| - 1].time > 0 && s.value.start == FirstTime(rounds)
          && (cumulative ==> s.value.value.Some?))
  }

  lemma {:induction false} RunInStep(cumulative: bool, maxSize: int, rounds: seq<Round>)
    requires forall r :: r in rounds ==> Stamped(r)
    ensures var (s, sent) := Run(cumulative, maxSize, rounds); InStep(cumulative, s, sent, rounds)
    decreases |rounds|
  {
    if rounds != [] {
      var init, r := rounds[..|rounds| - 1], rounds[|rounds| - 1];
      assert rounds == init + [r];
      RunInStep(cumulative, maxSize, init);
      LastExport(cumulative, maxSize, init, r);
    }
  }

  /** What one more export does. */
  lemma LastExport(cumulative: bool, maxSize: int, rounds: seq<Round>, r: Round)
    requires Stamped(r)
    requires var (s, sent) := Run(cumulative, maxSize, rounds); InStep(cumulative, s, sent, rounds)
    ensures var sent := Run(cumulative, maxSize, rounds).1;
            var (t, more) := Run(cumulative, maxSize, rounds + [r]);
            && InStep(cumulative, t, more, rounds + [r])
            && (if Sends(cumulative, sent, r)
                then |more| == |sent| + 1 && more[..|sent|] == sent
                     && IsLatest(more[|sent|].time, TimesOf(r) + Free(cumulative, sent))
                     && more[|sent|].start ==
                          (if cumulative || sent == [] then FirstTime(rounds + [r]) else sent[|sent| - 1].time)
                else more == sent)
  {
    hide Run, FirstTime, SomeObserved, Export, IsLatest, TimesOf;
    RunOneMore(cumulative, maxSize, rounds, r);
    var (s, sent) := Run(cumulative, maxSize, rounds);
    FirstTimeOfMore(rounds, r);
    OneMoreRound(rounds, r);
    ExportTime(cumulative, maxSize, s, r);
    assert FloorOf(cumulative, s) == Free(cumulative, sent);
  }

  lemma RunOneMore(cumulative: bool, maxSize: int, rounds: seq<Round>, r: Round)
    ensures var (s, sent) := Run(cumulative, maxSize, rounds);
            var (t, point) := Export(cumulative, maxSize, s, r.inputs, r.now);
            Run(cumulative, maxSize, rounds + [r]) == (t, if point.None? then sent else sent + [point.value])
  {
    hide Export;
    assert (rounds + [r])[..|rounds + [r]| - 1] == rounds;
  }

  lemma OneMoreRound(rounds: seq<Round>, r: Round)
    ensures SomeObserved(rounds + [r]) <==> SomeObserved(rounds) || r.inputs != []
  {
    if SomeObserved(rounds) {
      var i :| 0 <= i < |rounds| && rounds[i].inputs != [];
      assert (rounds + [r])[i] == rounds[i];
    }
    if r.inputs != [] { assert (rounds + [r])[|rounds|] == r; }
  }

  /**
   Every export sends at most one point of a series: exactly when it observed the series, or when the series is
   cumulative and has sent before. The point has the newest of the times it has to cover: the observations of the
   export, or the clock when the point is repeated, and the last point sent, 1 ms later in cumulative temporality.
   It starts with the first observation of the series, a later delta point where the one before it ended.
   */
  lemma PointTimes(cumulative: bool, maxSize: int, rounds: seq<Round>, r: Round)
    requires Stamped(r) && forall q :: q in rounds ==> Stamped(q)
    ensures var sent, more := Run(cumulative, maxSize, rounds).1, Run(cumulative, maxSize, rounds + [r]).1;
            if !Sends(cumulative, sent, r) then more == sent
            else
              && |more| == |sent| + 1 && more[..|sent|] == sent
              && IsLatest(more[|sent|].time, TimesOf(r) + Free(cumulative, sent))
              && more[|sent|].start ==
                   if cumulative || sent == [] then FirstTime(rounds + [r]) else sent[|sent| - 1].time
  {
    hide *;
    RunInStep(cumulative, maxSize, rounds);
    LastExport(cumulative, maxSize, rounds, r);
  }
}
