/**
 How much a drain takes out of the ring: fewer than 500 positions over its capacity, which concurrent producers can
 bring about; and what is dropped after a Shutdown that gave up.
 */
module FlushDrains {
  import opened FlushMachine
  import opened FlushRuns
  import opened FlushReturns
  import opened Options

  /** How many positions from base on worker w has taken. */
  function TakenBy(owner: seq<Owner>, base: nat, w: Wid): nat {
    if |owner| <= base then 0
    else TakenBy(owner[..|owner| - 1], base, w) + if owner[|owner| - 1] == By(w) then 1 else 0
  }

  lemma TakenMore(owner: seq<Owner>, o: Owner, base: nat, w: Wid)
    requires base <= |owner|
    ensures TakenBy(owner + [o], base, w) == TakenBy(owner, base, w) + if o == By(w) then 1 else 0
  {
    assert (owner + [o])[..|owner|] == owner;
  }

  // ---- the bound ----

  /** Worker w serves a call and has popped since readPos was base what its drain has counted. */
  predicate DrainOk(s: State, w: Wid, base: nat)
    requires w < |s.workers|
  {
    var n := TakenBy(s.owner, base, w);
    && base <= |s.owner|
    && match s.workers[w].pc
       case Draining(_, _, popped, chunk, _) => n == popped + chunk && popped < s.cap && chunk <= 500
       case DrainCheck(_, _, popped, _) => n == popped < s.cap + 500
       case DrainExporting(_, _, popped, _) => n == popped < s.cap + 500
       case _ => CallOf(s.workers[w].pc).Some? && n < s.cap + 500
  }

  lemma RingDrains(s: State, step: Step, w: Wid, base: nat)
    requires Enabled(s, step) && IsRing(step) && w < |s.workers| && DrainOk(s, w, base)
    ensures DrainOk(RingStep(s, step), w, base)
  {
    if step.Evict? { TakenMore(s.owner, Evicted, base, w); }
  }

  lemma BackgroundDrains(s: State, step: Step, w: Wid, base: nat)
    requires Enabled(s, step) && IsBackground(step) && w < |s.workers| && DrainOk(s, w, base)
    ensures DrainOk(BackgroundStep(s, step), w, base)
  {
    hide TakenBy;
    if step.Pop? { TakenMore(s.owner, By(step.w), base, w); }
  }

  lemma ServingDrains(s: State, step: Step, w: Wid, base: nat)
    requires Enabled(s, step) && (IsDrain(step) || IsSettle(step)) && w < |s.workers| && DrainOk(s, w, base)
    ensures var t := if IsDrain(step) then DrainStep(s, step) else SettleStep(s, step);
            step == Ack(w) || DrainOk(t, w, base)
  {
    hide TakenBy;
  }

  lemma StepDrains(s: State, step: Step, w: Wid, base: nat)
    requires w < |s.workers| && DrainOk(s, w, base)
    ensures w < |Next(s, step).workers|
    ensures step == Ack(w) || DrainOk(Next(s, step), w, base)
  {
    hide RingStep, BackgroundStep, DrainStep, SettleStep, TakenBy;
    if Enabled(s, step) {
      if IsRing(step) { RingDrains(s, step, w, base); }
      else if IsBackground(step) { BackgroundDrains(s, step, w, base); }
      else if IsDrain(step) || IsSettle(step) { ServingDrains(s, step, w, base); }
      StepSize(s, step);
    }
  }

  predicate SameSize(s: State, t: State) {
    |t.workers| == |s.workers| && t.cap == s.cap && t.dropOldest == s.dropOldest
  }

  lemma BackgroundSize(s: State, step: Step)
    requires Enabled(s, step) && IsBackground(step)
    ensures SameSize(s, BackgroundStep(s, step))
  {
  }

  lemma ServingSize(s: State, step: Step)
    requires Enabled(s, step) && (IsDrain(step) || IsSettle(step))
    ensures SameSize(s, if IsDrain(step) then DrainStep(s, step) else SettleStep(s, step))
  {
  }

  lemma StepSize(s: State, step: Step)
    ensures SameSize(s, Next(s, step))
  {
    hide BackgroundStep, DrainStep, SettleStep;
    if Enabled(s, step) {
      if IsBackground(step) { BackgroundSize(s, step); }
      else if IsDrain(step) || IsSettle(step) { ServingSize(s, step); }
    }
  }

  lemma TakesStarts(s: State, step: Step, w: Wid, c: Cid)
    requires Takes(s, step, w, c) && |s.owner| == s.rp
    ensures w < |Next(s, step).workers| && DrainOk(Next(s, step), w, s.rp)
  {
  }

  lemma {:induction false} CapStays(cap: nat, dropOldest: bool, workers: nat, run: seq<Step>)
    ensures var s := Exec(cap, dropOldest, workers, run); s.cap == cap && s.dropOldest == dropOldest
    decreases |run|
  {
    hide Next;
    if run != [] {
      CapStays(cap, dropOldest, workers, run[..|run| - 1]);
      StepSize(Exec(cap, dropOldest, workers, run[..|run| - 1]), run[|run| - 1]);
    }
  }

  lemma RunSizes(cap: nat, dropOldest: bool, workers: nat, run: seq<Step>)
    ensures var s := Exec(cap, dropOldest, workers, run);
            s.cap == cap && s.dropOldest == dropOldest && s.rp <= s.wp <= s.rp + cap
  {
    CapStays(cap, dropOldest, workers, run);
    RunInv(cap, dropOldest, workers, run);
    hide Exec;
  }

  lemma {:induction false} DrainCounts(
      cap: nat, dropOldest: bool, workers: nat, run: seq<Step>, i: nat, w: Wid, c: Cid)
    requires i < |run| && Takes(Exec(cap, dropOldest, workers, run[..i]), run[i], w, c)
    requires forall k :: i < k < |run| ==> run[k] != Ack(w)
    ensures w < |Exec(cap, dropOldest, workers, run).workers|
    ensures DrainOk(Exec(cap, dropOldest, workers, run), w, Exec(cap, dropOldest, workers, run[..i]).rp)
    decreases |run|
  {
    hide Next, DrainOk, Takes;
    var before, last := run[..|run| - 1], run[|run| - 1];
    var s := Exec(cap, dropOldest, workers, before);
    if i == |run| - 1 {
      RunInv(cap, dropOldest, workers, before);
      TakesStarts(s, last, w, c);
    } else {
      assert before[..i] == run[..i];
      DrainCounts(cap, dropOldest, workers, before, i, w, c);
      StepDrains(s, last, w, Exec(cap, dropOldest, workers, run[..i]).rp);
    }
  }

  /** From the request to its acknowledgement a worker takes fewer than 500 positions over the capacity. */
  lemma DrainBounded(cap: nat, dropOldest: bool, workers: nat, run: seq<Step>, i: nat, w: Wid, c: Cid)
    requires i < |run| && Takes(Exec(cap, dropOldest, workers, run[..i]), run[i], w, c)
    requires forall k :: i < k < |run| ==> run[k] != Ack(w)
    ensures TakenBy(Exec(cap, dropOldest, workers, run).owner, Exec(cap, dropOldest, workers, run[..i]).rp, w) <
      cap + 500
  {
    hide Exec, Takes, TakenBy;
    DrainCounts(cap, dropOldest, workers, run, i, w, c);
    CapStays(cap, dropOldest, workers, run);
  }

  // ---- the bound is reached ----

  lemma ExecMore(cap: nat, dropOldest: bool, workers: nat, run: seq<Step>, step: Step)
    ensures Exec(cap, dropOldest, workers, run + [step]) == Next(Exec(cap, dropOldest, workers, run), step)
  {
    hide Next;
    assert (run + [step])[..|run|] == run;
  }

  /** Worker 0 serves call 0, which it took at position 0, with a producer at work and the ring empty. */
  predicate Serving(s: State, taken: nat) {
    && s.wp == s.rp == |s.owner| && s.cap > 0 && 0 in s.active && s.workers != []
    && 0 in s.calls && !s.calls[0].dead
    && TakenBy(s.owner, 0, 0) == taken
  }

  predicate Checking(s: State, taken: nat) {
    Serving(s, taken) && s.workers[0].pc.DrainCheck? && s.workers[0].pc.call == 0 && s.workers[0].pc.popped == taken
  }

  predicate Popping(s: State, popped: nat, chunk: nat) {
    && Serving(s, popped + chunk) && s.workers[0].pc.Draining? && s.workers[0].pc.call == 0
    && s.workers[0].pc.popped == popped && s.workers[0].pc.chunk == chunk <= |s.workers[0].batch|
  }

  lemma CheckPops(s: State, taken: nat)
    requires Checking(s, taken) && taken < s.cap
    ensures Popping(Next(s, Check(0)), taken, 0) && Next(s, Check(0)).cap == s.cap
  {
    hide TakenBy, RingStep, BackgroundStep, SettleStep, CallStep;
  }

  lemma PushPop(s: State, popped: nat, chunk: nat)
    requires Popping(s, popped, chunk) && chunk < 500
    ensures var t := Next(Next(s, Push(0)), Pop(0)); Popping(t, popped, chunk + 1) && t.cap == s.cap
  {
    hide TakenBy, DrainStep, SettleStep, CallStep;
    var t := Next(s, Push(0));
    assert t == s.(wp := s.wp + 1);
    TakenMore(s.owner, By(0), 0, 0);
  }

  /** After a chunk of one position, exported if the batch is full. */
  lemma EndsChunk(s: State, popped: nat) returns (steps: seq<Step>)
    requires Popping(s, popped, 1)
    ensures |steps| == 1 || |steps| == 2
    ensures var t := Next(s, steps[0]);
            var u := if |steps| == 1 then t else Next(t, steps[1]);
            Checking(u, popped + 1) && u.cap == s.cap
  {
    hide TakenBy, RingStep, BackgroundStep, CallStep;
    steps := [EndBatch(0)];
    if |s.workers[0].batch| >= 500 {
      var t := Next(s, EndBatch(0));
      assert t.workers[0].pc.DrainExporting?;
      steps := [EndBatch(0), EndDrainExport(0, true)];
    }
  }

  /** One more position in a chunk of its own. */
  lemma OneMore(cap: nat, dropOldest: bool, workers: nat, run: seq<Step>, taken: nat) returns (more: seq<Step>)
    requires Checking(Exec(cap, dropOldest, workers, run), taken) && taken < Exec(cap, dropOldest, workers, run).cap
    ensures Checking(Exec(cap, dropOldest, workers, more), taken + 1)
    ensures Exec(cap, dropOldest, workers, more).cap == Exec(cap, dropOldest, workers, run).cap
    ensures run < more
  {
    hide Next, Checking, Popping, Exec;
    var s := Exec(cap, dropOldest, workers, run);
    CheckPops(s, taken);
    PushPop(Next(s, Check(0)), taken, 0);
    ExecMore(cap, dropOldest, workers, run, Check(0));
    ExecMore(cap, dropOldest, workers, run + [Check(0)], Push(0));
    ExecMore(cap, dropOldest, workers, run + [Check(0)] + [Push(0)], Pop(0));
    more := run + [Check(0)] + [Push(0)] + [Pop(0)];
    var steps := EndsChunk(Exec(cap, dropOldest, workers, more), taken);
    ExecMore(cap, dropOldest, workers, more, steps[0]);
    more := more + [steps[0]];
    if |steps| == 2 {
      ExecMore(cap, dropOldest, workers, more, steps[1]);
      more := more + [steps[1]];
    }
  }

  lemma {:induction false} ManyMore(cap: nat, dropOldest: bool, workers: nat, run: seq<Step>, taken: nat)
    returns (more: seq<Step>)
    requires Checking(Exec(cap, dropOldest, workers, run), taken)
    requires taken < Exec(cap, dropOldest, workers, run).cap == cap
    ensures Checking(Exec(cap, dropOldest, workers, more), cap - 1) && Exec(cap, dropOldest, workers, more).cap == cap
    ensures run <= more
    decreases cap - taken
  {
    hide Checking, Exec;
    more := run;
    if taken < cap - 1 {
      more := OneMore(cap, dropOldest, workers, run, taken);
      more := ManyMore(cap, dropOldest, workers, more, taken + 1);
    }
  }

  lemma {:induction false} FillChunk(
      cap: nat, dropOldest: bool, workers: nat, run: seq<Step>, popped: nat, chunk: nat) returns (more: seq<Step>)
    requires Popping(Exec(cap, dropOldest, workers, run), popped, chunk) && chunk <= 500
    ensures Popping(Exec(cap, dropOldest, workers, more), popped, 500)
    ensures run <= more
    decreases 500 - chunk
  {
    hide Next, Popping, Exec;
    more := run;
    if chunk < 500 {
      PushPop(Exec(cap, dropOldest, workers, run), popped, chunk);
      ExecMore(cap, dropOldest, workers, run, Push(0));
      ExecMore(cap, dropOldest, workers, run + [Push(0)], Pop(0));
      more := FillChunk(cap, dropOldest, workers, run + [Push(0)] + [Pop(0)], popped, chunk + 1);
    }
  }

  const FIRST_STEPS: seq<Step> := [RecordEnter(0), Begin(0, false), Receive(0, 0)]

  lemma FirstState(cap: nat, dropOldest: bool, workers: nat)
    requires 0 < cap && 0 < workers
    ensures Checking(Exec(cap, dropOldest, workers, FIRST_STEPS), 0)
    ensures var s := Exec(cap, dropOldest, workers, FIRST_STEPS); s.cap == cap && s.rp == 0
  {
    hide Next, Init, Checking;
    var i := Init(cap, dropOldest, workers);
    ExecMore(cap, dropOldest, workers, [], RecordEnter(0));
    ExecMore(cap, dropOldest, workers, [RecordEnter(0)], Begin(0, false));
    ExecMore(cap, dropOldest, workers, [RecordEnter(0), Begin(0, false)], Receive(0, 0));
    assert [] + [RecordEnter(0)] == [RecordEnter(0)];
    assert [RecordEnter(0)] + [Begin(0, false)] == [RecordEnter(0), Begin(0, false)];
    assert [RecordEnter(0), Begin(0, false)] + [Receive(0, 0)] == FIRST_STEPS;
    assert Exec(cap, dropOldest, workers, []) == i;
    hide Exec;
    FirstNext(cap, dropOldest, workers);
  }

  lemma FirstNext(cap: nat, dropOldest: bool, workers: nat)
    requires 0 < cap && 0 < workers
    ensures var s := Next(Next(Next(Init(cap, dropOldest, workers), RecordEnter(0)), Begin(0, false)), Receive(0, 0));
            Checking(s, 0) && s.cap == cap && s.rp == 0
  {
    var i := Init(cap, dropOldest, workers);
    var s1 := Next(i, RecordEnter(0));
    assert s1 == i.(active := {} + {0});
    var s2 := Next(s1, Begin(0, false));
    assert s2 == SetCall(s1, 0, Call(1, false, 0, 0, {}, false, false, false, None)).(flushGen := 1);
    hide RingStep, BackgroundStep, SettleStep, CallStep;
  }

  /**
   With a producer that keeps up, a worker can take 499 positions over the capacity in one drain, for every capacity
   and number of workers.
   */
  lemma DrainExceeds(cap: nat, dropOldest: bool, workers: nat) returns (run: seq<Step>)
    requires 0 < cap && 0 < workers
    ensures FIRST_STEPS <= run && Exec(cap, dropOldest, workers, FIRST_STEPS).rp == 0
    ensures var s := Exec(cap, dropOldest, workers, run);
            && TakenBy(s.owner, 0, 0) == cap + 499
            && s.workers != [] && CallOf(s.workers[0].pc) == Some(0)
  {
    hide Next, Exec, TakenBy;
    FirstState(cap, dropOldest, workers);
    run := ManyMore(cap, dropOldest, workers, FIRST_STEPS, 0);
    CheckPops(Exec(cap, dropOldest, workers, run), cap - 1);
    ExecMore(cap, dropOldest, workers, run, Check(0));
    run := FillChunk(cap, dropOldest, workers, run + [Check(0)], cap - 1, 0);
  }

  // ---- what a Shutdown that gave up leaves behind ----

  /** Something was dropped only after a Shutdown returned. */
  ghost predicate DropsAreLate(s: State) {
    && (s.dropped != {} ==> s.cancelled)
    && (s.cancelled ==> exists c :: c in s.calls && s.calls[c].stop && s.calls[c].result.Some?)
  }

  lemma OthersDropNothing(s: State, step: Step)
    requires Enabled(s, step) && !step.Cancel? && !step.Drop?
    ensures Next(s, step).dropped == s.dropped && Next(s, step).cancelled == s.cancelled
  {
    if IsRing(step) || IsBackground(step) {
      hide DrainStep, SettleStep, CallStep;
    } else {
      hide RingStep, BackgroundStep;
    }
  }

  lemma StepDrops(s: State, step: Step)
    requires DropsAreLate(s)
    ensures DropsAreLate(Next(s, step))
  {
    if !Enabled(s, step) {
    } else if step.Cancel? || step.Drop? {
      hide RingStep, DrainStep, SettleStep;
    } else {
      OthersDropNothing(s, step);
      hide Next;
      if s.cancelled {
        var c :| c in s.calls && s.calls[c].stop && s.calls[c].result.Some?;
        StepCallStays(s, step, c);
        ResultStays(s, step, c);
      }
    }
  }

  lemma ResultStays(s: State, step: Step, c: Cid)
    requires Enabled(s, step) && c in s.calls && s.calls[c].result.Some?
    ensures var t := Next(s, step); c in t.calls && t.calls[c].result.Some? && t.calls[c].stop == s.calls[c].stop
  {
    if IsRing(step) || IsBackground(step) {
      hide DrainStep, SettleStep, CallStep;
    } else {
      hide RingStep, BackgroundStep;
    }
  }

  /** An accepted observation is dropped only after a Shutdown returned. */
  lemma {:induction false} DropsNeedShutdown(cap: nat, dropOldest: bool, workers: nat, run: seq<Step>)
    ensures DropsAreLate(Exec(cap, dropOldest, workers, run))
    decreases |run|
  {
    hide Next;
    if run != [] {
      DropsNeedShutdown(cap, dropOldest, workers, run[..|run| - 1]);
      StepDrops(Exec(cap, dropOldest, workers, run[..|run| - 1]), run[|run| - 1]);
    }
  }

  /** The context of a Shutdown ends, the Shutdown gives up and the workers are cancelled. */
  lemma GivesUp(s: State)
    requires 0 in s.calls && s.calls[0].stop && s.calls[0].result.None? && s.workers != [] && s.workers[0].pc.Loop?
    ensures var t := Next(Next(Next(s, ContextEnds(0)), Abort(0)), Cancel(0));
            && t.cancelled && t.workers == s.workers
            && 0 in t.calls && t.calls[0].stop && t.calls[0].result == Some(false)
  {
    hide RingStep, BackgroundStep, DrainStep, SettleStep;
    var s1 := Next(s, ContextEnds(0));
    assert s1 == SetCall(s, 0, s.calls[0].(dead := true));
    var s2 := Next(s1, Abort(0));
    assert s2 == SetCall(s1, 0, s1.calls[0].(aborted := true, result := Some(false)));
  }

  lemma DropsBatch(s: State)
    requires s.cancelled && s.workers != [] && s.workers[0].pc.Loop? && s.workers[0].batch == [0]
    ensures var t := Next(s, Drop(0)); 0 in t.dropped && t.calls == s.calls
  {
    hide RingStep, DrainStep, SettleStep, CallStep;
  }

  /** A Shutdown that gives up can leave an accepted observation to be dropped, for every capacity and worker count. */
  lemma ShutdownCanDrop(cap: nat, dropOldest: bool, workers: nat) returns (run: seq<Step>)
    requires 0 < cap && 0 < workers
    ensures var s := Exec(cap, dropOldest, workers, run);
            0 in s.dropped && 0 in s.calls && s.calls[0].stop && s.calls[0].result == Some(false)
  {
    hide Next, Exec;
    ClosedState(cap, dropOldest, workers);
    run := ACCEPTED_AND_CLOSED + [Begin(0, true)];
    var s := Exec(cap, dropOldest, workers, run);
    GivesUp(s);
    ExecMore(cap, dropOldest, workers, run, ContextEnds(0));
    ExecMore(cap, dropOldest, workers, run + [ContextEnds(0)], Abort(0));
    ExecMore(cap, dropOldest, workers, run + [ContextEnds(0)] + [Abort(0)], Cancel(0));
    run := run + [ContextEnds(0)] + [Abort(0)] + [Cancel(0)];
    DropsBatch(Exec(cap, dropOldest, workers, run));
    ExecMore(cap, dropOldest, workers, run, Drop(0));
    run := run + [Drop(0)];
  }
}
