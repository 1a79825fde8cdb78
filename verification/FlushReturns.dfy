/**
 What a call returns: nil exactly when nothing went wrong for it. A call is to blame for the failed exports made in
 its drains, and for background exports that failed since its generation, as far as they were recorded before their
 worker took its request.
 */
module FlushReturns {
  import opened FlushMachine
  import opened FlushInvariant
  import opened FlushPreservation
  import opened FlushRuns
  import opened FlushRisk
  import opened Options

  // ---- what can go wrong ----

  /** An export that a worker makes for call c ends with an error. */
  predicate FailsFor(s: State, step: Step, c: Cid) {
    && Enabled(s, step) && (step.EndDrainExport? || step.EndFinalExport?) && !step.ok
    && CallOf(s.workers[step.w].pc) == Some(c)
  }

  /** Worker w records a background export that failed when generation gen had already been taken. */
  predicate FailsInBackground(s: State, step: Step, w: Wid, gen: nat) {
    step == RecordOutcome(w) && Enabled(s, step) && s.workers[w].pc == Recording(false) && s.flushGen >= gen
  }

  /** Worker w takes the request of call c. */
  predicate Takes(s: State, step: Step, w: Wid, c: Cid) {
    step == Receive(w, c) && Enabled(s, step)
  }

  ghost predicate DrainFailed(cap: nat, dropOldest: bool, workers: nat, run: seq<Step>, c: Cid) {
    exists i :: 0 <= i < |run| && FailsFor(Exec(cap, dropOldest, workers, run[..i]), run[i], c)
  }

  ghost predicate BackgroundFailed(cap: nat, dropOldest: bool, workers: nat, run: seq<Step>, w: Wid, gen: nat) {
    exists j :: 0 <= j < |run| && FailsInBackground(Exec(cap, dropOldest, workers, run[..j]), run[j], w, gen)
  }

  ghost predicate TookAfterFailure(
      cap: nat, dropOldest: bool, workers: nat, run: seq<Step>, c: Cid, gen: nat, i: nat, w: Wid)
  {
    && i < |run| && Takes(Exec(cap, dropOldest, workers, run[..i]), run[i], w, c)
    && BackgroundFailed(cap, dropOldest, workers, run[..i], w, gen)
  }

  /** Something went wrong in the run that call c, of generation gen, has to report. */
  ghost predicate Blamed(cap: nat, dropOldest: bool, workers: nat, run: seq<Step>, c: Cid, gen: nat) {
    || DrainFailed(cap, dropOldest, workers, run, c)
    || exists i: nat, w: Wid :: TookAfterFailure(cap, dropOldest, workers, run, c, gen, i, w)
  }

  // ---- one more step ----

  lemma DrainFailedMore(cap: nat, dropOldest: bool, workers: nat, run: seq<Step>, step: Step, c: Cid)
    ensures DrainFailed(cap, dropOldest, workers, run + [step], c) <==>
      || DrainFailed(cap, dropOldest, workers, run, c)
      || FailsFor(Exec(cap, dropOldest, workers, run), step, c)
  {
    hide Exec, FailsFor;
    var more := run + [step];
    forall i | 0 <= i <= |run| ensures more[..i] == run[..i] {}
    assert run[..|run|] == run && more[|run|] == step;
    if DrainFailed(cap, dropOldest, workers, run, c) {
      var i :| 0 <= i < |run| && FailsFor(Exec(cap, dropOldest, workers, run[..i]), run[i], c);
      assert more[i] == run[i];
    }
    if DrainFailed(cap, dropOldest, workers, more, c) {
      var i :| 0 <= i < |more| && FailsFor(Exec(cap, dropOldest, workers, more[..i]), more[i], c);
      assert i < |run| ==> more[i] == run[i];
    }
  }

  lemma BackgroundFailedMore(
      cap: nat, dropOldest: bool, workers: nat, run: seq<Step>, step: Step, w: Wid, gen: nat)
    ensures BackgroundFailed(cap, dropOldest, workers, run + [step], w, gen) <==>
      || BackgroundFailed(cap, dropOldest, workers, run, w, gen)
      || FailsInBackground(Exec(cap, dropOldest, workers, run), step, w, gen)
  {
    hide Exec, FailsInBackground;
    var more := run + [step];
    forall i | 0 <= i <= |run| ensures more[..i] == run[..i] {}
    assert run[..|run|] == run && more[|run|] == step;
    if BackgroundFailed(cap, dropOldest, workers, run, w, gen) {
      var i :| 0 <= i < |run| && FailsInBackground(Exec(cap, dropOldest, workers, run[..i]), run[i], w, gen);
      assert more[i] == run[i];
    }
    if BackgroundFailed(cap, dropOldest, workers, more, w, gen) {
      var i :| 0 <= i < |more| && FailsInBackground(Exec(cap, dropOldest, workers, more[..i]), more[i], w, gen);
      assert i < |run| ==> more[i] == run[i];
    }
  }

  ghost predicate SomeTook(cap: nat, dropOldest: bool, workers: nat, run: seq<Step>, c: Cid, gen: nat) {
    exists i: nat, w: Wid :: TookAfterFailure(cap, dropOldest, workers, run, c, gen, i, w)
  }

  lemma TookMore(cap: nat, dropOldest: bool, workers: nat, run: seq<Step>, step: Step, c: Cid, gen: nat)
    ensures SomeTook(cap, dropOldest, workers, run + [step], c, gen) <==>
      || SomeTook(cap, dropOldest, workers, run, c, gen)
      || (step.Receive? && Takes(Exec(cap, dropOldest, workers, run), step, step.w, c)
          && BackgroundFailed(cap, dropOldest, workers, run, step.w, gen))
  {
    hide Exec, Takes, BackgroundFailed;
    var more := run + [step];
    forall i | 0 <= i <= |run| ensures more[..i] == run[..i] {}
    assert run[..|run|] == run && more[|run|] == step;
    if SomeTook(cap, dropOldest, workers, run, c, gen) {
      var i: nat, w: Wid :| TookAfterFailure(cap, dropOldest, workers, run, c, gen, i, w);
      assert more[i] == run[i];
      assert TookAfterFailure(cap, dropOldest, workers, more, c, gen, i, w);
    }
    if SomeTook(cap, dropOldest, workers, more, c, gen) {
      var i: nat, w: Wid :| TookAfterFailure(cap, dropOldest, workers, more, c, gen, i, w);
      if i < |run| {
        assert more[i] == run[i];
        assert TookAfterFailure(cap, dropOldest, workers, run, c, gen, i, w);
      } else {
        TakesIsReceive(Exec(cap, dropOldest, workers, run), step, w, c);
      }
    }
    if step.Receive? && Takes(Exec(cap, dropOldest, workers, run), step, step.w, c)
       && BackgroundFailed(cap, dropOldest, workers, run, step.w, gen)
    {
      assert TookAfterFailure(cap, dropOldest, workers, more, c, gen, |run|, step.w);
    }
  }

  lemma TakesIsReceive(s: State, step: Step, w: Wid, c: Cid)
    requires Takes(s, step, w, c)
    ensures step.Receive? && step.w == w
  {
    hide Enabled;
  }

  // ---- failures a worker remembers ----

  lemma LoopRemembersFailure(s: State, step: Step, w: Wid, gen: nat)
    requires Enabled(s, step) && IsBackground(step)
    requires w < |s.workers| && (s.workers[w].fail.Some? ==> s.workers[w].fail.value <= s.flushGen)
    ensures w < |Next(s, step).workers|
    ensures Since(Next(s, step).workers[w].fail, gen) <==>
      Since(s.workers[w].fail, gen) || FailsInBackground(s, step, w, gen)
  {
    hide RingStep, DrainStep, SettleStep, CallStep;
  }

  lemma DrainKeepsFailure(s: State, step: Step, w: Wid)
    requires Enabled(s, step) && (IsDrain(step) || IsSettle(step)) && w < |s.workers|
    ensures w < |Next(s, step).workers| && Next(s, step).workers[w].fail == s.workers[w].fail
  {
    hide RingStep, BackgroundStep, CallStep;
  }

  lemma StepRemembersFailure(s: State, step: Step, w: Wid, gen: nat)
    requires w < |s.workers| && (s.workers[w].fail.Some? ==> s.workers[w].fail.value <= s.flushGen)
    ensures w < |Next(s, step).workers|
    ensures Since(Next(s, step).workers[w].fail, gen) <==>
      Since(s.workers[w].fail, gen) || FailsInBackground(s, step, w, gen)
  {
    hide RingStep, BackgroundStep, DrainStep, SettleStep, CallStep;
    if Enabled(s, step) && IsBackground(step) { LoopRemembersFailure(s, step, w, gen); }
    else if Enabled(s, step) && ByWorker(step) { DrainKeepsFailure(s, step, w); }
    else { OthersKeepWorkers(s, step); }
  }

  lemma OthersKeepWorkers(s: State, step: Step)
    requires !Enabled(s, step) || !ByWorker(step)
    ensures Next(s, step).workers == s.workers
  {
    hide BackgroundStep, DrainStep, SettleStep;
  }

  /** What a worker remembers is what it recorded. */
  lemma {:induction false} RemembersFailures(
      cap: nat, dropOldest: bool, workers: nat, run: seq<Step>, w: Wid, gen: nat)
    requires w < workers
    ensures w < |Exec(cap, dropOldest, workers, run).workers|
    ensures Since(Exec(cap, dropOldest, workers, run).workers[w].fail, gen) <==>
      BackgroundFailed(cap, dropOldest, workers, run, w, gen)
    decreases |run|
  {
    hide Next, Since, FailsInBackground;
    if run == [] {
      NothingFailedYet(cap, dropOldest, workers, w, gen);
    } else {
      var before, step := run[..|run| - 1], run[|run| - 1];
      assert run == before + [step];
      RemembersFailures(cap, dropOldest, workers, before, w, gen);
      RunInv(cap, dropOldest, workers, before);
      var s := Exec(cap, dropOldest, workers, before);
      assert WorkerOk(s, w) && Sized(s);
      hide Inv, BackgroundFailed;
      StepRemembersFailure(s, step, w, gen);
      BackgroundFailedMore(cap, dropOldest, workers, before, step, w, gen);
    }
  }

  lemma NothingFailedYet(cap: nat, dropOldest: bool, workers: nat, w: Wid, gen: nat)
    requires w < workers
    ensures !Since(Init(cap, dropOldest, workers).workers[w].fail, gen)
  {
  }

  // ---- failures a call has to report ----

  /** Worker w serves call c and has a failure for it. */
  predicate Carries(s: State, w: Wid, c: Cid) {
    w < |s.workers| && CallOf(s.workers[w].pc) == Some(c) && Errs(s.workers[w].pc)
  }

  /** A failure on its way to call c: a worker that serves it has one, or it was acknowledged. */
  ghost predicate Trouble(s: State, c: Cid) {
    c in s.calls && (s.calls[c].failed || exists w: Wid :: Carries(s, w, c))
  }

  /** A worker takes the request of c after a background export failed since its generation. */
  predicate TakesLate(s: State, step: Step, c: Cid) {
    step.Receive? && Takes(s, step, step.w, c) && Since(s.workers[step.w].fail, s.calls[c].gen)
  }

  /** What worker v and the call itself know after a step of v, compared with before. */
  predicate OwnChange(s: State, t: State, step: Step, v: Wid, c: Cid) {
    && v < |s.workers| == |t.workers| && t.workers == s.workers[v := t.workers[v]]
    && c in s.calls && c in t.calls
    && (t.calls[c].failed || Carries(t, v, c) <==>
        s.calls[c].failed || Carries(s, v, c) || FailsFor(s, step, c) || TakesLate(s, step, c))
  }

  lemma BackgroundChange(s: State, step: Step, c: Cid)
    requires Enabled(s, step) && IsBackground(step) && c in s.calls
    ensures OwnChange(s, Next(s, step), step, step.w, c)
  {
    hide RingStep, DrainStep, SettleStep, CallStep;
  }

  lemma DrainChange(s: State, step: Step, c: Cid)
    requires Enabled(s, step) && IsDrain(step) && c in s.calls
    ensures OwnChange(s, Next(s, step), step, step.w, c)
  {
    hide RingStep, BackgroundStep, SettleStep, CallStep;
  }

  lemma SettleChange(s: State, step: Step, c: Cid)
    requires Enabled(s, step) && IsSettle(step) && c in s.calls
    ensures OwnChange(s, Next(s, step), step, step.w, c)
  {
    hide RingStep, BackgroundStep, DrainStep, CallStep;
  }

  lemma WorkerTrouble(s: State, t: State, step: Step, v: Wid, c: Cid)
    requires OwnChange(s, t, step, v, c)
    ensures Trouble(t, c) <==> Trouble(s, c) || FailsFor(s, step, c) || TakesLate(s, step, c)
  {
    hide FailsFor, TakesLate;
    assert forall w: Wid :: w != v ==> (Carries(t, w, c) <==> Carries(s, w, c));
  }

  /** Steps of producers and calls make no trouble. */
  lemma OutsideTrouble(s: State, step: Step, c: Cid)
    requires Enabled(s, step) && !ByWorker(step) && (c in s.calls || forall w: Wid :: !Carries(s, w, c))
    ensures Trouble(Next(s, step), c) <==> Trouble(s, c)
    ensures !FailsFor(s, step, c) && !TakesLate(s, step, c)
  {
    hide BackgroundStep, DrainStep, SettleStep;
    OthersKeepWorkers(s, step);
    assert forall w: Wid :: Carries(Next(s, step), w, c) <==> Carries(s, w, c);
  }

  lemma UnknownCall(s: State, c: Cid)
    requires Inv(s) && c !in s.calls
    ensures forall w: Wid :: !Carries(s, w, c)
    ensures forall w: Wid :: w < |s.workers| ==> CallOf(s.workers[w].pc) != Some(c)
  {
    forall w: Wid | w < |s.workers| ensures CallOf(s.workers[w].pc) != Some(c) { assert WorkerOk(s, w); }
  }

  lemma UnknownStep(s: State, step: Step, c: Cid)
    requires Enabled(s, step) && ByWorker(step) && c !in s.calls
    requires forall w: Wid :: w < |s.workers| ==> CallOf(s.workers[w].pc) != Some(c)
    ensures c !in Next(s, step).calls && !FailsFor(s, step, c) && !TakesLate(s, step, c)
  {
    hide RingStep, CallStep;
  }

  lemma StepTrouble(s: State, step: Step, c: Cid)
    requires Inv(s)
    ensures Trouble(Next(s, step), c) <==> Trouble(s, c) || FailsFor(s, step, c) || TakesLate(s, step, c)
  {
    hide Next, Enabled, Inv, Trouble, FailsFor, TakesLate, OwnChange, Carries;
    if !Enabled(s, step) {
      Impossible(s, step, c);
    } else if !ByWorker(step) {
      if c !in s.calls { UnknownCall(s, c); }
      OutsideTrouble(s, step, c);
    } else if c !in s.calls {
      UnknownCall(s, c);
      UnknownStep(s, step, c);
      NoCallNoTrouble(s, Next(s, step), c);
    } else {
      if IsBackground(step) { BackgroundChange(s, step, c); }
      else if IsDrain(step) { DrainChange(s, step, c); }
      else { SettleChange(s, step, c); }
      WorkerTrouble(s, Next(s, step), step, step.w, c);
    }
  }

  lemma Impossible(s: State, step: Step, c: Cid)
    requires !Enabled(s, step)
    ensures Next(s, step) == s && !FailsFor(s, step, c) && !TakesLate(s, step, c)
  {
    hide Enabled;
  }

  lemma NoCallNoTrouble(s: State, t: State, c: Cid)
    requires c !in s.calls && c !in t.calls
    ensures !Trouble(s, c) && !Trouble(t, c)
  {
  }

  // ---- over a run ----

  lemma BlamedMore(cap: nat, dropOldest: bool, workers: nat, run: seq<Step>, step: Step, c: Cid, gen: nat)
    ensures Blamed(cap, dropOldest, workers, run + [step], c, gen) <==>
      || Blamed(cap, dropOldest, workers, run, c, gen)
      || FailsFor(Exec(cap, dropOldest, workers, run), step, c)
      || (step.Receive? && Takes(Exec(cap, dropOldest, workers, run), step, step.w, c)
          && BackgroundFailed(cap, dropOldest, workers, run, step.w, gen))
  {
    hide Exec, Takes, BackgroundFailed, DrainFailed, TookAfterFailure, FailsFor;
    DrainFailedMore(cap, dropOldest, workers, run, step, c);
    TookMore(cap, dropOldest, workers, run, step, c, gen);
    assert SomeTook(cap, dropOldest, workers, run, c, gen) <==>
      exists i: nat, w: Wid :: TookAfterFailure(cap, dropOldest, workers, run, c, gen, i, w);
    assert SomeTook(cap, dropOldest, workers, run + [step], c, gen) <==>
      exists i: nat, w: Wid :: TookAfterFailure(cap, dropOldest, workers, run + [step], c, gen, i, w);
  }

  /** The generation of a call never changes. */
  lemma GenStays(s: State, step: Step, c: Cid)
    requires Inv(s) && c in s.calls
    ensures c in Next(s, step).calls && Next(s, step).calls[c].gen == s.calls[c].gen
  {
    hide Inv;
    if Enabled(s, step) && ByWorker(step) { WorkerKeepsGen(s, step, c); }
    else {
      hide BackgroundStep, DrainStep, SettleStep;
    }
  }

  lemma WorkerKeepsGen(s: State, step: Step, c: Cid)
    requires Enabled(s, step) && ByWorker(step) && c in s.calls
    ensures c in Next(s, step).calls && Next(s, step).calls[c].gen == s.calls[c].gen
  {
    hide RingStep, CallStep;
  }

  lemma LateIff(cap: nat, dropOldest: bool, workers: nat, run: seq<Step>, step: Step, c: Cid, gen: nat)
    requires var s := Exec(cap, dropOldest, workers, run); c in s.calls ==> s.calls[c].gen == gen
    ensures var s := Exec(cap, dropOldest, workers, run);
            TakesLate(s, step, c) <==>
              step.Receive? && Takes(s, step, step.w, c) && BackgroundFailed(cap, dropOldest, workers, run, step.w, gen)
  {
    var s := Exec(cap, dropOldest, workers, run);
    if step.Receive? && Takes(s, step, step.w, c) {
      RunInv(cap, dropOldest, workers, run);
      WorkersStay(cap, dropOldest, workers, run);
      hide Exec, BackgroundFailed, Inv;
      RemembersFailures(cap, dropOldest, workers, run, step.w, gen);
    }
  }

  lemma {:induction false} WorkersStay(cap: nat, dropOldest: bool, workers: nat, run: seq<Step>)
    ensures |Exec(cap, dropOldest, workers, run).workers| == workers
    decreases |run|
  {
    hide Next;
    if run != [] {
      var before := run[..|run| - 1];
      WorkersStay(cap, dropOldest, workers, before);
      RunInv(cap, dropOldest, workers, before);
      SizedStep(Exec(cap, dropOldest, workers, before), run[|run| - 1]);
    }
  }

  /** A call has a failure to report exactly when one happened in the run. */
  lemma {:induction false} TroubleIff(
      cap: nat, dropOldest: bool, workers: nat, run: seq<Step>, c: Cid, gen: nat)
    requires var s := Exec(cap, dropOldest, workers, run); c in s.calls ==> s.calls[c].gen == gen
    ensures Trouble(Exec(cap, dropOldest, workers, run), c) <==> Blamed(cap, dropOldest, workers, run, c, gen)
    decreases |run|
  {
    hide Next, Inv, Trouble, Blamed, FailsFor, TakesLate, Takes, BackgroundFailed;
    if run == [] {
      NothingYet(cap, dropOldest, workers, c, gen);
    } else {
      var before, step := run[..|run| - 1], run[|run| - 1];
      assert run == before + [step];
      RunInv(cap, dropOldest, workers, before);
      var s := Exec(cap, dropOldest, workers, before);
      if c in s.calls { GenStays(s, step, c); }
      TroubleIff(cap, dropOldest, workers, before, c, gen);
      StepTrouble(s, step, c);
      BlamedMore(cap, dropOldest, workers, before, step, c, gen);
      LateIff(cap, dropOldest, workers, before, step, c, gen);
    }
  }

  lemma NothingYet(cap: nat, dropOldest: bool, workers: nat, c: Cid, gen: nat)
    ensures !Trouble(Init(cap, dropOldest, workers), c) && !Blamed(cap, dropOldest, workers, [], c, gen)
  {
    hide Exec, Takes, BackgroundFailed, FailsFor;
  }

  /** Nobody serves a call that has all acknowledgements. */
  lemma ReturnedTrouble(s: State, c: Cid)
    requires Inv(s) && c in s.calls && s.calls[c].result.Some? && !s.calls[c].aborted
    ensures Trouble(s, c) <==> s.calls[c].failed
    ensures s.calls[c].result == Some(true) <==> !s.calls[c].failed
  {
    assert CallOk(s, c);
    var k := s.calls[c];
    if k.result != Some(true) {
      assert k.result.value == false;
      assert k.result == Some(false);
    }
    forall w: Wid ensures !Carries(s, w, c) {
      if w < |s.workers| { assert WorkerOk(s, w); }
    }
  }

  /**
   A Flush or Shutdown that ends with all acknowledgements returns nil exactly when no export made for it failed and no
   worker recorded a failed background export since its generation before it took the request.
   */
  lemma ReturnsNilIff(cap: nat, dropOldest: bool, workers: nat, run: seq<Step>, c: Cid)
    requires var s := Exec(cap, dropOldest, workers, run);
             c in s.calls && s.calls[c].result.Some? && !s.calls[c].aborted
    ensures var k := Exec(cap, dropOldest, workers, run).calls[c];
            k.result == Some(true) <==> !Blamed(cap, dropOldest, workers, run, c, k.gen)
  {
    hide Exec, Blamed, Trouble, Inv;
    RunInv(cap, dropOldest, workers, run);
    var s := Exec(cap, dropOldest, workers, run);
    ReturnedTrouble(s, c);
    TroubleIff(cap, dropOldest, workers, run, c, s.calls[c].gen);
  }

  // ---- a Shutdown that succeeds ----

  /** The five steps of a worker with nothing left in the ring. */
  function ServeSteps(w: Wid, c: Cid): seq<Step> {
    [Receive(w, c), Check(w), EndBatch(w), EndFinalExport(w, true), Ack(w)]
  }

  /** The state after a worker served a Shutdown: it exported its batch, acknowledged and exited. */
  function Served(s: State, w: Wid, c: Cid): State
    requires w < |s.workers| && c in s.calls
  {
    var x, k := s.workers[w], s.calls[c];
    s.(workers := s.workers[w := x.(pc := Exited, batch := [])],
       calls := s.calls[c := k.(next := w + 1, acked := k.acked + {w})],
       exported := ExportBatch(s.exported, x.batch, Export(w, true, s.flushGen, Some(c))))
  }

  predicate CanServe(s: State, w: Wid, c: Cid) {
    && w < |s.workers| && s.workers[w].pc.Loop? && s.workers[w].fail == None && s.rp == s.wp && s.cap > 0
    && c in s.calls && s.calls[c].next == w && s.calls[c].stop && s.calls[c].result.None?
    && !s.calls[c].dead && !s.calls[c].failed
  }

  lemma FirstThree(s: State, w: Wid, c: Cid)
    requires CanServe(s, w, c)
    ensures var x, k := s.workers[w], s.calls[c];
            Next(Next(Next(s, Receive(w, c)), Check(w)), EndBatch(w)) ==
              SetCall(SetWorker(s, w, x.(pc := FinalExporting(c, false))), c, k.(next := w + 1))
  {
    hide RingStep, BackgroundStep, SettleStep, CallStep;
    var x, k := s.workers[w], s.calls[c];
    var s1 := Next(s, Receive(w, c));
    assert s1 == SetCall(SetWorker(s, w, x.(pc := DrainCheck(c, s.rp, 0, false))), c, k.(next := w + 1));
    var s2 := Next(s1, Check(w));
    assert s2 == SetCall(SetWorker(s, w, x.(pc := Draining(c, s.rp, 0, 0, false))), c, k.(next := w + 1));
  }

  lemma ServeOne(s: State, w: Wid, c: Cid)
    requires CanServe(s, w, c)
    ensures From(s, ServeSteps(w, c)) == Served(s, w, c)
  {
    hide Next, From;
    FirstThree(s, w, c);
    LastTwo(Next(Next(Next(s, Receive(w, c)), Check(w)), EndBatch(w)), w, c);
    FiveSteps(s, w, c);
  }

  lemma LastTwo(s: State, w: Wid, c: Cid)
    requires w < |s.workers| && s.workers[w].pc == FinalExporting(c, false) && c in s.calls && s.calls[c].stop
    requires !s.calls[c].failed
    ensures var x, k := s.workers[w], s.calls[c];
            Next(Next(s, EndFinalExport(w, true)), Ack(w)) ==
              s.(workers := s.workers[w := x.(pc := Exited, batch := [])],
                 calls := s.calls[c := k.(acked := k.acked + {w})],
                 exported := ExportBatch(s.exported, x.batch, Export(w, true, s.flushGen, Some(c))))
  {
    hide RingStep, BackgroundStep, DrainStep, CallStep;
    var x := s.workers[w];
    var t := Next(s, EndFinalExport(w, true));
    assert t == SetWorker(s, w, x.(pc := Acking(c, false), batch := []))
                  .(exported := ExportBatch(s.exported, x.batch, Export(w, true, s.flushGen, Some(c))));
  }

  lemma FirstOf(s: State, run: seq<Step>)
    requires run != []
    ensures From(s, run) == From(Next(s, run[0]), run[1..])
  {
    hide Next;
  }

  lemma NoneOf(s: State)
    ensures From(s, []) == s
  {
  }

  lemma FiveSteps(s: State, w: Wid, c: Cid)
    ensures From(s, ServeSteps(w, c)) ==
      Next(Next(Next(Next(Next(s, Receive(w, c)), Check(w)), EndBatch(w)), EndFinalExport(w, true)), Ack(w))
  {
    hide Next, From;
    var r := ServeSteps(w, c);
    var s1 := Next(s, Receive(w, c));
    var s2 := Next(s1, Check(w));
    var s3 := Next(s2, EndBatch(w));
    var s4 := Next(s3, EndFinalExport(w, true));
    assert r[1..][1..] == r[2..] && r[2..][1..] == r[3..] && r[3..][1..] == r[4..] && r[4..][1..] == [];
    FirstOf(s, r);
    FirstOf(s1, r[1..]);
    FirstOf(s2, r[2..]);
    FirstOf(s3, r[3..]);
    FirstOf(s4, r[4..]);
    NoneOf(Next(s4, Ack(w)));
  }

  /** Every worker from the next one on serves the call. */
  ghost predicate AllCanServe(s: State, c: Cid) {
    && s.rp == s.wp && s.cap > 0 && c in s.calls && s.calls[c].next <= |s.workers|
    && s.calls[c].stop && s.calls[c].result.None? && !s.calls[c].dead && !s.calls[c].failed
    && (forall w: Wid :: w < s.calls[c].next ==> w in s.calls[c].acked)
    && (forall w: Wid :: s.calls[c].next <= w < |s.workers| ==> s.workers[w].pc.Loop? && s.workers[w].fail == None)
  }

  lemma {:induction false} ServeRest(s: State, c: Cid) returns (run: seq<Step>)
    requires AllCanServe(s, c)
    ensures var t := From(s, run);
            && c in t.calls && t.calls[c].result.None? && !t.calls[c].dead && !t.calls[c].failed
            && t.calls[c].stop && |t.workers| == |s.workers|
            && forall w: Wid :: w < |t.workers| ==> w in t.calls[c].acked
    decreases |s.workers| - s.calls[c].next
  {
    var w := s.calls[c].next;
    if w == |s.workers| {
      run := [];
    } else {
      ServeOne(s, w, c);
      hide Next, From;
      var rest := ServeRest(Served(s, w, c), c);
      FromConcat(s, ServeSteps(w, c), rest);
      run := ServeSteps(w, c) + rest;
    }
  }

  /** One observation is accepted and popped, and the pipeline is closed. */
  const ACCEPTED_AND_CLOSED: seq<Step> := [RecordEnter(0), Push(0), RecordExit(0), Pop(0), Close]

  lemma ClosedState(cap: nat, dropOldest: bool, workers: nat)
    requires 0 < cap && 0 < workers
    ensures var s := Exec(cap, dropOldest, workers, ACCEPTED_AND_CLOSED + [Begin(0, true)]);
            && AllCanServe(s, 0) && s.calls[0].start == 1 && |s.workers| == workers
            && s.workers[0].batch == [0] && s.calls[0].next == 0
  {
    var i := Init(cap, dropOldest, workers);
    var run := ACCEPTED_AND_CLOSED + [Begin(0, true)];
    assert run == [RecordEnter(0), Push(0), RecordExit(0), Pop(0), Close, Begin(0, true)];
    SixSteps(i, run);
    assert [] + run == run && Exec(cap, dropOldest, workers, []) == i;
    FromIsExec(cap, dropOldest, workers, [], run);
    var s1 := Next(i, RecordEnter(0));
    assert s1 == i.(active := {0}) by { assert {} + {0} == {0}; }
    var s2 := Next(s1, Push(0));
    assert s2 == s1.(wp := 1);
    var s3 := Next(s2, RecordExit(0));
    assert s3 == s2.(active := {}) by { assert {0} - {0} == {}; }
    AfterPop(s3);
  }

  lemma SixSteps(s: State, run: seq<Step>)
    requires |run| == 6
    ensures From(s, run) == Next(Next(Next(Next(Next(Next(s, run[0]), run[1]), run[2]), run[3]), run[4]), run[5])
  {
    hide Next, From;
    var s1 := Next(s, run[0]);
    var s2 := Next(s1, run[1]);
    var s3 := Next(s2, run[2]);
    var s4 := Next(s3, run[3]);
    var s5 := Next(s4, run[4]);
    assert run[1..][1..] == run[2..] && run[2..][1..] == run[3..] && run[3..][1..] == run[4..];
    assert run[4..][1..] == run[5..] && run[5..][1..] == [];
    FirstOf(s, run);
    FirstOf(s1, run[1..]);
    FirstOf(s2, run[2..]);
    FirstOf(s3, run[3..]);
    FirstOf(s4, run[4..]);
    FirstOf(s5, run[5..]);
    NoneOf(Next(s5, run[5]));
  }

  lemma AfterPop(s: State)
    requires s.wp == 1 && s.rp == 0 && s.active == {} && !s.closed && s.calls == map[] && s.workers != [] && s.cap > 0
    requires s.workers == seq(|s.workers|, i => Worker(Loop, [], None))
    ensures var t := Next(Next(Next(s, Pop(0)), Close), Begin(0, true));
            && AllCanServe(t, 0) && t.calls[0].start == 1 && |t.workers| == |s.workers|
            && t.workers[0].batch == [0] && t.calls[0].next == 0
  {
    var s1 := Next(s, Pop(0));
    assert s1 == SetWorker(s, 0, Worker(Loop, [] + [0], None)).(rp := 1, owner := s.owner + [By(0)]);
    var s2 := Next(s1, Close);
    assert s2 == s1.(closed := true);
  }

  lemma ReturnsNil(s: State, c: Cid)
    requires c in s.calls && s.calls[c].result.None? && !s.calls[c].failed
    requires forall w: Wid :: w < |s.workers| ==> w in s.calls[c].acked
    ensures Next(s, Return(c)) == SetCall(s, c, s.calls[c].(result := Some(true)))
  {
    hide RingStep, BackgroundStep, DrainStep, SettleStep;
  }

  /** A Shutdown after an accepted observation can return nil, for every capacity and number of workers. */
  lemma ShutdownCanSucceed(cap: nat, dropOldest: bool, workers: nat) returns (run: seq<Step>)
    requires 0 < cap && 0 < workers
    ensures var s := Exec(cap, dropOldest, workers, run); Succeeded(s, 0) && s.calls[0].stop
  {
    ClosedState(cap, dropOldest, workers);
    var before := ACCEPTED_AND_CLOSED + [Begin(0, true)];
    var s := Exec(cap, dropOldest, workers, before);
    hide Exec, Next, From, AllCanServe;
    var rest := ServeRest(s, 0);
    var t := From(s, rest);
    ReturnsNil(t, 0);
    FromIsExec(cap, dropOldest, workers, before, rest);
    FromOne(t, Return(0));
    FromIsExec(cap, dropOldest, workers, before + rest, [Return(0)]);
    run := before + rest + [Return(0)];
  }
}
