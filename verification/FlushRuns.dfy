/**
 The flush invariant holds in every run.
 */
module FlushRuns {
  import opened FlushMachine
  import opened FlushInvariant
  import opened FlushPreservation

  lemma WorkerFacts(s: State, step: Step)
    requires Inv(s) && Enabled(s, step) && ByWorker(step)
    ensures step.w < |s.workers| && BatchOk(s, step.w) && WorkerOk(s, step.w)
  {
  }

  lemma StepPosition(s: State, step: Step, p: nat)
    requires Inv(s) && Enabled(s, step) && p < |Next(s, step).owner|
    ensures PositionOk(Next(s, step), p)
  {
    if ByWorker(step) { WorkerFacts(s, step); }
    assert p < |s.owner| ==> PositionOk(s, p);
    hide PositionOk, BatchOk, WorkerOk, FailureOk, CallOk, SettledAll, Next, Enabled;
    if IsRing(step) { RingPosition(s, step, p); }
    else if IsBackground(step) { BackgroundPosition(s, step, p); }
    else if IsDrain(step) { DrainPosition(s, step, p); }
    else if IsSettle(step) { SettlePosition(s, step, p); }
    else { CallPosition(s, step, p); }
  }

  lemma StepBatch(s: State, step: Step, w: Wid)
    requires Inv(s) && Enabled(s, step) && w < |s.workers| && |Next(s, step).workers| == |s.workers|
    ensures BatchOk(Next(s, step), w)
  {
    if ByWorker(step) { WorkerFacts(s, step); }
    assert BatchOk(s, w);
    hide PositionOk, BatchOk, WorkerOk, FailureOk, CallOk, SettledAll, Next, Enabled;
    if IsRing(step) { RingBatch(s, step, w); }
    else if IsBackground(step) { BackgroundBatch(s, step, w); }
    else if IsDrain(step) { DrainBatch(s, step, w); }
    else if IsSettle(step) { SettleBatch(s, step, w); }
    else { CallBatch(s, step, w); }
  }

  lemma StepWorker(s: State, step: Step, w: Wid)
    requires Inv(s) && Enabled(s, step) && w < |s.workers| && |Next(s, step).workers| == |s.workers|
    ensures WorkerOk(Next(s, step), w)
  {
    if ByWorker(step) { WorkerFacts(s, step); }
    assert WorkerOk(s, w);
    hide PositionOk, BatchOk, WorkerOk, FailureOk, CallOk, SettledAll, Next, Enabled;
    if IsRing(step) { RingWorker(s, step, w); }
    else if IsBackground(step) { BackgroundWorker(s, step, w); }
    else if IsDrain(step) { DrainWorker(s, step, w); }
    else if step.Ack? { SettleAckWorker(s, step, w); }
    else if IsSettle(step) { SettleExportWorker(s, step, w); }
    else { CallWorker(s, step, w); }
  }

  lemma StepFailure(s: State, step: Step, p: nat)
    requires Inv(s) && Enabled(s, step) && p in Next(s, step).exported
    ensures FailureOk(Next(s, step), p)
  {
    if ByWorker(step) { WorkerFacts(s, step); }
    assert p in s.exported ==> FailureOk(s, p);
    hide PositionOk, BatchOk, WorkerOk, FailureOk, CallOk, SettledAll, Next, Enabled;
    if IsRing(step) { RingFailure(s, step, p); }
    else if IsBackground(step) { BackgroundFailure(s, step, p); }
    else if IsDrain(step) { DrainFailure(s, step, p); }
    else if IsSettle(step) { SettleFailure(s, step, p); }
    else { CallFailure(s, step, p); }
  }

  lemma StepCall(s: State, step: Step, c: Cid)
    requires Inv(s) && Enabled(s, step) && c in Next(s, step).calls
    ensures CallOk(Next(s, step), c)
  {
    if ByWorker(step) { WorkerFacts(s, step); }
    assert c in s.calls ==> CallOk(s, c);
    hide PositionOk, BatchOk, WorkerOk, FailureOk, CallOk, SettledAll, Next, Enabled;
    if IsRing(step) { RingCall(s, step, c); }
    else if IsBackground(step) { BackgroundCall(s, step, c); }
    else if IsDrain(step) { DrainCall(s, step, c); }
    else if IsSettle(step) { SettleCall(s, step, c); }
    else { CallCall(s, step, c); }
  }

  lemma StepTaken(s: State, step: Step)
    requires Inv(s) && Enabled(s, step)
    ensures TakenOk(Next(s, step))
  {
    if ByWorker(step) { WorkerFacts(s, step); }
    hide PositionOk, BatchOk, WorkerOk, FailureOk, CallOk, SettledAll, Next, Enabled;
    if IsRing(step) { RingTaken(s, step); }
    else if IsBackground(step) { BackgroundTaken(s, step); }
    else if IsDrain(step) { DrainTaken(s, step); }
    else if IsSettle(step) { SettleTaken(s, step); }
    else { CallTaken(s, step); }
  }

  lemma StepCallStays(s: State, step: Step, c: Cid)
    requires Enabled(s, step) && c in s.calls
    ensures c in Next(s, step).calls && CallGrows(s.calls[c], Next(s, step).calls[c])
    ensures !step.Ack? ==> Next(s, step).calls[c].acked == s.calls[c].acked
  {
    if IsRing(step) || IsBackground(step) { CallsUntouched(s, step); }
    else if IsDrain(step) { CallStaysInDrain(s, step, c); }
    else if IsSettle(step) { CallStaysInSettle(s, step, c); }
    else { CallStaysInCalls(s, step, c); }
  }

  lemma StepSettled(s: State, step: Step, c: Cid, p: nat)
    requires Inv(s) && Enabled(s, step) && c in s.calls && p < |s.owner| && s.owner <= Next(s, step).owner
    requires c in Next(s, step).calls && CallGrows(s.calls[c], Next(s, step).calls[c])
    requires !step.Ack? ==> Next(s, step).calls[c].acked == s.calls[c].acked
    requires s.calls[c].acked != {} ==> Settled(s, c, p)
    requires Next(s, step).calls[c].acked != {}
    ensures Settled(Next(s, step), c, p)
  {
    assert PositionOk(s, p) && (p in s.exported ==> FailureOk(s, p));
    if ByWorker(step) { WorkerFacts(s, step); }
    hide PositionOk, BatchOk, WorkerOk, FailureOk, CallOk, SettledAll, Next, Enabled, Settled;
    if step.Ack? {
      AckSettles(s, step.w, c, p);
    } else {
      if p in s.exported { ExportStays(s, step, p); }
      SettledKeeps(s, Next(s, step), c, p);
    }
  }

  lemma StepSettledAll(s: State, step: Step, c: Cid)
    requires Inv(s) && Enabled(s, step) && c in Next(s, step).calls && s.owner <= Next(s, step).owner
    ensures SettledAll(Next(s, step), c)
  {
    var s' := Next(s, step);
    if c !in s.calls {
      NewCall(s, step, c);
    } else {
      StepCallStays(s, step, c);
      assert CallOk(s, c) && SettledAll(s, c);
      hide PositionOk, BatchOk, WorkerOk, FailureOk, Next, Enabled, Settled;
      if !s'.calls[c].dead && s'.calls[c].acked != {} {
        StepCall(s, step, c);
        forall p: nat | p < s'.calls[c].start && p < |s'.owner| ensures Settled(s', c, p) {
          StartWasTaken(s, step, c);
          StepSettled(s, step, c, p);
        }
      }
    }
  }

  /** By the time of any acknowledgement everything accepted before the call had already left the ring. */
  lemma StartWasTaken(s: State, step: Step, c: Cid)
    requires Inv(s) && Enabled(s, step) && c in s.calls && c in Next(s, step).calls
    requires !Next(s, step).calls[c].dead && Next(s, step).calls[c].acked != {}
    ensures s.calls[c].start <= |s.owner|
  {
    StepCallStays(s, step, c);
    assert CallOk(s, c);
    if ByWorker(step) { WorkerFacts(s, step); }
    if s.calls[c].acked == {} { AckComesFromItsCall(s, step, c); }
  }

  lemma AckComesFromItsCall(s: State, step: Step, c: Cid)
    requires Enabled(s, step) && c in s.calls && c in Next(s, step).calls
    requires s.calls[c].acked == {} && Next(s, step).calls[c].acked != {}
    ensures step.Ack? && s.workers[step.w].pc.call == c
  {
    StepCallStays(s, step, c);
  }

  lemma StepInv(s: State, step: Step)
    requires Inv(s)
    ensures Inv(Next(s, step))
  {
    if Enabled(s, step) {
      var s' := Next(s, step);
      SizedStep(s, step);
      ClosedStep(s, step);
      StepTaken(s, step);
      hide Next, Enabled;
      forall p: nat | p < |s'.owner| ensures PositionOk(s', p) { StepPosition(s, step, p); }
      forall w: Wid | w < |s'.workers| ensures BatchOk(s', w) && WorkerOk(s', w) {
        StepBatch(s, step, w);
        StepWorker(s, step, w);
      }
      forall p | p in s'.exported ensures FailureOk(s', p) { StepFailure(s, step, p); }
      forall c | c in s'.calls ensures CallOk(s', c) && SettledAll(s', c) {
        StepCall(s, step, c);
        StepSettledAll(s, step, c);
      }
    }
  }

  lemma {:induction false} RunInv(cap: nat, dropOldest: bool, workers: nat, run: seq<Step>)
    ensures Inv(Exec(cap, dropOldest, workers, run))
    ensures var s := Exec(cap, dropOldest, workers, run);
            |s.workers| == workers && s.dropOldest == dropOldest
    decreases |run|
  {
    if run != [] {
      var s := Exec(cap, dropOldest, workers, run[..|run| - 1]);
      RunInv(cap, dropOldest, workers, run[..|run| - 1]);
      StepInv(s, run[|run| - 1]);
      SizedStep(s, run[|run| - 1]);
      ParametersStay(s, run[|run| - 1]);
    }
  }
}
