/**
 The other direction: when no position is at risk as a Flush begins, or some worker cannot acknowledge it, its nil
 result is right.
 */
module FlushShield {
  import opened FlushMachine
  import opened FlushInvariant
  import opened FlushPreservation
  import opened FlushRuns
  import opened FlushRisk
  import opened Options

  // ---- no position at risk ----

  predicate ServesOther(s: State, c: Cid, call: Option<Cid>) {
    call.Some? && call.value != c && call.value in s.calls && !s.calls[call.value].stop
  }

  /** A worker that drains for another Flush has nothing old and will not get anything old. */
  predicate WorkerSafe(s: State, c: Cid, w: Wid)
    requires w < |s.workers| && c in s.calls
  {
    var x := s.workers[w];
    ServesOther(s, c, CallOf(x.pc)) ==>
      && !HoldsOld(x.batch, s.calls[c].start)
      && (s.calls[c].start <= s.rp || Dry(s, w))
  }

  /** Another Flush that still has workers to reach will find nothing old there. */
  predicate CallSafe(s: State, c: Cid, d: Cid)
    requires c in s.calls && d in s.calls
  {
    d != c && s.calls[d].result.None? && !s.calls[d].stop && s.calls[d].next < |s.workers| ==>
      && s.calls[c].start <= s.rp
      && forall w: Wid :: s.calls[d].next <= w < |s.workers| && s.workers[w].pc.Loop? ==>
           !HoldsOld(s.workers[w].batch, s.calls[c].start)
  }

  /** An old position lost for another call was lost for a Shutdown, whose worker will not acknowledge c any more. */
  predicate ExportSafe(s: State, c: Cid, p: nat)
    requires c in s.calls
  {
    p < s.calls[c].start && FailedForAnother(s, c, p) ==>
      var d, w := s.exported[p].cause.value, s.exported[p].worker;
      && d in s.calls && s.calls[d].stop && w < |s.workers| && w !in s.calls[c].acked
      && (s.workers[w].pc.Exited? || CallOf(s.workers[w].pc) == Some(d))
  }

  /** A live call that no drain for another Flush can hurt. */
  ghost predicate Sheltered(s: State, c: Cid) {
    && c in s.calls
    && (forall w: Wid :: w < |s.workers| ==> WorkerSafe(s, c, w))
    && (forall d :: d in s.calls ==> CallSafe(s, c, d))
    && (forall p :: p in s.exported ==> ExportSafe(s, c, p))
  }

  ghost predicate Shielded(s: State, c: Cid) {
    c in s.calls && (s.calls[c].dead || Sheltered(s, c))
  }

  lemma RingWorkerSafe(s: State, step: Step, c: Cid, w: Wid)
    requires Enabled(s, step) && IsRing(step) && w < |s.workers| && c in s.calls && WorkerSafe(s, c, w)
    ensures w < |Next(s, step).workers| && c in Next(s, step).calls && WorkerSafe(Next(s, step), c, w)
  {
    hide BackgroundStep, DrainStep, SettleStep, CallStep;
  }

  lemma BackgroundWorkerSafe(s: State, step: Step, c: Cid, w: Wid)
    requires Enabled(s, step) && IsBackground(step) && w < |s.workers| && c in s.calls && WorkerSafe(s, c, w)
    ensures w < |Next(s, step).workers| && c in Next(s, step).calls && WorkerSafe(Next(s, step), c, w)
  {
    hide WorkerSafe, BackgroundStep, RingStep, DrainStep, SettleStep, CallStep;
    if step.Pop? { PopWorkerSafe(s, step.w, c, w); } else { LoopWorkerSafe(s, step, c, w); }
  }

  lemma PopWorkerSafe(s: State, v: Wid, c: Cid, w: Wid)
    requires Enabled(s, Pop(v)) && w < |s.workers| && c in s.calls && WorkerSafe(s, c, w)
    ensures var t := BackgroundStep(s, Pop(v)); w < |t.workers| && c in t.calls && WorkerSafe(t, c, w)
  {
    hide Next;
  }

  lemma LoopWorkerSafe(s: State, step: Step, c: Cid, w: Wid)
    requires Enabled(s, step) && IsBackground(step) && !step.Pop?
    requires w < |s.workers| && c in s.calls && WorkerSafe(s, c, w)
    ensures var t := BackgroundStep(s, step); w < |t.workers| && c in t.calls && WorkerSafe(t, c, w)
  {
    hide Next, HoldsOld;
    EmptyHoldsNothing(s.calls[c].start);
  }

  lemma DrainWorkerSafe(s: State, step: Step, c: Cid, w: Wid)
    requires Enabled(s, step) && IsDrain(step) && w < |s.workers| && c in s.calls && WorkerSafe(s, c, w)
    requires step.Receive? ==> CallSafe(s, c, step.c)
    ensures w < |Next(s, step).workers| && c in Next(s, step).calls && WorkerSafe(Next(s, step), c, w)
  {
    hide RingStep, BackgroundStep, SettleStep, CallStep;
  }

  lemma SettleOtherSafe(s: State, step: Step, c: Cid, w: Wid)
    requires Enabled(s, step) && IsSettle(step) && w < |s.workers| && c in s.calls && WorkerSafe(s, c, w) && w != step.w
    ensures w < |Next(s, step).workers| && c in Next(s, step).calls && WorkerSafe(Next(s, step), c, w)
  {
    hide HoldsOld, RingStep, BackgroundStep, DrainStep, CallStep;
  }

  lemma SettleSelfSafe(s: State, step: Step, c: Cid)
    requires Enabled(s, step) && IsSettle(step) && c in s.calls && step.w < |s.workers| && WorkerSafe(s, c, step.w)
    ensures step.w < |Next(s, step).workers| && c in Next(s, step).calls && WorkerSafe(Next(s, step), c, step.w)
  {
    hide RingStep, BackgroundStep, DrainStep, CallStep;
  }

  lemma SettleWorkerSafe(s: State, step: Step, c: Cid, w: Wid)
    requires Enabled(s, step) && IsSettle(step) && w < |s.workers| && c in s.calls && WorkerSafe(s, c, w)
    ensures w < |Next(s, step).workers| && c in Next(s, step).calls && WorkerSafe(Next(s, step), c, w)
  {
    hide Next, Enabled, WorkerSafe;
    if w == step.w { SettleSelfSafe(s, step, c); } else { SettleOtherSafe(s, step, c, w); }
  }

  lemma CallWorkerSafe(s: State, step: Step, c: Cid, w: Wid)
    requires Enabled(s, step) && IsCall(step) && !step.Begin? && w < |s.workers| && c in s.calls && WorkerSafe(s, c, w)
    ensures w < |Next(s, step).workers| && c in Next(s, step).calls && WorkerSafe(Next(s, step), c, w)
  {
    hide RingStep, BackgroundStep, DrainStep, SettleStep;
  }

  lemma RingCallSafe(s: State, step: Step, c: Cid, d: Cid)
    requires Enabled(s, step) && IsRing(step) && c in s.calls && d in s.calls && CallSafe(s, c, d)
    ensures c in Next(s, step).calls && d in Next(s, step).calls && CallSafe(Next(s, step), c, d)
  {
    hide BackgroundStep, DrainStep, SettleStep, CallStep;
  }

  lemma BackgroundCallSafe(s: State, step: Step, c: Cid, d: Cid)
    requires Enabled(s, step) && IsBackground(step) && c in s.calls && d in s.calls && CallSafe(s, c, d)
    requires step.w < |s.workers| && BatchOk(s, step.w)
    ensures c in Next(s, step).calls && d in Next(s, step).calls && CallSafe(Next(s, step), c, d)
  {
    hide RingStep, DrainStep, SettleStep, CallStep;
  }

  lemma ReceiveCallSafe(s: State, w: Wid, e: Cid, c: Cid, d: Cid)
    requires Enabled(s, Receive(w, e)) && c in s.calls && d in s.calls && CallSafe(s, c, d)
    ensures var t := DrainStep(s, Receive(w, e)); c in t.calls && d in t.calls && CallSafe(t, c, d)
  {
    hide Next, HoldsOld;
  }

  lemma DrainCallSafe(s: State, step: Step, c: Cid, d: Cid)
    requires Enabled(s, step) && IsDrain(step) && c in s.calls && d in s.calls && CallSafe(s, c, d)
    ensures c in Next(s, step).calls && d in Next(s, step).calls && CallSafe(Next(s, step), c, d)
  {
    hide RingStep, BackgroundStep, SettleStep, CallStep, HoldsOld;
    if step.Receive? { ReceiveCallSafe(s, step.w, step.c, c, d); }
    else { assert Next(s, step).calls == s.calls && Next(s, step).rp == s.rp; }
  }

  lemma EmptyHoldsNothing(start: nat)
    ensures !HoldsOld([], start)
  {
  }

  lemma SettleCallSafe(s: State, step: Step, c: Cid, d: Cid)
    requires Enabled(s, step) && IsSettle(step) && c in s.calls && d in s.calls && CallSafe(s, c, d)
    requires step.w < |s.workers| && BatchOk(s, step.w)
    ensures c in Next(s, step).calls && d in Next(s, step).calls && CallSafe(Next(s, step), c, d)
  {
    hide RingStep, BackgroundStep, DrainStep, CallStep, HoldsOld;
    EmptyHoldsNothing(s.calls[c].start);
  }

  lemma CallCallSafe(s: State, step: Step, c: Cid, d: Cid)
    requires Enabled(s, step) && IsCall(step) && !step.Begin? && c in s.calls && d in s.calls && CallSafe(s, c, d)
    ensures c in Next(s, step).calls && d in Next(s, step).calls && CallSafe(Next(s, step), c, d)
  {
    hide RingStep, BackgroundStep, DrainStep, SettleStep;
  }

  /** What keeps a lost position harmless. */
  lemma ExportStaysSafe(s: State, t: State, c: Cid, p: nat)
    requires c in s.calls && c in t.calls && p in s.exported && p in t.exported && ExportSafe(s, c, p)
    requires t.exported[p] == s.exported[p] && CallGrows(s.calls[c], t.calls[c]) && |t.workers| == |s.workers|
    requires p < s.calls[c].start && FailedForAnother(s, c, p) && s.exported[p].worker in t.calls[c].acked ==>
               s.exported[p].worker in s.calls[c].acked
    requires s.exported[p].worker < |s.workers| ==> StillLost(s, t, s.exported[p].worker)
    requires s.exported[p].cause.Some? && s.exported[p].cause.value in s.calls ==>
               && s.exported[p].cause.value in t.calls
               && CallGrows(s.calls[s.exported[p].cause.value], t.calls[s.exported[p].cause.value])
    ensures ExportSafe(t, c, p)
  {
  }

  predicate Stopping(s: State, w: Wid)
    requires w < |s.workers|
  {
    var call := CallOf(s.workers[w].pc);
    call.Some? && call.value in s.calls && s.calls[call.value].stop
  }

  /** A worker that has exited stays so, and one that serves a Shutdown serves it on or exits. */
  predicate StillLost(s: State, t: State, w: Wid)
    requires w < |s.workers| == |t.workers|
  {
    && (s.workers[w].pc.Exited? ==> t.workers[w].pc.Exited?)
    && (Stopping(s, w) ==>
          && CallOf(s.workers[w].pc).value in t.calls && t.calls[CallOf(s.workers[w].pc).value].stop
          && (t.workers[w].pc.Exited? || CallOf(t.workers[w].pc) == CallOf(s.workers[w].pc)))
  }

  lemma LostInBackground(s: State, step: Step, w: Wid)
    requires Enabled(s, step) && (IsRing(step) || IsBackground(step)) && w < |s.workers| == |Next(s, step).workers|
    ensures StillLost(s, Next(s, step), w)
  {
  }

  lemma LostInDrain(s: State, step: Step, w: Wid)
    requires Enabled(s, step) && IsDrain(step) && w < |s.workers| == |Next(s, step).workers|
    ensures StillLost(s, Next(s, step), w)
  {
    hide RingStep, BackgroundStep, SettleStep, CallStep;
  }

  lemma LostInSettle(s: State, step: Step, w: Wid)
    requires Enabled(s, step) && IsSettle(step) && w < |s.workers| == |Next(s, step).workers|
    ensures StillLost(s, Next(s, step), w)
  {
    hide RingStep, BackgroundStep, DrainStep, CallStep;
  }

  lemma LostInCalls(s: State, step: Step, w: Wid)
    requires Enabled(s, step) && IsCall(step) && !step.Begin? && w < |s.workers| == |Next(s, step).workers|
    ensures StillLost(s, Next(s, step), w)
  {
    hide RingStep, BackgroundStep, DrainStep, SettleStep;
  }

  lemma StepLost(s: State, step: Step, w: Wid)
    requires Enabled(s, step) && !step.Begin? && w < |s.workers| == |Next(s, step).workers|
    ensures StillLost(s, Next(s, step), w)
  {
    hide Next, Enabled, StillLost;
    if IsRing(step) || IsBackground(step) { LostInBackground(s, step, w); }
    else if IsDrain(step) { LostInDrain(s, step, w); }
    else if IsSettle(step) { LostInSettle(s, step, w); }
    else { LostInCalls(s, step, w); }
  }

  /** A position in a batch was not settled for c by the worker that holds it. */
  predicate Unsettled(s: State, c: Cid, w: Wid)
    requires w < |s.workers| && c in s.calls
  {
    HoldsOld(s.workers[w].batch, s.calls[c].start) ==> w !in s.calls[c].acked
  }

  /** Only an acknowledgement of c adds to its acknowledgements, and only the worker that makes it. */
  lemma OnlyServersAck(s: State, step: Step, c: Cid, w: Wid)
    requires Enabled(s, step) && c in s.calls && c in Next(s, step).calls && w < |s.workers|
    requires w in Next(s, step).calls[c].acked && w !in s.calls[c].acked
    ensures CallOf(s.workers[w].pc) == Some(c)
  {
    StepCallStays(s, step, c);
    if step.Ack? { AckAdds(s, step.w, c, w); }
  }

  lemma AckAdds(s: State, v: Wid, c: Cid, w: Wid)
    requires Enabled(s, Ack(v)) && c in s.calls
    ensures c in Next(s, Ack(v)).calls
    ensures w in Next(s, Ack(v)).calls[c].acked && w !in s.calls[c].acked ==>
      w == v && CallOf(s.workers[v].pc) == Some(c)
  {
  }

  /** An export that was there before the step. */
  lemma OldExportSafe(s: State, step: Step, c: Cid, p: nat)
    requires Inv(s) && Enabled(s, step) && !step.Begin? && c in s.calls && p in s.exported && ExportSafe(s, c, p)
    ensures c in Next(s, step).calls && ExportSafe(Next(s, step), c, p)
  {
    StepCallStays(s, step, c);
    SizedStep(s, step);
    if ByWorker(step) { WorkerFacts(s, step); }
    ExportStays(s, step, p);
    assert FailureOk(s, p);
    var w, e := s.exported[p].worker, s.exported[p].cause;
    StepLost(s, step, w);
    if e.Some? && e.value in s.calls { StepCallStays(s, step, e.value); }
    hide Next, Enabled, Inv, StillLost, BatchOk, WorkerOk, FailureOk;
    if FailedForAnother(s, c, p) && p < s.calls[c].start && w in Next(s, step).calls[c].acked {
      if w !in s.calls[c].acked { OnlyServersAck(s, step, c, w); }
    }
    ExportStaysSafe(s, Next(s, step), c, p);
  }

  /** Only the end of an export adds exported positions, those of the batch. */
  lemma OnlyExportsAdd(s: State, step: Step, p: nat)
    requires Enabled(s, step) && p in Next(s, step).exported && p !in s.exported
    ensures step.EndExport? || step.EndDrainExport? || step.EndFinalExport?
    ensures step.w < |s.workers| && p in s.workers[step.w].batch
  {
  }

  /** An export that ends with the step. */
  lemma NewExportSafe(s: State, step: Step, c: Cid, p: nat)
    requires Enabled(s, step) && c in s.calls && p in Next(s, step).exported && p !in s.exported
    requires ByWorker(step) ==>
               step.w < |s.workers| && WorkerOk(s, step.w) && WorkerSafe(s, c, step.w) && Unsettled(s, c, step.w)
    ensures c in Next(s, step).calls && ExportSafe(Next(s, step), c, p)
  {
    OnlyExportsAdd(s, step, p);
    if step.EndExport? { EndExportSafe(s, step.w, step.ok, c, p); }
    else if step.EndDrainExport? { EndDrainExportSafe(s, step.w, step.ok, c, p); }
    else { EndFinalExportSafe(s, step.w, step.ok, c, p); }
    hide Next, Enabled, WorkerOk, WorkerSafe, ExportSafe;
  }

  predicate Exporter(s: State, w: Wid, c: Cid) {
    && c in s.calls && w < |s.workers|
    && WorkerOk(s, w) && WorkerSafe(s, c, w) && Unsettled(s, c, w)
  }

  lemma EndExportSafe(s: State, w: Wid, ok: bool, c: Cid, p: nat)
    requires Enabled(s, EndExport(w, ok)) && Exporter(s, w, c) && p in s.workers[w].batch
    ensures c in Next(s, EndExport(w, ok)).calls && ExportSafe(Next(s, EndExport(w, ok)), c, p)
  {
  }

  lemma EndDrainExportSafe(s: State, w: Wid, ok: bool, c: Cid, p: nat)
    requires Enabled(s, EndDrainExport(w, ok)) && Exporter(s, w, c) && p in s.workers[w].batch
    ensures c in Next(s, EndDrainExport(w, ok)).calls && ExportSafe(Next(s, EndDrainExport(w, ok)), c, p)
  {
  }

  lemma EndFinalExportSafe(s: State, w: Wid, ok: bool, c: Cid, p: nat)
    requires Enabled(s, EndFinalExport(w, ok)) && Exporter(s, w, c) && p in s.workers[w].batch
    ensures c in Next(s, EndFinalExport(w, ok)).calls && ExportSafe(Next(s, EndFinalExport(w, ok)), c, p)
  {
  }

  lemma StepWorkerSafe(s: State, step: Step, c: Cid, w: Wid)
    requires Enabled(s, step) && !step.Begin? && w < |s.workers| && c in s.calls && WorkerSafe(s, c, w)
    requires forall d :: d in s.calls ==> CallSafe(s, c, d)
    ensures w < |Next(s, step).workers| && c in Next(s, step).calls && WorkerSafe(Next(s, step), c, w)
  {
    assert step.Receive? ==> step.c in s.calls;
    hide Next, Enabled, WorkerSafe, CallSafe;
    if IsRing(step) { RingWorkerSafe(s, step, c, w); }
    else if IsBackground(step) { BackgroundWorkerSafe(s, step, c, w); }
    else if IsDrain(step) { DrainWorkerSafe(s, step, c, w); }
    else if IsSettle(step) { SettleWorkerSafe(s, step, c, w); }
    else { CallWorkerSafe(s, step, c, w); }
  }

  lemma StepCallSafe(s: State, step: Step, c: Cid, d: Cid)
    requires Enabled(s, step) && !step.Begin? && c in s.calls && d in s.calls && CallSafe(s, c, d)
    requires ByWorker(step) ==> step.w < |s.workers| && BatchOk(s, step.w)
    ensures c in Next(s, step).calls && d in Next(s, step).calls && CallSafe(Next(s, step), c, d)
  {
    hide Next, Enabled, CallSafe, BatchOk;
    if IsRing(step) { RingCallSafe(s, step, c, d); }
    else if IsBackground(step) { BackgroundCallSafe(s, step, c, d); }
    else if IsDrain(step) { DrainCallSafe(s, step, c, d); }
    else if IsSettle(step) { SettleCallSafe(s, step, c, d); }
    else { CallCallSafe(s, step, c, d); }
  }

  lemma NothingUnsettled(s: State, c: Cid, w: Wid)
    requires c in s.calls && SettledAll(s, c) && w < |s.workers| && BatchOk(s, w) && !s.calls[c].dead
    ensures Unsettled(s, c, w)
  {
    if HoldsOld(s.workers[w].batch, s.calls[c].start) {
      var p :| p in s.workers[w].batch && p < s.calls[c].start;
      assert s.calls[c].acked != {} ==> Settled(s, c, p);
    }
  }

  lemma NoNewCalls(s: State, step: Step, d: Cid)
    requires Enabled(s, step) && !step.Begin? && d in Next(s, step).calls
    ensures d in s.calls
  {
  }

  lemma ShieldLive(s: State, step: Step, c: Cid)
    requires Inv(s) && Enabled(s, step) && !step.Begin? && Sheltered(s, c) && !s.calls[c].dead
    ensures Shielded(Next(s, step), c)
  {
    hide Inv, Next, Enabled, WorkerSafe, CallSafe, ExportSafe, BatchOk, WorkerOk, Unsettled;
    StepCallStays(s, step, c);
    StepFacts(s, step, c);
    var t := Next(s, step);
    forall w: Wid | w < |t.workers| ensures WorkerSafe(t, c, w) { StepWorkerSafe(s, step, c, w); }
    forall d | d in t.calls ensures CallSafe(t, c, d) {
      NoNewCalls(s, step, d);
      StepCallSafe(s, step, c, d);
    }
    forall p | p in t.exported ensures ExportSafe(t, c, p) {
      if p in s.exported { OldExportSafe(s, step, c, p); } else { NewExportSafe(s, step, c, p); }
    }
  }

  lemma StepFacts(s: State, step: Step, c: Cid)
    requires Inv(s) && Enabled(s, step) && c in s.calls && !s.calls[c].dead
    ensures |Next(s, step).workers| == |s.workers|
    ensures ByWorker(step) ==>
              step.w < |s.workers| && BatchOk(s, step.w) && WorkerOk(s, step.w) && Unsettled(s, c, step.w)
  {
    SizedStep(s, step);
    assert SettledAll(s, c);
    if ByWorker(step) {
      WorkerFacts(s, step);
      hide Inv, Next, Enabled, BatchOk, WorkerOk, SettledAll, Unsettled;
      NothingUnsettled(s, c, step.w);
    }
  }

  lemma ShieldStep(s: State, step: Step, c: Cid)
    requires Inv(s) && Shielded(s, c) && !step.Begin?
    ensures Shielded(Next(s, step), c)
  {
    hide Inv, Next, Enabled, WorkerSafe, CallSafe, ExportSafe, BatchOk, WorkerOk, Unsettled;
    if Enabled(s, step) {
      StepCallStays(s, step, c);
      if !s.calls[c].dead {
        ShieldLive(s, step, c);
      }
    } else {
      Stutters(s, step);
    }
  }

  lemma Stutters(s: State, step: Step)
    requires !Enabled(s, step)
    ensures Next(s, step) == s
  {
  }

  lemma {:induction false} ShieldRun(s: State, c: Cid, run: seq<Step>)
    requires Inv(s) && Shielded(s, c) && NoBegins(run)
    ensures Inv(From(s, run)) && Shielded(From(s, run), c)
    decreases |run|
  {
    hide Inv, Shielded, Next;
    if run != [] {
      StepInv(s, run[0]);
      ShieldStep(s, run[0], c);
      ShieldRun(Next(s, run[0]), c, run[1..]);
    }
  }

  lemma BeginStep(s: State, c: Cid, stop: bool)
    requires Enabled(s, Begin(c, stop))
    ensures c !in s.calls
    ensures Next(s, Begin(c, stop)) ==
      SetCall(s, c, Call(s.flushGen + 1, stop, s.wp, 0, {}, false, false, false, None)).(flushGen := s.flushGen + 1)
  {
  }

  lemma CallStartsSafe(s: State, t: State, c: Cid, d: Cid)
    requires d in s.calls && d != c && d in t.calls && t.calls[d] == s.calls[d]
    requires t.workers == s.workers && t.rp == s.rp
    requires c in t.calls && t.calls[c].start == s.wp && s.rp <= s.wp
    requires forall w: Wid :: !AtRisk(s, c, s.wp, w, d)
    ensures CallSafe(t, c, d)
  {
    hide HoldsOld, ServesOld;
    if s.calls[d].result.None? && !s.calls[d].stop && s.calls[d].next < |s.workers| {
      assert !AtRisk(s, c, s.wp, s.calls[d].next, d);
      forall w: Wid | s.calls[d].next <= w < |s.workers| && s.workers[w].pc.Loop?
        ensures !HoldsOld(s.workers[w].batch, s.wp)
      {
        assert !AtRisk(s, c, s.wp, w, d);
      }
    }
  }

  lemma WorkerStartsSafe(s: State, t: State, c: Cid, w: Wid)
    requires w < |s.workers| && BatchOk(s, w) && Sized(s) && t.workers == s.workers && t.rp == s.rp && t.cap == s.cap
    requires c !in s.calls && c in t.calls && t.calls == s.calls[c := t.calls[c]] && t.calls[c].start == s.wp
    requires forall d :: !AtRisk(s, c, s.wp, w, d)
    ensures WorkerSafe(t, c, w)
  {
    var e := CallOf(s.workers[w].pc);
    if e.Some? && e.value in s.calls && !s.calls[e.value].stop {
      assert !AtRisk(s, c, s.wp, w, e.value);
      if s.rp < s.wp { DryOrOld(s, s.wp, w); }
    }
  }

  /** Nothing is at risk when the call begins. */
  lemma ShieldStarts(s: State, c: Cid, stop: bool)
    requires Inv(s) && Enabled(s, Begin(c, stop)) && forall w: Wid, d: Cid :: !AtRisk(s, c, s.wp, w, d)
    ensures Shielded(Next(s, Begin(c, stop)), c)
  {
    var t := Next(s, Begin(c, stop));
    BeginStep(s, c, stop);
    hide Next, Enabled, AtRisk, WorkerSafe, CallSafe;
    forall w: Wid | w < |t.workers| ensures WorkerSafe(t, c, w) {
      assert BatchOk(s, w);
      WorkerStartsSafe(s, t, c, w);
    }
    forall d | d in t.calls ensures CallSafe(t, c, d) {
      if d != c { CallStartsSafe(s, t, c, d); } else { CallSafeItself(t, c); }
    }
    forall p | p in t.exported ensures ExportSafe(t, c, p) { assert FailureOk(s, p); }
  }

  lemma CallSafeItself(s: State, c: Cid)
    requires c in s.calls
    ensures CallSafe(s, c, c)
  {
  }

  /** A successful call behind the shield has no position that was lost for another one. */
  lemma ShieldHolds(s: State, c: Cid, p: nat)
    requires Inv(s) && Shielded(s, c) && Succeeded(s, c) && p < s.calls[c].start
    ensures !FailedForAnother(s, c, p)
  {
    assert CallOk(s, c);
    if p in s.exported { assert ExportSafe(s, c, p); }
  }

  // ---- a worker that cannot acknowledge ----

  /** Worker w will never acknowledge c without a failure, or c has failed already. */
  predicate Doomed(s: State, c: Cid, w: Wid)
    requires w < |s.workers| && c in s.calls
  {
    var x := s.workers[w];
    || s.calls[c].failed
    || (w !in s.calls[c].acked &&
        (x.pc.Exited? || x.pc == Recording(false) || Since(x.fail, s.calls[c].gen)
         || (CallOf(x.pc).Some? && CallOf(x.pc).value != c && CallOf(x.pc).value in s.calls
             && s.calls[CallOf(x.pc).value].stop)))
  }

  lemma DoomedRing(s: State, step: Step, c: Cid, w: Wid)
    requires Enabled(s, step) && IsRing(step) && w < |s.workers| && c in s.calls && Doomed(s, c, w)
    ensures w < |Next(s, step).workers| && c in Next(s, step).calls && Doomed(Next(s, step), c, w)
  {
    hide BackgroundStep, DrainStep, SettleStep, CallStep;
    assert Next(s, step).workers == s.workers && Next(s, step).calls == s.calls;
  }

  lemma DoomedBackground(s: State, step: Step, c: Cid, w: Wid)
    requires Enabled(s, step) && IsBackground(step) && w < |s.workers| && c in s.calls
    requires Doomed(s, c, w) && CallOk(s, c) && (s.workers[w].fail.Some? ==> s.workers[w].fail.value <= s.flushGen)
    ensures w < |Next(s, step).workers| && c in Next(s, step).calls && Doomed(Next(s, step), c, w)
  {
    BackgroundWorkers(s, step, w);
    hide Next, Enabled;
    var x, y := s.workers[w], Next(s, step).workers[w];
    if x.pc == Recording(false) && y != x { assert y.fail == Some(s.flushGen); }
  }

  /** What a step of the background loop does to a worker. */
  predicate LoopMove(x: Worker, y: Worker, gen: nat) {
    || y == x
    || (!x.pc.Exited? && (y.pc.Exited? || CallOf(y.pc) == CallOf(x.pc))
        && (x.pc != Recording(false) ==> y.fail == x.fail)
        && (x.pc == Recording(false) ==> y.fail == Some(gen)))
  }

  lemma BackgroundWorkers(s: State, step: Step, w: Wid)
    requires Enabled(s, step) && IsBackground(step) && w < |s.workers|
    ensures Next(s, step).calls == s.calls && |Next(s, step).workers| == |s.workers|
    ensures LoopMove(s.workers[w], Next(s, step).workers[w], s.flushGen)
  {
    hide LoopMove, RingStep, DrainStep, SettleStep, CallStep;
    CallsUntouched(s, step);
    BackgroundSelf(s, step);
    assert |BackgroundStep(s, step).workers| == |s.workers|;
    if w != step.w { SameMoves(s.workers[w], s.flushGen); }
  }

  lemma SameMoves(x: Worker, gen: nat)
    ensures LoopMove(x, x, gen)
  {
  }

  lemma BackgroundSelf(s: State, step: Step)
    requires Enabled(s, step) && IsBackground(step)
    ensures step.w < |s.workers| && |BackgroundStep(s, step).workers| == |s.workers|
    ensures LoopMove(s.workers[step.w], BackgroundStep(s, step).workers[step.w], s.flushGen)
  {
    hide Next;
  }

  lemma DoomedDrain(s: State, step: Step, c: Cid, w: Wid)
    requires Enabled(s, step) && IsDrain(step) && w < |s.workers| && c in s.calls && Doomed(s, c, w)
    ensures w < |Next(s, step).workers| && c in Next(s, step).calls && Doomed(Next(s, step), c, w)
  {
    hide RingStep, BackgroundStep, SettleStep, CallStep;
    if step.Receive? {
      assert Next(s, step) == DrainStep(s, step);
    } else {
      assert Next(s, step).calls == s.calls;
    }
  }

  lemma DoomedSelf(s: State, step: Step, c: Cid)
    requires Enabled(s, step) && IsSettle(step) && c in s.calls && step.w < |s.workers|
    requires Doomed(s, c, step.w) && WorkerOk(s, step.w)
    ensures step.w < |Next(s, step).workers| && c in Next(s, step).calls && Doomed(Next(s, step), c, step.w)
  {
    hide RingStep, BackgroundStep, DrainStep, CallStep;
  }

  lemma DoomedOther(s: State, step: Step, c: Cid, w: Wid)
    requires Enabled(s, step) && IsSettle(step) && w < |s.workers| && c in s.calls && Doomed(s, c, w) && w != step.w
    ensures w < |Next(s, step).workers| && c in Next(s, step).calls && Doomed(Next(s, step), c, w)
  {
    hide RingStep, BackgroundStep, DrainStep, CallStep;
  }

  lemma DoomedSettle(s: State, step: Step, c: Cid, w: Wid)
    requires Enabled(s, step) && IsSettle(step) && w < |s.workers| && c in s.calls && Doomed(s, c, w) && WorkerOk(s, w)
    ensures w < |Next(s, step).workers| && c in Next(s, step).calls && Doomed(Next(s, step), c, w)
  {
    hide Next, Enabled, Doomed, WorkerOk;
    if w == step.w { DoomedSelf(s, step, c); } else { DoomedOther(s, step, c, w); }
  }

  lemma DoomedCalls(s: State, step: Step, c: Cid, w: Wid)
    requires Enabled(s, step) && IsCall(step) && !step.Begin? && w < |s.workers| && c in s.calls && Doomed(s, c, w)
    ensures w < |Next(s, step).workers| && c in Next(s, step).calls && Doomed(Next(s, step), c, w)
  {
    hide RingStep, BackgroundStep, DrainStep, SettleStep;
  }

  lemma DoomedStep(s: State, step: Step, c: Cid, w: Wid)
    requires Inv(s) && w < |s.workers| && c in s.calls && Doomed(s, c, w) && !step.Begin?
    ensures w < |Next(s, step).workers| && c in Next(s, step).calls && Doomed(Next(s, step), c, w)
  {
    if Enabled(s, step) {
      assert WorkerOk(s, w) && CallOk(s, c);
      hide Inv, Next, Enabled, Doomed, CallOk;
      if IsRing(step) { DoomedRing(s, step, c, w); }
      else if IsBackground(step) { DoomedBackground(s, step, c, w); }
      else if IsDrain(step) { DoomedDrain(s, step, c, w); }
      else if IsSettle(step) { DoomedSettle(s, step, c, w); }
      else { DoomedCalls(s, step, c, w); }
    }
  }

  lemma {:induction false} DoomedRun(s: State, c: Cid, w: Wid, run: seq<Step>)
    requires Inv(s) && w < |s.workers| && c in s.calls && Doomed(s, c, w) && NoBegins(run)
    ensures !Succeeded(From(s, run), c)
    decreases |run|
  {
    if run == [] {
      assert CallOk(s, c);
    } else {
      hide Inv, Doomed, Next;
      StepInv(s, run[0]);
      DoomedStep(s, run[0], c, w);
      DoomedRun(Next(s, run[0]), c, w, run[1..]);
    }
  }

  lemma DoomStarts(s: State, c: Cid, w: Wid)
    requires Inv(s) && Enabled(s, Begin(c, false)) && w < |s.workers| && !Usable(s, w)
    ensures var t := Next(s, Begin(c, false)); w < |t.workers| && c in t.calls && Doomed(t, c, w)
  {
    assert WorkerOk(s, w);
  }
}
