/**
 Every step of the flush protocol keeps the invariant, one kind of step and one kind of fact at a time.
 */
module FlushPreservation {
  import opened FlushMachine
  import opened FlushInvariant

  predicate IsCall(step: Step) {
    !IsRing(step) && !IsBackground(step) && !IsDrain(step) && !IsSettle(step)
  }

  predicate ByWorker(step: Step) {
    IsBackground(step) || IsDrain(step) || IsSettle(step)
  }

  lemma WorkerSized(s: State, step: Step)
    requires Sized(s) && Enabled(s, step) && ByWorker(step)
    ensures Sized(Next(s, step)) && |Next(s, step).workers| == |s.workers| && s.owner <= Next(s, step).owner
  {
    hide RingStep, CallStep;
  }

  lemma SizedStep(s: State, step: Step)
    requires Sized(s)
    ensures Sized(Next(s, step)) && |Next(s, step).workers| == |s.workers| && s.owner <= Next(s, step).owner
  {
    hide BackgroundStep, DrainStep, SettleStep;
    if Enabled(s, step) && ByWorker(step) { WorkerSized(s, step); }
  }

  lemma WorkerParameters(s: State, step: Step)
    requires Enabled(s, step) && ByWorker(step)
    ensures Next(s, step).cap == s.cap && Next(s, step).dropOldest == s.dropOldest
    ensures Next(s, step).wp == s.wp && Next(s, step).flushGen == s.flushGen
  {
    hide RingStep, CallStep;
  }

  lemma ParametersStay(s: State, step: Step)
    ensures Next(s, step).cap == s.cap && Next(s, step).dropOldest == s.dropOldest
    ensures s.wp <= Next(s, step).wp && s.flushGen <= Next(s, step).flushGen
  {
    hide BackgroundStep, DrainStep, SettleStep;
    if Enabled(s, step) && ByWorker(step) { WorkerParameters(s, step); }
  }

  lemma ClosedStep(s: State, step: Step)
    requires s.closed ==> s.active == {}
    ensures Next(s, step).closed ==> Next(s, step).active == {}
  {
  }

  /** Finished exports are never rewritten. */
  lemma ExportStays(s: State, step: Step, p: nat)
    requires Enabled(s, step) && p in s.exported && (ByWorker(step) ==> step.w < |s.workers| && BatchOk(s, step.w))
    ensures p in Next(s, step).exported && Next(s, step).exported[p] == s.exported[p]
  {
    hide RingStep, DrainStep, CallStep, BackgroundStep, SettleStep;
    if !step.EndExport? && !step.EndDrainExport? && !step.EndFinalExport? { OnlyExportsExport(s, step); }
    else { ExportKeeps(s, step, p); }
  }

  lemma OnlyExportsExport(s: State, step: Step)
    requires Enabled(s, step) && !step.EndExport? && !step.EndDrainExport? && !step.EndFinalExport?
    ensures Next(s, step).exported == s.exported
  {
    hide BackgroundStep, DrainStep, SettleStep;
    if ByWorker(step) { QuietWorker(s, step); }
  }

  lemma QuietWorker(s: State, step: Step)
    requires Enabled(s, step) && ByWorker(step) && !step.EndExport? && !step.EndDrainExport? && !step.EndFinalExport?
    ensures Next(s, step).exported == s.exported
  {
    hide RingStep, CallStep;
  }

  lemma ExportKeeps(s: State, step: Step, p: nat)
    requires Enabled(s, step) && (step.EndExport? || step.EndDrainExport? || step.EndFinalExport?)
    requires step.w < |s.workers| && BatchOk(s, step.w) && p in s.exported
    ensures p in Next(s, step).exported && Next(s, step).exported[p] == s.exported[p]
  {
    hide RingStep, DrainStep, CallStep;
  }

  /** What a step may change about a call in progress. */
  predicate CallGrows(k: Call, k': Call) {
    k'.gen == k.gen && k'.start == k.start && k'.stop == k.stop && (k.failed ==> k'.failed) && (k.dead ==> k'.dead)
    && k.acked <= k'.acked
  }

  lemma CallsUntouched(s: State, step: Step)
    requires Enabled(s, step) && (IsRing(step) || IsBackground(step))
    ensures Next(s, step).calls == s.calls
  {
  }

  lemma CallStaysInDrain(s: State, step: Step, c: Cid)
    requires Enabled(s, step) && IsDrain(step) && c in s.calls
    ensures c in Next(s, step).calls && CallGrows(s.calls[c], Next(s, step).calls[c])
    ensures Next(s, step).calls[c].acked == s.calls[c].acked
  {
    hide RingStep, BackgroundStep, SettleStep, CallStep;
  }

  lemma CallStaysInSettle(s: State, step: Step, c: Cid)
    requires Enabled(s, step) && IsSettle(step) && c in s.calls
    ensures c in Next(s, step).calls && CallGrows(s.calls[c], Next(s, step).calls[c])
    ensures !step.Ack? ==> Next(s, step).calls[c].acked == s.calls[c].acked
  {
    hide RingStep, BackgroundStep, DrainStep, CallStep;
  }

  lemma CallStaysInCalls(s: State, step: Step, c: Cid)
    requires Enabled(s, step) && IsCall(step) && c in s.calls
    ensures c in Next(s, step).calls && CallGrows(s.calls[c], Next(s, step).calls[c])
    ensures Next(s, step).calls[c].acked == s.calls[c].acked
  {
    hide RingStep, BackgroundStep, DrainStep, SettleStep;
  }

  lemma NewCall(s: State, step: Step, c: Cid)
    requires Enabled(s, step) && c !in s.calls && c in Next(s, step).calls
    ensures Next(s, step).calls[c].acked == {}
  {
  }

  /** A settled position stays settled while the same workers have acknowledged. */
  lemma SettledKeeps(s: State, s': State, c: Cid, p: nat)
    requires c in s.calls && c in s'.calls && p < |s.owner| && s.owner <= s'.owner
    requires CallGrows(s.calls[c], s'.calls[c]) && s'.calls[c].acked == s.calls[c].acked
    requires p in s.exported ==> p in s'.exported && s'.exported[p] == s.exported[p]
    requires Settled(s, c, p)
    ensures Settled(s', c, p)
  {
  }

  /** An acknowledgement settles every position its worker took. */
  lemma AckSettles(s: State, w: Wid, c: Cid, p: nat)
    requires Enabled(s, Ack(w)) && c in s.calls && p < |s.owner|
    requires PositionOk(s, p) && (p in s.exported ==> FailureOk(s, p)) && BatchOk(s, w) && WorkerOk(s, w)
    requires s.calls[c].acked != {} ==> Settled(s, c, p)
    ensures Settled(Next(s, Ack(w)), c, p)
  {
  }

  // ---- Ring steps ----

  lemma RingPosition(s: State, step: Step, p: nat)
    requires Enabled(s, step) && IsRing(step) && Sized(s)
    requires p < |Next(s, step).owner| && (p < |s.owner| ==> PositionOk(s, p))
    ensures PositionOk(Next(s, step), p)
  {
    hide BackgroundStep, DrainStep, SettleStep, CallStep;
  }

  lemma RingBatch(s: State, step: Step, w: Wid)
    requires Enabled(s, step) && IsRing(step) && Sized(s) && w < |s.workers|
    requires |Next(s, step).workers| == |s.workers| && BatchOk(s, w)
    requires TakenOk(s)
    ensures BatchOk(Next(s, step), w)
  {
    hide BackgroundStep, DrainStep, SettleStep, CallStep;
  }

  lemma RingWorker(s: State, step: Step, w: Wid)
    requires Enabled(s, step) && IsRing(step) && Sized(s) && w < |s.workers|
    requires |Next(s, step).workers| == |s.workers| && WorkerOk(s, w)
    requires forall c :: c in s.calls ==> CallOk(s, c)
    ensures WorkerOk(Next(s, step), w)
  {
    hide BackgroundStep, DrainStep, SettleStep, CallStep;
  }

  lemma RingFailure(s: State, step: Step, p: nat)
    requires Enabled(s, step) && IsRing(step) && Sized(s)
    requires p in Next(s, step).exported && (p in s.exported ==> FailureOk(s, p))
    ensures FailureOk(Next(s, step), p)
  {
    hide BackgroundStep, DrainStep, SettleStep, CallStep;
  }

  lemma RingCall(s: State, step: Step, c: Cid)
    requires Enabled(s, step) && IsRing(step) && Sized(s) && (s.closed ==> s.active == {})
    requires c in Next(s, step).calls && (c in s.calls ==> CallOk(s, c))
    ensures CallOk(Next(s, step), c)
  {
    hide BackgroundStep, DrainStep, SettleStep, CallStep;
  }

  lemma RingTaken(s: State, step: Step)
    requires Enabled(s, step) && IsRing(step) && Sized(s) && TakenOk(s)
    ensures TakenOk(Next(s, step))
  {
    hide BackgroundStep, DrainStep, SettleStep, CallStep;
  }

  // ---- Background steps ----

  lemma BackgroundPosition(s: State, step: Step, p: nat)
    requires Enabled(s, step) && IsBackground(step) && Sized(s)
    requires p < |Next(s, step).owner| && (p < |s.owner| ==> PositionOk(s, p))
    requires step.w < |s.workers| && BatchOk(s, step.w)
    ensures PositionOk(Next(s, step), p)
  {
    hide RingStep, DrainStep, SettleStep, CallStep;
  }

  lemma BackgroundBatch(s: State, step: Step, w: Wid)
    requires Enabled(s, step) && IsBackground(step) && Sized(s) && w < |s.workers|
    requires |Next(s, step).workers| == |s.workers| && BatchOk(s, w)
    requires step.w < |s.workers| && BatchOk(s, step.w)
    requires TakenOk(s)
    ensures BatchOk(Next(s, step), w)
  {
    hide RingStep, DrainStep, SettleStep, CallStep;
  }

  lemma BackgroundWorker(s: State, step: Step, w: Wid)
    requires Enabled(s, step) && IsBackground(step) && Sized(s) && w < |s.workers|
    requires |Next(s, step).workers| == |s.workers| && WorkerOk(s, w)
    requires step.w < |s.workers| && BatchOk(s, step.w) && WorkerOk(s, step.w)
    requires forall c :: c in s.calls ==> CallOk(s, c)
    ensures WorkerOk(Next(s, step), w)
  {
    hide RingStep, DrainStep, SettleStep, CallStep;
  }

  lemma BackgroundFailure(s: State, step: Step, p: nat)
    requires Enabled(s, step) && IsBackground(step) && Sized(s)
    requires p in Next(s, step).exported && (p in s.exported ==> FailureOk(s, p))
    requires step.w < |s.workers| && BatchOk(s, step.w) && WorkerOk(s, step.w)
    ensures FailureOk(Next(s, step), p)
  {
    hide RingStep, DrainStep, SettleStep, CallStep;
  }

  lemma BackgroundCall(s: State, step: Step, c: Cid)
    requires Enabled(s, step) && IsBackground(step) && Sized(s) && (s.closed ==> s.active == {})
    requires c in Next(s, step).calls && (c in s.calls ==> CallOk(s, c))
    requires step.w < |s.workers| && BatchOk(s, step.w) && WorkerOk(s, step.w)
    ensures CallOk(Next(s, step), c)
  {
    hide RingStep, DrainStep, SettleStep, CallStep;
  }

  lemma BackgroundTaken(s: State, step: Step)
    requires Enabled(s, step) && IsBackground(step) && Sized(s) && TakenOk(s)
    requires step.w < |s.workers| && BatchOk(s, step.w)
    ensures TakenOk(Next(s, step))
  {
    hide RingStep, DrainStep, SettleStep, CallStep;
  }

  // ---- Drain steps ----

  lemma DrainPosition(s: State, step: Step, p: nat)
    requires Enabled(s, step) && IsDrain(step) && Sized(s)
    requires p < |Next(s, step).owner| && (p < |s.owner| ==> PositionOk(s, p))
    requires step.w < |s.workers| && BatchOk(s, step.w)
    ensures PositionOk(Next(s, step), p)
  {
    hide RingStep, BackgroundStep, SettleStep, CallStep;
  }

  lemma DrainBatch(s: State, step: Step, w: Wid)
    requires Enabled(s, step) && IsDrain(step) && Sized(s) && w < |s.workers|
    requires |Next(s, step).workers| == |s.workers| && BatchOk(s, w)
    requires step.w < |s.workers| && BatchOk(s, step.w)
    requires TakenOk(s)
    ensures BatchOk(Next(s, step), w)
  {
    hide RingStep, BackgroundStep, SettleStep, CallStep;
  }

  lemma DrainWorkerSelf(s: State, step: Step)
    requires Enabled(s, step) && IsDrain(step) && Sized(s)
    requires step.w < |s.workers| == |Next(s, step).workers| && WorkerOk(s, step.w)
    requires forall c :: c in s.calls ==> CallOk(s, c)
    ensures WorkerOk(Next(s, step), step.w)
  {
    hide RingStep, BackgroundStep, SettleStep, CallStep;
  }

  lemma DrainWorkerOther(s: State, step: Step, w: Wid)
    requires Enabled(s, step) && IsDrain(step)
    requires w < |s.workers| == |Next(s, step).workers| && WorkerOk(s, w) && w != step.w
    ensures WorkerOk(Next(s, step), w)
  {
    hide RingStep, BackgroundStep, SettleStep, CallStep;
  }

  lemma DrainWorker(s: State, step: Step, w: Wid)
    requires Enabled(s, step) && IsDrain(step) && Sized(s) && w < |s.workers|
    requires |Next(s, step).workers| == |s.workers| && WorkerOk(s, w)
    requires step.w < |s.workers| && BatchOk(s, step.w) && WorkerOk(s, step.w)
    requires forall c :: c in s.calls ==> CallOk(s, c)
    ensures WorkerOk(Next(s, step), w)
  {
    hide WorkerOk, BatchOk, CallOk, Next, Enabled, Sized;
    if w == step.w { DrainWorkerSelf(s, step); } else { DrainWorkerOther(s, step, w); }
  }

  lemma DrainFailure(s: State, step: Step, p: nat)
    requires Enabled(s, step) && IsDrain(step) && Sized(s)
    requires p in Next(s, step).exported && (p in s.exported ==> FailureOk(s, p))
    requires step.w < |s.workers| && BatchOk(s, step.w) && WorkerOk(s, step.w)
    ensures FailureOk(Next(s, step), p)
  {
    hide RingStep, BackgroundStep, SettleStep, CallStep;
  }

  lemma DrainCall(s: State, step: Step, c: Cid)
    requires Enabled(s, step) && IsDrain(step) && Sized(s) && (s.closed ==> s.active == {})
    requires c in Next(s, step).calls && (c in s.calls ==> CallOk(s, c))
    requires step.w < |s.workers| && BatchOk(s, step.w) && WorkerOk(s, step.w)
    ensures CallOk(Next(s, step), c)
  {
    hide RingStep, BackgroundStep, SettleStep, CallStep;
  }

  lemma DrainTaken(s: State, step: Step)
    requires Enabled(s, step) && IsDrain(step) && Sized(s) && TakenOk(s)
    requires step.w < |s.workers| && BatchOk(s, step.w)
    ensures TakenOk(Next(s, step))
  {
    hide RingStep, BackgroundStep, SettleStep, CallStep;
  }

  // ---- Settle steps ----

  lemma SettlePosition(s: State, step: Step, p: nat)
    requires Enabled(s, step) && IsSettle(step) && Sized(s)
    requires p < |Next(s, step).owner| && (p < |s.owner| ==> PositionOk(s, p))
    requires step.w < |s.workers| && BatchOk(s, step.w)
    ensures PositionOk(Next(s, step), p)
  {
    hide RingStep, BackgroundStep, DrainStep, CallStep;
  }

  lemma SettleBatch(s: State, step: Step, w: Wid)
    requires Enabled(s, step) && IsSettle(step) && Sized(s) && w < |s.workers|
    requires |Next(s, step).workers| == |s.workers| && BatchOk(s, w)
    requires step.w < |s.workers| && BatchOk(s, step.w)
    requires TakenOk(s)
    ensures BatchOk(Next(s, step), w)
  {
    hide RingStep, BackgroundStep, DrainStep, CallStep;
  }

  lemma SettleExportWorker(s: State, step: Step, w: Wid)
    requires Enabled(s, step) && IsSettle(step) && !step.Ack? && Sized(s)
    requires w < |s.workers| && |Next(s, step).workers| == |s.workers| && WorkerOk(s, w)
    requires step.w < |s.workers| && BatchOk(s, step.w) && WorkerOk(s, step.w)
    requires forall c :: c in s.calls ==> CallOk(s, c)
    ensures WorkerOk(Next(s, step), w)
  {
    hide RingStep, BackgroundStep, DrainStep, CallStep;
  }

  lemma SettleAckWorker(s: State, step: Step, w: Wid)
    requires Enabled(s, step) && IsSettle(step) && step.Ack? && Sized(s)
    requires w < |s.workers| && |Next(s, step).workers| == |s.workers| && WorkerOk(s, w)
    requires step.w < |s.workers| && BatchOk(s, step.w) && WorkerOk(s, step.w)
    requires forall c :: c in s.calls ==> CallOk(s, c)
    ensures WorkerOk(Next(s, step), w)
  {
    hide RingStep, BackgroundStep, DrainStep, CallStep;
  }

  lemma SettleFailure(s: State, step: Step, p: nat)
    requires Enabled(s, step) && IsSettle(step) && Sized(s)
    requires p in Next(s, step).exported && (p in s.exported ==> FailureOk(s, p))
    requires step.w < |s.workers| && BatchOk(s, step.w) && WorkerOk(s, step.w)
    ensures FailureOk(Next(s, step), p)
  {
    hide RingStep, BackgroundStep, DrainStep, CallStep;
  }

  lemma SettleCall(s: State, step: Step, c: Cid)
    requires Enabled(s, step) && IsSettle(step) && Sized(s) && (s.closed ==> s.active == {})
    requires c in Next(s, step).calls && (c in s.calls ==> CallOk(s, c))
    requires step.w < |s.workers| && BatchOk(s, step.w) && WorkerOk(s, step.w)
    ensures CallOk(Next(s, step), c)
  {
    hide RingStep, BackgroundStep, DrainStep, CallStep;
  }

  lemma SettleTaken(s: State, step: Step)
    requires Enabled(s, step) && IsSettle(step) && Sized(s) && TakenOk(s)
    requires step.w < |s.workers| && BatchOk(s, step.w)
    ensures TakenOk(Next(s, step))
  {
    hide RingStep, BackgroundStep, DrainStep, CallStep;
  }

  // ---- Call steps ----

  lemma CallPosition(s: State, step: Step, p: nat)
    requires Enabled(s, step) && IsCall(step) && Sized(s)
    requires p < |Next(s, step).owner| && (p < |s.owner| ==> PositionOk(s, p))
    ensures PositionOk(Next(s, step), p)
  {
    hide RingStep, BackgroundStep, DrainStep, SettleStep;
  }

  lemma CallBatch(s: State, step: Step, w: Wid)
    requires Enabled(s, step) && IsCall(step) && Sized(s) && w < |s.workers|
    requires |Next(s, step).workers| == |s.workers| && BatchOk(s, w)
    requires TakenOk(s)
    ensures BatchOk(Next(s, step), w)
  {
    hide RingStep, BackgroundStep, DrainStep, SettleStep;
  }

  lemma CallWorker(s: State, step: Step, w: Wid)
    requires Enabled(s, step) && IsCall(step) && Sized(s) && w < |s.workers|
    requires |Next(s, step).workers| == |s.workers| && WorkerOk(s, w)
    requires forall c :: c in s.calls ==> CallOk(s, c)
    ensures WorkerOk(Next(s, step), w)
  {
    hide RingStep, BackgroundStep, DrainStep, SettleStep;
  }

  lemma CallFailure(s: State, step: Step, p: nat)
    requires Enabled(s, step) && IsCall(step) && Sized(s)
    requires p in Next(s, step).exported && (p in s.exported ==> FailureOk(s, p))
    ensures FailureOk(Next(s, step), p)
  {
    hide RingStep, BackgroundStep, DrainStep, SettleStep;
  }

  lemma CallCall(s: State, step: Step, c: Cid)
    requires Enabled(s, step) && IsCall(step) && Sized(s) && (s.closed ==> s.active == {})
    requires c in Next(s, step).calls && (c in s.calls ==> CallOk(s, c))
    ensures CallOk(Next(s, step), c)
  {
    hide RingStep, BackgroundStep, DrainStep, SettleStep;
  }

  lemma CallTaken(s: State, step: Step)
    requires Enabled(s, step) && IsCall(step) && Sized(s) && TakenOk(s)
    ensures TakenOk(Next(s, step))
  {
    hide RingStep, BackgroundStep, DrainStep, SettleStep;
  }
}
