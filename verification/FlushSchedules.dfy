/**
 Schedules: from any reachable state the workers can be brought back to their loops, and a call can be served to a
 nil result. Built on these, a position at risk leads to a nil result that is wrong.
 */
module FlushSchedules {
  import opened FlushMachine
  import opened FlushInvariant
  import opened FlushPreservation
  import opened FlushRuns
  import opened FlushRisk
  import opened Options

  /** Worker w can still acknowledge call c without a failure. */
  predicate Able(s: State, c: Cid, w: Wid)
    requires w < |s.workers| && c in s.calls
  {
    var x := s.workers[w];
    && !x.pc.Exited? && x.pc != Recording(false) && !Since(x.fail, s.calls[c].gen)
    && (CallOf(x.pc).Some? ==>
          && CallOf(x.pc).value in s.calls && !s.calls[CallOf(x.pc).value].stop
          && (CallOf(x.pc).value == c ==> !Errs(x.pc)))
  }

  /** Call c is in progress and nothing has gone wrong for it. */
  predicate Fresh(k: Call) {
    !k.stop && !k.dead && !k.failed && !k.aborted && k.result.None?
  }

  ghost predicate Good(s: State, c: Cid) {
    && Inv(s) && c in s.calls && Fresh(s.calls[c])
    && forall w: Wid :: w < |s.workers| ==> Able(s, c, w)
  }

  /** What serving a request does not change about a call. */
  predicate SameCall(k: Call, k': Call) {
    && k'.gen == k.gen && k'.stop == k.stop && k'.start == k.start && k'.next == k.next
    && k'.dead == k.dead && k'.aborted == k.aborted && k'.result == k.result
  }

  /** From s to t only worker w moved. */
  ghost predicate Kept(s: State, t: State, c: Cid, w: Wid) {
    && |t.workers| == |s.workers|
    && (forall v: Wid :: v < |s.workers| && v != w ==> t.workers[v] == s.workers[v])
    && t.wp == s.wp && s.rp <= t.rp && t.flushGen == s.flushGen
    && (forall d :: d in s.calls ==> d in t.calls && SameCall(s.calls[d], t.calls[d]))
    && c in s.calls && c in t.calls && s.calls[c].acked <= t.calls[c].acked
    && (forall p :: p in s.exported ==> p in t.exported && t.exported[p] == s.exported[p])
  }

  lemma KeptTrans(s: State, t: State, u: State, c: Cid, w: Wid)
    requires Kept(s, t, c, w) && Kept(t, u, c, w)
    ensures Kept(s, u, c, w)
  {
  }

  // ---- one worker back to its loop ----

  /** The next step of a busy worker; exports succeed. */
  function Move(s: State, w: Wid): Step
    requires w < |s.workers|
  {
    match s.workers[w].pc
    case Exporting => EndExport(w, true)
    case Recording(_) => RecordOutcome(w)
    case Draining(_, _, _, chunk, _) => if s.rp < s.wp && chunk < DRAIN_CHUNK then Pop(w) else EndBatch(w)
    case DrainCheck(_, _, _, _) => Check(w)
    case DrainExporting(_, _, _, _) => EndDrainExport(w, true)
    case FinalExporting(_, _) => EndFinalExport(w, true)
    case Acking(_, _) => Ack(w)
    case _ => BeginExport(w)
  }

  function Rank(pc: WorkerPc): nat {
    match pc
    case Draining(_, _, _, chunk, _) => if chunk > 0 then 6 else 3
    case DrainExporting(_, _, _, _) => 5
    case DrainCheck(_, _, _, _) => 4
    case FinalExporting(_, _) => 2
    case Exporting => 2
    case Acking(_, _) => 1
    case Recording(_) => 1
    case _ => 0
  }

  lemma BackgroundMove(s: State, c: Cid, w: Wid)
    requires w < |s.workers| && c in s.calls && Able(s, c, w) && BatchOk(s, w) && Sized(s)
    requires s.workers[w].pc.Exporting? || s.workers[w].pc.Recording?
    ensures Enabled(s, Move(s, w))
    ensures var t := Next(s, Move(s, w)); Kept(s, t, c, w) && t.calls == s.calls && Able(t, c, w)
    ensures var t := Next(s, Move(s, w));
            t.rp == s.rp && Rank(t.workers[w].pc) < Rank(s.workers[w].pc) && CallOf(t.workers[w].pc).None? && Dry(t, w)
  {
  }

  lemma PopMove(s: State, c: Cid, w: Wid)
    requires w < |s.workers| && c in s.calls && Able(s, c, w) && Sized(s)
    requires s.workers[w].pc.Draining? && s.rp < s.wp && s.workers[w].pc.chunk < DRAIN_CHUNK
    ensures Enabled(s, Pop(w)) && Move(s, w) == Pop(w)
    ensures var t := Next(s, Pop(w));
            && Kept(s, t, c, w) && t.calls == s.calls && Able(t, c, w) && t.rp == s.rp + 1
            && CallOf(t.workers[w].pc) == CallOf(s.workers[w].pc) && t.workers[w].pc.Draining?
            && t.workers[w].batch == s.workers[w].batch + [s.rp]
  {
  }

  lemma DrainMove(s: State, c: Cid, w: Wid)
    requires w < |s.workers| && c in s.calls && Able(s, c, w) && Sized(s)
    requires s.workers[w].pc.DrainCheck? || s.workers[w].pc.Draining?
    requires s.workers[w].pc.Draining? ==> s.rp == s.wp || s.workers[w].pc.chunk == DRAIN_CHUNK
    ensures Enabled(s, Move(s, w)) && IsDrain(Move(s, w)) && !Move(s, w).Receive?
    ensures var t := Next(s, Move(s, w)); Kept(s, t, c, w) && t.calls == s.calls && Able(t, c, w)
    ensures var t := Next(s, Move(s, w));
            && t.rp == s.rp && Rank(t.workers[w].pc) < Rank(s.workers[w].pc)
            && CallOf(t.workers[w].pc) == CallOf(s.workers[w].pc) && !t.workers[w].pc.Acking?
            && t.workers[w].batch == s.workers[w].batch && (Dry(s, w) ==> Dry(t, w))
  {
  }

  /** Any export of a drain; one that fails spoils the call it was made for. */
  lemma ExportMove(s: State, c: Cid, w: Wid, step: Step)
    requires w < |s.workers| && c in s.calls && Able(s, c, w) && BatchOk(s, w)
    requires step.EndDrainExport? || step.EndFinalExport?
    requires step.w == w && Enabled(s, step) && (CallOf(s.workers[w].pc) == Some(c) ==> step.ok)
    ensures var t := Next(s, step); Kept(s, t, c, w) && t.calls == s.calls && Able(t, c, w)
    ensures var t := Next(s, step);
            && t.rp == s.rp && Rank(t.workers[w].pc) < Rank(s.workers[w].pc)
            && CallOf(t.workers[w].pc) == CallOf(s.workers[w].pc)
            && (s.workers[w].pc.FinalExporting? ==> Dry(t, w))
            && forall p :: p in s.workers[w].batch ==>
                 p in t.exported && t.exported[p] == Export(w, step.ok, s.flushGen, CallOf(s.workers[w].pc))
  {
  }

  lemma AckMove(s: State, c: Cid, w: Wid)
    requires w < |s.workers| && c in s.calls && Able(s, c, w) && s.workers[w].pc.Acking? && Fresh(s.calls[c])
    ensures Enabled(s, Ack(w)) && Move(s, w) == Ack(w)
    ensures var t := Next(s, Ack(w));
            && Kept(s, t, c, w) && Fresh(t.calls[c]) && Able(t, c, w) && t.rp == s.rp && t.workers[w].pc.Loop?
            && (CallOf(s.workers[w].pc) == Some(c) ==> w in t.calls[c].acked)
  {
  }

  lemma OtherAble(s: State, t: State, c: Cid, w: Wid, v: Wid)
    requires Kept(s, t, c, w) && v < |s.workers| && v != w && c in s.calls && Able(s, c, v)
    ensures Able(t, c, v)
  {
  }

  lemma GoodAfter(s: State, step: Step, c: Cid, w: Wid)
    requires Good(s, c) && w < |s.workers|
    requires var t := Next(s, step); Kept(s, t, c, w) && Fresh(t.calls[c]) && Able(t, c, w)
    ensures Good(Next(s, step), c)
  {
    StepInv(s, step);
    hide Inv, Next, Able, Kept;
    var t := Next(s, step);
    assert |t.workers| == |s.workers| && c in t.calls by { KeptSize(s, t, c, w); }
    forall v: Wid | v < |t.workers| ensures Able(t, c, v) {
      if v != w { OtherAble(s, t, c, w, v); }
    }
  }

  lemma KeptSize(s: State, t: State, c: Cid, w: Wid)
    requires Kept(s, t, c, w)
    ensures |t.workers| == |s.workers| && c in s.calls && c in t.calls && t.wp == s.wp && s.rp <= t.rp
  {
  }

  /** What one step of a busy worker achieves. */
  ghost predicate Advances(s: State, t: State, c: Cid, w: Wid) {
    && Good(t, c) && Kept(s, t, c, w) && w < |s.workers| == |t.workers| && s.rp <= t.rp <= t.wp == s.wp
    && (s.rp < t.rp || Rank(t.workers[w].pc) < Rank(s.workers[w].pc))
    && (Dry(s, w) ==> Dry(t, w) && t.rp == s.rp)
    && (CallOf(s.workers[w].pc) == Some(c) ==> CallOf(t.workers[w].pc) == Some(c) || w in t.calls[c].acked)
  }

  lemma WorkerOfGood(s: State, c: Cid, w: Wid)
    requires Good(s, c) && w < |s.workers|
    ensures c in s.calls && Fresh(s.calls[c]) && Able(s, c, w) && BatchOk(s, w) && WorkerOk(s, w) && Sized(s)
  {
  }

  lemma Concludes(s: State, step: Step, c: Cid, w: Wid)
    requires Good(s, c) && w < |s.workers| && Sized(Next(s, step))
    requires var t := Next(s, step); Kept(s, t, c, w) && Fresh(t.calls[c]) && Able(t, c, w)
    requires var t := Next(s, step); s.rp < t.rp || Rank(t.workers[w].pc) < Rank(s.workers[w].pc)
    requires var t := Next(s, step); Dry(s, w) ==> Dry(t, w) && t.rp == s.rp
    requires var t := Next(s, step);
             CallOf(s.workers[w].pc) == Some(c) ==> CallOf(t.workers[w].pc) == Some(c) || w in t.calls[c].acked
    ensures Advances(s, Next(s, step), c, w)
  {
    GoodAfter(s, step, c, w);
    KeptSize(s, Next(s, step), c, w);
    hide Inv, Next, Kept, Able, Good, Dry, Rank;
  }

  lemma PopAdvances(s: State, c: Cid, w: Wid)
    requires Good(s, c) && w < |s.workers| && Sized(Next(s, Move(s, w)))
    requires s.workers[w].pc.Draining? && s.rp < s.wp && s.workers[w].pc.chunk < DRAIN_CHUNK
    ensures Advances(s, Next(s, Move(s, w)), c, w)
  {
    WorkerOfGood(s, c, w);
    hide Good, Inv, Next, Kept, Able, BatchOk, WorkerOk;
    PopMove(s, c, w);
    Concludes(s, Move(s, w), c, w);
  }

  lemma BackgroundAdvances(s: State, c: Cid, w: Wid)
    requires Good(s, c) && w < |s.workers| && Sized(Next(s, Move(s, w)))
    requires s.workers[w].pc.Exporting? || s.workers[w].pc.Recording?
    ensures Advances(s, Next(s, Move(s, w)), c, w)
  {
    WorkerOfGood(s, c, w);
    hide Good, Inv, Next, Kept, Able, BatchOk, WorkerOk;
    BackgroundMove(s, c, w);
    Concludes(s, Move(s, w), c, w);
  }

  lemma DrainAdvances(s: State, c: Cid, w: Wid)
    requires Good(s, c) && w < |s.workers| && Sized(Next(s, Move(s, w)))
    requires s.workers[w].pc.DrainCheck? || s.workers[w].pc.Draining?
    requires s.workers[w].pc.Draining? ==> s.rp == s.wp || s.workers[w].pc.chunk == DRAIN_CHUNK
    ensures Advances(s, Next(s, Move(s, w)), c, w)
  {
    WorkerOfGood(s, c, w);
    hide Good, Inv, Next, Kept, Able, BatchOk, WorkerOk;
    DrainMove(s, c, w);
    Concludes(s, Move(s, w), c, w);
  }

  lemma ExportAdvances(s: State, c: Cid, w: Wid)
    requires Good(s, c) && w < |s.workers| && Sized(Next(s, Move(s, w)))
    requires s.workers[w].pc.DrainExporting? || s.workers[w].pc.FinalExporting?
    ensures Advances(s, Next(s, Move(s, w)), c, w)
  {
    WorkerOfGood(s, c, w);
    hide Good, Inv, Next, Kept, Able, BatchOk, WorkerOk;
    ExportMove(s, c, w, Move(s, w));
    Concludes(s, Move(s, w), c, w);
  }

  lemma AckAdvances(s: State, c: Cid, w: Wid)
    requires Good(s, c) && w < |s.workers| && Sized(Next(s, Move(s, w))) && s.workers[w].pc.Acking?
    ensures Advances(s, Next(s, Move(s, w)), c, w)
  {
    WorkerOfGood(s, c, w);
    hide Good, Inv, Next, Kept, Able, BatchOk, WorkerOk;
    AckMove(s, c, w);
    Concludes(s, Move(s, w), c, w);
  }

  lemma MoveAdvances(s: State, c: Cid, w: Wid)
    requires Good(s, c) && w < |s.workers| && !s.workers[w].pc.Loop?
    ensures Advances(s, Next(s, Move(s, w)), c, w)
  {
    var pc := s.workers[w].pc;
    WorkerOfGood(s, c, w);
    SizedStep(s, Move(s, w));
    hide Good, Inv, Next, Advances, Move, WorkerOk;
    if pc.Exporting? || pc.Recording? { BackgroundAdvances(s, c, w); }
    else if pc.Draining? && s.rp < s.wp && pc.chunk < DRAIN_CHUNK { PopAdvances(s, c, w); }
    else if pc.Draining? || pc.DrainCheck? { DrainAdvances(s, c, w); }
    else if pc.Acking? { AckAdvances(s, c, w); }
    else { ExportAdvances(s, c, w); }
  }

  /** What bringing a worker back to its loop achieves. */
  ghost predicate Back(s: State, t: State, c: Cid, w: Wid) {
    && Good(t, c) && Kept(s, t, c, w) && w < |s.workers| == |t.workers| && t.workers[w].pc.Loop?
    && (Dry(s, w) ==> t.rp == s.rp)
    && (CallOf(s.workers[w].pc) == Some(c) ==> w in t.calls[c].acked)
  }

  lemma BackVia(s: State, t: State, u: State, c: Cid, w: Wid)
    requires Advances(s, t, c, w) && Back(t, u, c, w)
    ensures Back(s, u, c, w)
  {
    hide Good, Rank, Dry;
    KeptTrans(s, t, u, c, w);
  }

  lemma BackAlready(s: State, c: Cid, w: Wid)
    requires Good(s, c) && w < |s.workers| && s.workers[w].pc.Loop?
    ensures Back(s, s, c, w)
  {
  }

  lemma MoveIsNoBegin(s: State, w: Wid)
    requires w < |s.workers|
    ensures !Move(s, w).Begin?
  {
  }

  lemma Progress(s: State, t: State, c: Cid, w: Wid)
    requires Advances(s, t, c, w)
    ensures Good(t, c) && w < |s.workers| == |t.workers| && s.rp <= t.rp <= t.wp == s.wp
    ensures s.rp < t.rp || Rank(t.workers[w].pc) < Rank(s.workers[w].pc)
  {
    hide Good, Rank, Kept, Dry;
  }

  /** A busy worker can always be brought back to its loop, with all exports succeeding. */
  lemma {:induction false} Settle(s: State, c: Cid, w: Wid) returns (run: seq<Step>)
    requires Good(s, c) && w < |s.workers|
    ensures NoBegins(run) && Back(s, From(s, run), c, w)
    decreases s.wp - s.rp, Rank(s.workers[w].pc)
  {
    hide Good, Next, Back, Advances, Rank, Move;
    if s.workers[w].pc.Loop? {
      run := [];
      BackAlready(s, c, w);
    } else {
      var step := Move(s, w);
      var t := Next(s, step);
      MoveAdvances(s, c, w);
      MoveIsNoBegin(s, w);
      Progress(s, t, c, w);
      var rest := Settle(t, c, w);
      run := [step] + rest;
      assert run[0] == step && run[1..] == rest;
      BackVia(s, t, From(t, rest), c, w);
    }
  }
}
