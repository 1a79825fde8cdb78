/** From a position at risk to a nil result that is wrong: the schedule, step by step. */
module FlushMisled {
  import opened FlushMachine
  import opened FlushInvariant
  import opened FlushPreservation
  import opened FlushRuns
  import opened FlushRisk
  import opened FlushSchedules
  import opened Options

  /** What every part of the schedule preserves. */
  ghost predicate Carries(s: State, t: State, c: Cid) {
    && |t.workers| == |s.workers| && t.wp == s.wp && s.rp <= t.rp && t.flushGen == s.flushGen
    && c in s.calls && c in t.calls && t.calls[c].gen == s.calls[c].gen && t.calls[c].start == s.calls[c].start
    && s.calls[c].acked <= t.calls[c].acked
    && (forall p :: p in s.exported ==> p in t.exported && t.exported[p] == s.exported[p])
  }

  lemma CarriesTrans(s: State, t: State, u: State, c: Cid)
    requires Carries(s, t, c) && Carries(t, u, c)
    ensures Carries(s, u, c)
  {
  }

  lemma KeptCarries(s: State, t: State, c: Cid, w: Wid)
    requires Kept(s, t, c, w)
    ensures Carries(s, t, c) && forall d :: d in s.calls ==> d in t.calls && SameCall(s.calls[d], t.calls[d])
  {
  }

  lemma JoinRuns(s: State, a: seq<Step>, b: seq<Step>)
    requires NoBegins(a) && NoBegins(b)
    ensures NoBegins(a + b) && From(s, a + b) == From(From(s, a), b)
  {
    hide Next, From;
    FromConcat(s, a, b);
  }

  lemma OneStep(s: State, step: Step)
    requires !step.Begin?
    ensures NoBegins([step]) && From(s, [step]) == Next(s, step)
  {
    hide Next, From;
    FromOne(s, step);
  }

  // ---- requests ----

  /** Worker w has just taken the request of call d. */
  ghost predicate Taken(s: State, t: State, w: Wid, d: Cid) {
    && w < |s.workers| && d in s.calls
    && var x := s.workers[w];
       t == s.(workers := s.workers[w := x.(pc := DrainCheck(d, s.rp, 0, Since(x.fail, s.calls[d].gen)))],
               calls := s.calls[d := s.calls[d].(next := w + 1)])
  }

  predicate CanTake(s: State, w: Wid, d: Cid) {
    w < |s.workers| && s.workers[w].pc.Loop? && d in s.calls && s.calls[d].next == w && s.calls[d].result.None?
  }

  lemma TakeStep(s: State, w: Wid, d: Cid)
    requires CanTake(s, w, d)
    ensures Taken(s, Next(s, Receive(w, d)), w, d)
  {
  }

  lemma TakenAble(s: State, t: State, c: Cid, w: Wid, d: Cid, v: Wid)
    requires Taken(s, t, w, d) && c in s.calls && v < |s.workers| && Able(s, c, v) && Able(s, c, w) && !s.calls[d].stop
    ensures v < |t.workers| && c in t.calls && Able(t, c, v)
  {
  }

  lemma TakeGood(s: State, c: Cid, w: Wid, d: Cid)
    requires Good(s, c) && CanTake(s, w, d) && !s.calls[d].stop
    ensures Taken(s, Next(s, Receive(w, d)), w, d) && Good(Next(s, Receive(w, d)), c)
    ensures Carries(s, Next(s, Receive(w, d)), c)
  {
    StepInv(s, Receive(w, d));
    TakeStep(s, w, d);
    var t := Next(s, Receive(w, d));
    hide Inv, Next, Able;
    forall v: Wid | v < |t.workers| ensures Able(t, c, v) { TakenAble(s, t, c, w, d, v); }
  }

  // ---- serving call c to the end ----

  lemma {:induction false} Serve(s: State, c: Cid) returns (run: seq<Step>)
    requires Good(s, c) && s.calls[c].next < |s.workers|
    ensures NoBegins(run) && Good(From(s, run), c) && Carries(s, From(s, run), c)
    ensures var t := From(s, run); t.calls[c].next == s.calls[c].next + 1 && s.calls[c].next in t.calls[c].acked
  {
    hide Good, Next, From, Kept, NoBegins, Carries, Dry;
    GoodIsFresh(s, c);
    var w := s.calls[c].next;
    var a := Settle(s, c, w);
    var t := From(s, a);
    KeptCarries(s, t, c, w);
    GoodIsFresh(t, c);
    TakeGood(t, c, w, c);
    var u := Next(t, Receive(w, c));
    OneStep(t, Receive(w, c));
    var b := Settle(u, c, w);
    var z := From(u, b);
    KeptCarries(u, z, c, w);
    CarriesTrans(s, t, u, c);
    CarriesTrans(s, u, z, c);
    JoinRuns(t, [Receive(w, c)], b);
    JoinRuns(s, a, [Receive(w, c)] + b);
    run := a + ([Receive(w, c)] + b);
  }

  lemma GoodIsFresh(s: State, c: Cid)
    requires Good(s, c)
    ensures c in s.calls && Fresh(s.calls[c]) && s.calls[c].next <= |s.workers|
  {
    assert CallOk(s, c);
  }

  lemma CarriesAcked(s: State, t: State, c: Cid)
    requires Carries(s, t, c)
    ensures c in s.calls && c in t.calls && s.calls[c].acked <= t.calls[c].acked && |t.workers| == |s.workers|
  {
  }

  lemma CarriesSelf(s: State, c: Cid)
    requires c in s.calls
    ensures Carries(s, s, c)
  {
  }

  /** All workers from the next one on take the request and acknowledge it. */
  lemma {:induction false} ServeAll(s: State, c: Cid) returns (run: seq<Step>)
    requires Good(s, c) && forall w: Wid :: w < s.calls[c].next ==> w in s.calls[c].acked
    ensures NoBegins(run) && Good(From(s, run), c) && Carries(s, From(s, run), c)
    ensures forall w: Wid :: w < |s.workers| ==> w in From(s, run).calls[c].acked
    decreases |s.workers| - s.calls[c].next
  {
    hide Good, Next, Carries;
    GoodIsFresh(s, c);
    if s.calls[c].next == |s.workers| {
      run := [];
      CarriesSelf(s, c);
    } else {
      hide From, NoBegins;
      var a := Serve(s, c);
      var t := From(s, a);
      CarriesAcked(s, t, c);
      var b := ServeAll(t, c);
      JoinRuns(s, a, b);
      CarriesTrans(s, t, From(t, b), c);
      run := a + b;
    }
  }

  lemma ReturnStep(s: State, c: Cid)
    requires c in s.calls && Fresh(s.calls[c]) && forall w: Wid :: w < |s.workers| ==> w in s.calls[c].acked
    ensures var t := Next(s, Return(c)); Succeeded(t, c) && t == SetCall(s, c, s.calls[c].(result := Some(true)))
  {
  }

  /** A fresh call can be served to a nil result. */
  lemma Complete(s: State, c: Cid, p: nat) returns (run: seq<Step>)
    requires Good(s, c) && s.calls[c].next == 0 && p < s.calls[c].start && FailedForAnother(s, c, p)
    ensures NoBegins(run)
    ensures var t := From(s, run);
            Succeeded(t, c) && t.calls[c].start == s.calls[c].start && FailedForAnother(t, c, p) && Inv(t)
  {
    var a := ServeAll(s, c);
    var t := From(s, a);
    GoodIsFresh(t, c);
    StepInv(t, Return(c));
    hide Good, Inv, Next, From, NoBegins;
    ReturnStep(t, c);
    OneStep(t, Return(c));
    JoinRuns(s, a, [Return(c)]);
    run := a + [Return(c)];
  }

  // ---- a failed export for another call ----

  /** What the failing schedule achieves. */
  ghost predicate Spoiled(s: State, t: State, c: Cid, p: nat) {
    Good(t, c) && Carries(s, t, c) && t.calls[c].next == s.calls[c].next && FailedForAnother(t, c, p)
  }

  lemma SpoiledVia(s: State, t: State, u: State, c: Cid, p: nat)
    requires Carries(s, t, c) && t.calls[c].next == s.calls[c].next && Spoiled(t, u, c, p)
    ensures Spoiled(s, u, c, p)
  {
    hide Good;
    CarriesTrans(s, t, u, c);
  }

  lemma ExportFails(s: State, c: Cid, w: Wid, d: Cid, p: nat)
    requires Good(s, c) && w < |s.workers| && CallOf(s.workers[w].pc) == Some(d) && d != c && p in s.workers[w].batch
    requires s.workers[w].pc.DrainExporting? || s.workers[w].pc.FinalExporting?
    ensures var step := if s.workers[w].pc.DrainExporting? then EndDrainExport(w, false) else EndFinalExport(w, false);
            Spoiled(s, Next(s, step), c, p)
  {
    var step := if s.workers[w].pc.DrainExporting? then EndDrainExport(w, false) else EndFinalExport(w, false);
    WorkerOfGood(s, c, w);
    assert CallOk(s, c);
    hide Good, Next, Able, Kept, BatchOk, WorkerOk;
    ExportMove(s, c, w, step);
    GoodAfter(s, step, c, w);
    KeptCarries(s, Next(s, step), c, w);
  }

  /** Before its next export a drain keeps what it has in its batch. */
  lemma DrainKeepsBatch(s: State, c: Cid, w: Wid, d: Cid, p: nat)
    requires Good(s, c) && w < |s.workers| && CallOf(s.workers[w].pc) == Some(d) && p in s.workers[w].batch
    requires !(s.workers[w].pc.DrainExporting? || s.workers[w].pc.FinalExporting?)
    ensures var t := Next(s, Move(s, w));
            && w < |t.workers| && CallOf(t.workers[w].pc) == Some(d) && p in t.workers[w].batch && t.calls == s.calls
  {
    WorkerOfGood(s, c, w);
    SizedStep(s, Move(s, w));
    hide Good, Inv, Next, Able, Kept, WorkerOk, Move;
    if s.workers[w].pc.Draining? && s.rp < s.wp && s.workers[w].pc.chunk < DRAIN_CHUNK { PopMove(s, c, w); }
    else { DrainMove(s, c, w); }
  }

  lemma {:induction false} FailFor(s: State, c: Cid, w: Wid, d: Cid, p: nat) returns (run: seq<Step>)
    requires Good(s, c) && w < |s.workers| && CallOf(s.workers[w].pc) == Some(d) && d != c && p in s.workers[w].batch
    ensures NoBegins(run) && c in s.calls && Spoiled(s, From(s, run), c, p)
    decreases s.wp - s.rp, Rank(s.workers[w].pc)
  {
    hide Good, Next, Spoiled, Advances, Rank, Move, From, Kept, Carries;
    GoodIsFresh(s, c);
    var pc := s.workers[w].pc;
    if pc.DrainExporting? || pc.FinalExporting? {
      var step := if pc.DrainExporting? then EndDrainExport(w, false) else EndFinalExport(w, false);
      ExportFails(s, c, w, d, p);
      OneStep(s, step);
      run := [step];
    } else {
      var step := Move(s, w);
      var t := Next(s, step);
      MoveAdvances(s, c, w);
      MoveIsNoBegin(s, w);
      Progress(s, t, c, w);
      DrainKeepsBatch(s, c, w, d, p);
      AdvancesCarries(s, t, c, w);
      var rest := FailFor(t, c, w, d, p);
      OneStep(s, step);
      JoinRuns(s, [step], rest);
      SpoiledVia(s, t, From(t, rest), c, p);
      run := [step] + rest;
    }
  }

  lemma AdvancesCarries(s: State, t: State, c: Cid, w: Wid)
    requires Advances(s, t, c, w)
    ensures Carries(s, t, c)
  {
    hide Good, Rank, Dry;
    KeptCarries(s, t, c, w);
  }

  // ---- reaching such an export ----

  /** A draining worker pops an old position and takes it to a failed export. */
  lemma PopAndFail(s: State, c: Cid, w: Wid, d: Cid) returns (run: seq<Step>)
    requires Good(s, c) && w < |s.workers| && CallOf(s.workers[w].pc) == Some(d) && d != c
    requires s.workers[w].pc.Draining? && s.workers[w].pc.chunk < DRAIN_CHUNK && s.rp < s.wp
    ensures NoBegins(run) && c in s.calls && Spoiled(s, From(s, run), c, s.rp)
  {
    WorkerOfGood(s, c, w);
    hide Good, Next, Spoiled, From, Kept, Carries, Able, BatchOk, WorkerOk, NoBegins;
    PopMove(s, c, w);
    var t := Next(s, Pop(w));
    KeptCarries(s, t, c, w);
    GoodAfter(s, Pop(w), c, w);
    assert s.rp in t.workers[w].batch;
    var rest := FailFor(t, c, w, d, s.rp);
    OneStep(s, Pop(w));
    JoinRuns(s, [Pop(w)], rest);
    SpoiledVia(s, t, From(t, rest), c, s.rp);
    run := [Pop(w)] + rest;
  }

  lemma CheckAgain(s: State, w: Wid)
    requires w < |s.workers| && s.workers[w].pc.DrainCheck? && CanPop(s, w)
    ensures Enabled(s, Check(w)) && Move(s, w) == Check(w)
    ensures var pc := Next(s, Check(w)).workers[w].pc; pc.Draining? && pc.chunk == 0
  {
  }

  lemma LookAgain(s: State, c: Cid, w: Wid, d: Cid) returns (run: seq<Step>)
    requires Good(s, c) && w < |s.workers| && CallOf(s.workers[w].pc) == Some(d)
    requires d != c && CanPop(s, w) && s.rp < s.wp
    ensures NoBegins(run) && c in s.calls && Spoiled(s, From(s, run), c, s.rp)
  {
    WorkerOfGood(s, c, w);
    if s.workers[w].pc.Draining? {
      run := PopAndFail(s, c, w, d);
    } else {
      hide Good, Next, Spoiled, From, Kept, Carries, Able, BatchOk, WorkerOk, NoBegins;
      CheckAgain(s, w);
      DrainMove(s, c, w);
      var t := Next(s, Check(w));
      KeptCarries(s, t, c, w);
      GoodAfter(s, Check(w), c, w);
      var rest := PopAndFail(t, c, w, d);
      OneStep(s, Check(w));
      JoinRuns(s, [Check(w)], rest);
      SpoiledVia(s, t, From(t, rest), c, s.rp);
      run := [Check(w)] + rest;
    }
  }

  lemma SpoilServing(s: State, c: Cid, w: Wid, d: Cid) returns (run: seq<Step>, p: nat)
    requires Good(s, c) && w < |s.workers| && d != c && ServesOld(s, s.calls[c].start, w, d)
    ensures NoBegins(run) && Spoiled(s, From(s, run), c, p) && p < s.calls[c].start
  {
    var start := s.calls[c].start;
    assert CallOk(s, c);
    hide Good, Next, Spoiled, From, CanPop, NoBegins;
    if HoldsOld(s.workers[w].batch, start) {
      p :| p in s.workers[w].batch && p < start;
      run := FailFor(s, c, w, d, p);
    } else {
      p := s.rp;
      run := LookAgain(s, c, w, d);
    }
  }

  // ---- a waiting batch ----

  /** Call d reaches its next worker, which comes back to its loop; worker w stays where it is. */
  lemma PassOn(s: State, c: Cid, d: Cid, w: Wid) returns (run: seq<Step>)
    requires Good(s, c) && d in s.calls && d != c && !s.calls[d].stop && s.calls[d].result.None?
    requires s.calls[d].next < w < |s.workers|
    ensures NoBegins(run) && Good(From(s, run), c) && Carries(s, From(s, run), c)
    ensures var t := From(s, run);
            && t.workers[w] == s.workers[w] && t.calls[c].next == s.calls[c].next
            && d in t.calls
            && t.calls[d] ==
                 s.calls[d].(next := s.calls[d].next + 1, acked := t.calls[d].acked, failed := t.calls[d].failed)
  {
    hide Good, Next, From, NoBegins, Dry, Carries;
    GoodIsFresh(s, c);
    var v := s.calls[d].next;
    var a := Settle(s, c, v);
    var t := From(s, a);
    KeptCarries(s, t, c, v);
    TakeGood(t, c, v, d);
    var u := Next(t, Receive(v, d));
    var b := Settle(u, c, v);
    var z := From(u, b);
    KeptCarries(u, z, c, v);
    OneStep(t, Receive(v, d));
    CarriesTrans(s, t, u, c);
    CarriesTrans(s, u, z, c);
    JoinRuns(t, [Receive(v, d)], b);
    JoinRuns(s, a, [Receive(v, d)] + b);
    run := a + ([Receive(v, d)] + b);
  }

  lemma {:induction false} SpoilWaiting(s: State, c: Cid, d: Cid, w: Wid, p: nat) returns (run: seq<Step>)
    requires Good(s, c) && d in s.calls && d != c && !s.calls[d].stop && s.calls[d].result.None?
    requires s.calls[d].next <= w < |s.workers| && s.workers[w].pc.Loop? && p in s.workers[w].batch
    ensures NoBegins(run) && Spoiled(s, From(s, run), c, p)
    decreases w - s.calls[d].next
  {
    hide Good, Next, From, NoBegins, Carries, Spoiled;
    GoodIsFresh(s, c);
    if s.calls[d].next == w {
      TakeGood(s, c, w, d);
      var t := Next(s, Receive(w, d));
      var rest := FailFor(t, c, w, d, p);
      OneStep(s, Receive(w, d));
      JoinRuns(s, [Receive(w, d)], rest);
      SpoiledVia(s, t, From(t, rest), c, p);
      run := [Receive(w, d)] + rest;
    } else {
      var a := PassOn(s, c, d, w);
      var t := From(s, a);
      CarriesAcked(s, t, c);
      var b := SpoilWaiting(t, c, d, w, p);
      JoinRuns(s, a, b);
      SpoiledVia(s, t, From(t, b), c, p);
      run := a + b;
    }
  }

  // ---- an old position in the ring ----

  lemma LoopPop(s: State, c: Cid, w: Wid)
    requires w < |s.workers| && c in s.calls && Able(s, c, w) && s.workers[w].pc.Loop? && s.rp < s.wp
    ensures var t := Next(s, Pop(w));
            && Kept(s, t, c, w) && t.calls == s.calls && Able(t, c, w)
            && t.workers[w].pc.Loop? && t.workers[w].batch == s.workers[w].batch + [s.rp]
  {
  }

  /** A worker pops an old position in its own loop and then takes the request of d with it. */
  lemma TakeAndFail(s: State, c: Cid, w: Wid, d: Cid) returns (run: seq<Step>)
    requires Good(s, c) && CanTake(s, w, d) && !s.calls[d].stop && d != c && s.rp < s.wp
    ensures NoBegins(run) && c in s.calls && Spoiled(s, From(s, run), c, s.rp)
  {
    WorkerOfGood(s, c, w);
    hide Good, Next, Spoiled, From, Kept, Carries, Able, BatchOk, WorkerOk, NoBegins;
    LoopPop(s, c, w);
    var t := Next(s, Pop(w));
    KeptCarries(s, t, c, w);
    GoodAfter(s, Pop(w), c, w);
    KeptSize(s, t, c, w);
    assert s.rp in t.workers[w].batch;
    var rest := SpoilWaiting(t, c, d, w, s.rp);
    OneStep(s, Pop(w));
    JoinRuns(s, [Pop(w)], rest);
    SpoiledVia(s, t, From(t, rest), c, s.rp);
    run := [Pop(w)] + rest;
  }

  lemma NobodyServesYet(s: State, c: Cid, w: Wid)
    requires Good(s, c) && w < |s.workers| && s.calls[c].next == 0
    ensures CallOf(s.workers[w].pc) != Some(c)
  {
    assert WorkerOk(s, w);
  }

  /** The ring holds an old position and call d has workers left to reach. */
  lemma SpoilFromRing(s: State, c: Cid, d: Cid) returns (run: seq<Step>, p: nat)
    requires Good(s, c) && s.calls[c].next == 0 && d in s.calls && d != c && !s.calls[d].stop
    requires s.calls[d].result.None? && s.calls[d].next < |s.workers| && s.rp < s.calls[c].start
    ensures NoBegins(run) && Spoiled(s, From(s, run), c, p) && p < s.calls[c].start
  {
    var v, start := s.calls[d].next, s.calls[c].start;
    WorkerOfGood(s, c, v);
    assert CallOk(s, c);
    NobodyServesYet(s, c, v);
    hide Good, Next, Spoiled, From, Carries, NoBegins, Kept, Able, WorkerOk, CanPop;
    var e := CallOf(s.workers[v].pc);
    if e.Some? && ServesOld(s, start, v, e.value) {
      run, p := SpoilServing(s, c, v, e.value);
    } else {
      DryOrOld(s, start, v);
      var a := Settle(s, c, v);
      var t := From(s, a);
      KeptCarries(s, t, c, v);
      KeptSize(s, t, c, v);
      var b := TakeAndFail(t, c, v, d);
      p := s.rp;
      JoinRuns(s, a, b);
      SpoiledVia(s, t, From(t, b), c, p);
      run := a + b;
    }
  }

  /** A position at risk can be lost for another call before call c is served at all. */
  lemma Spoil(s: State, c: Cid, w: Wid, d: Cid) returns (run: seq<Step>, p: nat)
    requires Good(s, c) && s.calls[c].next == 0 && AtRisk(s, c, s.calls[c].start, w, d)
    ensures NoBegins(run) && Spoiled(s, From(s, run), c, p) && p < s.calls[c].start
  {
    GoodIsFresh(s, c);
    hide Good, Next, From, NoBegins, Spoiled, CanPop;
    var start := s.calls[c].start;
    if ServesOld(s, start, w, d) {
      run, p := SpoilServing(s, c, w, d);
    } else if s.rp < start {
      run, p := SpoilFromRing(s, c, d);
    } else {
      p :| p in s.workers[w].batch && p < start;
      run := SpoilWaiting(s, c, d, w, p);
    }
  }

  lemma FailedIsNotClean(s: State, c: Cid, p: nat)
    requires Inv(s) && c in s.calls && FailedForAnother(s, c, p)
    ensures !Clean(s, c, p)
  {
    assert FailureOk(s, p);
  }

  /**
   From every state in which call c is not served yet and a position is at risk, some schedule ends in a wrong nil
   result.
   */
  lemma RiskMisleads(s: State, c: Cid, w: Wid, d: Cid) returns (run: seq<Step>, p: nat)
    requires Good(s, c) && s.calls[c].next == 0 && AtRisk(s, c, s.calls[c].start, w, d)
    ensures NoBegins(run)
    ensures var t := From(s, run); Succeeded(t, c) && p < t.calls[c].start && !Clean(t, c, p)
  {
    hide Good, Inv, Next, From, NoBegins, AtRisk, Clean;
    var a;
    a, p := Spoil(s, c, w, d);
    var t := From(s, a);
    var b := Complete(t, c, p);
    JoinRuns(s, a, b);
    run := a + b;
    FailedIsNotClean(From(t, b), c, p);
  }
}
