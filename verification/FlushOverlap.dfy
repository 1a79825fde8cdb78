/**
 What a nil result of Flush is worth when there are other calls. A failed export that one call waits for is
 reported to that call only, also after that call has given up on its context. So a later or overlapping Flush can
 return nil although an observation accepted before it was lost. This module says exactly when: for a state in
 which a Flush begins, and for what its caller knows about the other calls.
 */
module FlushOverlap {
  import opened FlushMachine
  import opened FlushInvariant
  import opened FlushRuns
  import opened FlushRisk
  import opened FlushTheorems
  import opened FlushSchedules
  import opened FlushMisled
  import opened FlushShield
  import opened Options

  /** The only failures a nil result can miss are those of exports made in the drain of another call. */
  lemma CleanUnlessForAnother(cap: nat, dropOldest: bool, workers: nat, run: seq<Step>, c: Cid, p: nat)
    requires 0 < workers && Succeeded(Exec(cap, dropOldest, workers, run), c)
    requires p < Exec(cap, dropOldest, workers, run).calls[c].start
    ensures var s := Exec(cap, dropOldest, workers, run); Clean(s, c, p) <==> !FailedForAnother(s, c, p)
  {
    FlushDelivers(cap, dropOldest, workers, run, c, p);
    RunInv(cap, dropOldest, workers, run);
    var s := Exec(cap, dropOldest, workers, run);
    if p in s.exported { assert FailureOk(s, p); }
  }

  // ---- exactly when a Flush that begins now can be wrong ----

  /** Flush c, begun after `before`, returns nil after `after` with a live context, but position p was lost. */
  predicate Misled(
      cap: nat, dropOldest: bool, workers: nat, before: seq<Step>, c: Cid, after: seq<Step>, p: nat)
  {
    var t := Exec(cap, dropOldest, workers, before + [Begin(c, false)] + after);
    Succeeded(t, c) && p < t.calls[c].start && !Clean(t, c, p)
  }

  predicate AllUsable(s: State) {
    forall w: Wid :: w < |s.workers| ==> Usable(s, w)
  }

  ghost predicate SomeAtRisk(s: State, c: Cid) {
    exists w: Wid, d: Cid :: AtRisk(s, c, s.wp, w, d)
  }

  lemma BeginGood(s: State, c: Cid)
    requires Inv(s) && Enabled(s, Begin(c, false)) && AllUsable(s)
    ensures Good(Next(s, Begin(c, false)), c) && Next(s, Begin(c, false)).calls[c].next == 0
  {
    StepInv(s, Begin(c, false));
    BeginStep(s, c, false);
    var t := Next(s, Begin(c, false));
    hide Next;
    forall w: Wid | w < |t.workers| ensures Able(t, c, w) { assert WorkerOk(s, w) && Usable(s, w); }
  }

  lemma BeginKeepsRisk(s: State, c: Cid, w: Wid, d: Cid)
    requires Enabled(s, Begin(c, false)) && AtRisk(s, c, s.wp, w, d)
    ensures var t := Next(s, Begin(c, false)); c in t.calls && AtRisk(t, c, t.calls[c].start, w, d)
  {
    BeginStep(s, c, false);
    hide HoldsOld;
  }

  lemma ExecBegin(cap: nat, dropOldest: bool, workers: nat, before: seq<Step>, c: Cid, stop: bool, after: seq<Step>)
    ensures Exec(cap, dropOldest, workers, before + [Begin(c, stop)] + after) ==
      From(Next(Exec(cap, dropOldest, workers, before), Begin(c, stop)), after)
  {
    hide Next;
    FromIsExec(cap, dropOldest, workers, before, [Begin(c, stop)]);
    FromOne(Exec(cap, dropOldest, workers, before), Begin(c, stop));
    FromIsExec(cap, dropOldest, workers, before + [Begin(c, stop)], after);
  }

  /** A state with a position at risk and usable workers has a schedule that misleads the Flush. */
  lemma RiskToMisled(cap: nat, dropOldest: bool, workers: nat, before: seq<Step>, c: Cid)
    returns (after: seq<Step>, p: nat)
    requires var s := Exec(cap, dropOldest, workers, before); c !in s.calls && AllUsable(s) && SomeAtRisk(s, c)
    ensures NoBegins(after) && Misled(cap, dropOldest, workers, before, c, after, p)
  {
    var s := Exec(cap, dropOldest, workers, before);
    RunInv(cap, dropOldest, workers, before);
    var w: Wid, d: Cid :| AtRisk(s, c, s.wp, w, d);
    BeginGood(s, c);
    BeginKeepsRisk(s, c, w, d);
    hide Good, Inv, Next, AtRisk, AllUsable, SomeAtRisk;
    after, p := RiskMisleads(Next(s, Begin(c, false)), c, w, d);
    ExecBegin(cap, dropOldest, workers, before, c, false, after);
  }

  /** Without a position at risk every nil result is right. */
  lemma SafeCall(
      cap: nat, dropOldest: bool, workers: nat, before: seq<Step>, c: Cid, stop: bool, after: seq<Step>, p: nat)
    requires 0 < workers && NoBegins(after)
    requires var s := Exec(cap, dropOldest, workers, before); Enabled(s, Begin(c, stop)) && !SomeAtRisk(s, c)
    requires var t := Exec(cap, dropOldest, workers, before + [Begin(c, stop)] + after);
             Succeeded(t, c) && p < t.calls[c].start
    ensures Clean(Exec(cap, dropOldest, workers, before + [Begin(c, stop)] + after), c, p)
  {
    var s := Exec(cap, dropOldest, workers, before);
    RunInv(cap, dropOldest, workers, before);
    StepInv(s, Begin(c, stop));
    assert forall w: Wid, d: Cid :: !AtRisk(s, c, s.wp, w, d);
    hide Inv, Next, AtRisk, Shielded, Enabled, Clean;
    ShieldStarts(s, c, stop);
    ShieldRun(Next(s, Begin(c, stop)), c, after);
    ExecBegin(cap, dropOldest, workers, before, c, stop, after);
    ShieldHolds(From(Next(s, Begin(c, stop)), after), c, p);
    CleanUnlessForAnother(cap, dropOldest, workers, before + [Begin(c, stop)] + after, c, p);
  }

  /** With an unusable worker a Flush never returns nil. */
  lemma UnusableFails(
      cap: nat, dropOldest: bool, workers: nat, before: seq<Step>, c: Cid, after: seq<Step>)
    requires var s := Exec(cap, dropOldest, workers, before); c !in s.calls && !AllUsable(s)
    requires NoBegins(after)
    ensures !Succeeded(Exec(cap, dropOldest, workers, before + [Begin(c, false)] + after), c)
  {
    var s := Exec(cap, dropOldest, workers, before);
    RunInv(cap, dropOldest, workers, before);
    var w: Wid :| w < |s.workers| && !Usable(s, w);
    StepInv(s, Begin(c, false));
    DoomStarts(s, c, w);
    hide Inv, Next, Doomed, Usable;
    DoomedRun(Next(s, Begin(c, false)), c, w, after);
    ExecBegin(cap, dropOldest, workers, before, c, false, after);
  }

  /**
   A Flush that begins now, with no other call beginning before it returns, can come to a wrong nil result exactly
   when every worker can still acknowledge it and another Flush can still come to export an observation accepted so
   far: one that a worker is serving, even if the Flush itself was given up, or one that has not reached all workers.
   */
  lemma MisledIff(cap: nat, dropOldest: bool, workers: nat, before: seq<Step>, c: Cid)
    requires 0 < workers && c !in Exec(cap, dropOldest, workers, before).calls
    ensures (exists after: seq<Step>, p: nat ::
               NoBegins(after) && Misled(cap, dropOldest, workers, before, c, after, p))
      <==> AllUsable(Exec(cap, dropOldest, workers, before)) && SomeAtRisk(Exec(cap, dropOldest, workers, before), c)
  {
    hide Next, AtRisk, Usable, Clean, SomeAtRisk, AllUsable;
    var s := Exec(cap, dropOldest, workers, before);
    if AllUsable(s) && SomeAtRisk(s, c) {
      var after, p := RiskToMisled(cap, dropOldest, workers, before, c);
      assert NoBegins(after) && Misled(cap, dropOldest, workers, before, c, after, p);
    }
    forall after: seq<Step>, p: nat | NoBegins(after) && Misled(cap, dropOldest, workers, before, c, after, p)
      ensures AllUsable(s) && SomeAtRisk(s, c)
    {
      if !AllUsable(s) { UnusableFails(cap, dropOldest, workers, before, c, after); }
      if !SomeAtRisk(s, c) { SafeCall(cap, dropOldest, workers, before, c, false, after, p); }
    }
  }

  // ---- what the caller knows ----

  /** How a call looks from outside: running, ended with all acknowledgements, or given up on its context. */
  datatype Fate = Running | Returned | GivenUp

  function FateOf(k: Call): Fate {
    if k.result.None? then Running else if k.aborted then GivenUp else Returned
  }

  predicate Within(s: State, fates: set<Fate>) {
    forall d :: d in s.calls ==> FateOf(s.calls[d]) in fates
  }

  /** A call that a worker still serves has not returned. */
  lemma ServedIsNotOver(s: State, w: Wid)
    requires Inv(s) && w < |s.workers|
    ensures CallOf(s.workers[w].pc).Some? ==>
      CallOf(s.workers[w].pc).value in s.calls && FateOf(s.calls[CallOf(s.workers[w].pc).value]) != Returned
  {
    assert WorkerOk(s, w);
    if CallOf(s.workers[w].pc).Some? { assert CallOk(s, CallOf(s.workers[w].pc).value); }
  }

  /** When all calls so far returned, no worker serves any of them. */
  lemma ReturnedIsOver(s: State, w: Wid)
    requires Inv(s) && Within(s, {Returned}) && w < |s.workers|
    ensures CallOf(s.workers[w].pc).None?
  {
    hide Inv;
    ServedIsNotOver(s, w);
  }

  lemma ReturnedIsSafe(s: State, c: Cid)
    requires Inv(s) && Within(s, {Returned})
    ensures !SomeAtRisk(s, c)
  {
    forall w: Wid, d: Cid ensures !AtRisk(s, c, s.wp, w, d) {
      if w < |s.workers| && d in s.calls {
        ReturnedIsOver(s, w);
        assert FateOf(s.calls[d]) == Returned;
      }
    }
  }

  /**
   A Flush or Shutdown that begins after all earlier calls returned, and before whose nil result no other begins,
   has no failed export since its generation.
   */
  lemma SoloCallClean(
      cap: nat, dropOldest: bool, workers: nat, before: seq<Step>, c: Cid, stop: bool, after: seq<Step>, p: nat)
    requires 0 < workers && NoBegins(after)
    requires var s := Exec(cap, dropOldest, workers, before); Enabled(s, Begin(c, stop)) && Within(s, {Returned})
    requires var t := Exec(cap, dropOldest, workers, before + [Begin(c, stop)] + after);
             Succeeded(t, c) && p < t.calls[c].start
    ensures Clean(Exec(cap, dropOldest, workers, before + [Begin(c, stop)] + after), c, p)
  {
    RunInv(cap, dropOldest, workers, before);
    hide Inv, Next, SomeAtRisk, Clean;
    ReturnedIsSafe(Exec(cap, dropOldest, workers, before), c);
    SafeCall(cap, dropOldest, workers, before, c, stop, after, p);
  }

  /** When all calls returned nil, no export since the generation of any of them failed. */
  lemma AllCallsClean(cap: nat, dropOldest: bool, workers: nat, run: seq<Step>, c: Cid, p: nat)
    requires 0 < workers && Succeeded(Exec(cap, dropOldest, workers, run), c)
    requires forall d :: d in Exec(cap, dropOldest, workers, run).calls ==>
               Exec(cap, dropOldest, workers, run).calls[d].result == Some(true)
    requires p < Exec(cap, dropOldest, workers, run).calls[c].start
    ensures Clean(Exec(cap, dropOldest, workers, run), c, p)
  {
    FlushDelivers(cap, dropOldest, workers, run, c, p);
    RunInv(cap, dropOldest, workers, run);
    var s := Exec(cap, dropOldest, workers, run);
    if s.owner[p].By? {
      assert FailureOk(s, p);
      var e := s.exported[p];
      if e.cause.Some? {
        assert WorkerOk(s, e.worker);
        if e.cause.value in s.calls { assert CallOk(s, e.cause.value); }
      }
    }
  }

  // ---- three ways to be misled ----

  const ACCEPT: seq<Step> := [RecordEnter(0), Push(0), RecordExit(0)]

  lemma ExecNext(cap: nat, dropOldest: bool, workers: nat, run: seq<Step>, step: Step)
    ensures Exec(cap, dropOldest, workers, run + [step]) == Next(Exec(cap, dropOldest, workers, run), step)
  {
    hide Next;
    assert (run + [step])[..|run + [step]| - 1] == run;
  }

  /** One observation was accepted and nothing else has happened. */
  lemma AcceptsOne(cap: nat, dropOldest: bool, workers: nat)
    requires 0 < cap
    ensures Exec(cap, dropOldest, workers, ACCEPT) == Init(cap, dropOldest, workers).(wp := 1)
  {
    var s := Init(cap, dropOldest, workers);
    assert Exec(cap, dropOldest, workers, []) == s;
    ExecNext(cap, dropOldest, workers, [], RecordEnter(0));
    ExecNext(cap, dropOldest, workers, [RecordEnter(0)], Push(0));
    ExecNext(cap, dropOldest, workers, [RecordEnter(0), Push(0)], RecordExit(0));
    assert [] + [RecordEnter(0)] == [RecordEnter(0)];
    assert [RecordEnter(0)] + [Push(0)] == [RecordEnter(0), Push(0)];
    assert [RecordEnter(0), Push(0)] + [RecordExit(0)] == ACCEPT;
    hide Exec;
    assert s.active + {0} == {0} && {0} - {0} == {};
    var t := s.(active := {0});
    assert Next(s, RecordEnter(0)) == t;
    assert Next(t, Push(0)) == t.(wp := 1);
  }

  /** The first call of a run, with position 0 in the ring. */
  const FIRST := Call(1, false, 1, 0, {}, false, false, false, None)

  lemma FirstBegins(cap: nat, dropOldest: bool, workers: nat)
    requires 0 < cap
    ensures Exec(cap, dropOldest, workers, ACCEPT + [Begin(0, false)]) ==
      Init(cap, dropOldest, workers).(wp := 1, calls := map[0 := FIRST], flushGen := 1)
  {
    hide Exec;
    AcceptsOne(cap, dropOldest, workers);
    ExecNext(cap, dropOldest, workers, ACCEPT, Begin(0, false));
    BeginStep(Exec(cap, dropOldest, workers, ACCEPT), 0, false);
  }

  /** A second Flush begins while the first is running. */
  lemma RunningMisleads(cap: nat, dropOldest: bool, workers: nat) returns (before: seq<Step>, after: seq<Step>, p: nat)
    requires 0 < cap && 0 < workers
    ensures var s := Exec(cap, dropOldest, workers, before); 1 !in s.calls && Within(s, {Running})
    ensures NoBegins(after) && Misled(cap, dropOldest, workers, before, 1, after, p)
  {
    before := ACCEPT + [Begin(0, false)];
    FirstBegins(cap, dropOldest, workers);
    var s := Exec(cap, dropOldest, workers, before);
    hide Exec, Next, HoldsOld, Misled;
    assert AtRisk(s, 1, s.wp, 0, 0);
    after, p := RiskToMisled(cap, dropOldest, workers, before, 1);
  }

  /** The first Flush ends on its context while worker 0 is inside PopBatch for it. */
  const GIVEN_UP: seq<Step> :=
    ACCEPT + [Begin(0, false)] + [Receive(0, 0)] + [Check(0)] + [ContextEnds(0)] + [Abort(0)]

  /** Worker 0 takes the first request and looks at the ring while the context is live. */
  lemma FirstDrains(cap: nat, dropOldest: bool, workers: nat)
    requires 0 < cap && 0 < workers
    ensures var s := Exec(cap, dropOldest, workers, ACCEPT + [Begin(0, false)] + [Receive(0, 0)] + [Check(0)]);
            var i := Init(cap, dropOldest, workers);
            s == i.(wp := 1, flushGen := 1,
                    workers := i.workers[0 := Worker(Draining(0, 0, 0, 0, false), [], None)],
                    calls := map[0 := FIRST.(next := 1)])
  {
    hide Exec;
    FirstBegins(cap, dropOldest, workers);
    var run := ACCEPT + [Begin(0, false)];
    var s := Exec(cap, dropOldest, workers, run);
    ExecNext(cap, dropOldest, workers, run, Receive(0, 0));
    ExecNext(cap, dropOldest, workers, run + [Receive(0, 0)], Check(0));
    TakeStep(s, 0, 0);
    LooksAtRing(Next(s, Receive(0, 0)), 0);
  }

  lemma LooksAtRing(s: State, w: Wid)
    requires w < |s.workers| && s.workers[w].pc.DrainCheck? && CanPop(s, w)
    ensures var d := s.workers[w].pc;
            Next(s, Check(w)) ==
              SetWorker(s, w, s.workers[w].(pc := Draining(d.call, d.base, d.popped, 0, d.errs)))
  {
  }

  lemma FirstGivesUp(cap: nat, dropOldest: bool, workers: nat)
    requires 0 < cap && 0 < workers
    ensures var s := Exec(cap, dropOldest, workers, GIVEN_UP);
            var i := Init(cap, dropOldest, workers);
            s == i.(wp := 1, flushGen := 1,
                    workers := i.workers[0 := Worker(Draining(0, 0, 0, 0, false), [], None)],
                    calls := map[0 := FIRST.(next := 1, dead := true, aborted := true, result := Some(false))])
  {
    hide Exec;
    FirstDrains(cap, dropOldest, workers);
    var run := ACCEPT + [Begin(0, false)] + [Receive(0, 0)] + [Check(0)];
    ExecNext(cap, dropOldest, workers, run, ContextEnds(0));
    ExecNext(cap, dropOldest, workers, run + [ContextEnds(0)], Abort(0));
    GivesUp(Exec(cap, dropOldest, workers, run), 0);
  }

  lemma GivesUp(s: State, c: Cid)
    requires c in s.calls && s.calls[c].result.None?
    ensures Next(Next(s, ContextEnds(c)), Abort(c)) ==
      SetCall(s, c, s.calls[c].(dead := true, aborted := true, result := Some(false)))
  {
  }

  /** A Flush is repeated after the first was given up on its context, without any overlap of the two calls. */
  lemma GivenUpMisleads(cap: nat, dropOldest: bool, workers: nat) returns (before: seq<Step>, after: seq<Step>, p: nat)
    requires 0 < cap && 0 < workers
    ensures var s := Exec(cap, dropOldest, workers, before); 1 !in s.calls && Within(s, {GivenUp})
    ensures NoBegins(after) && Misled(cap, dropOldest, workers, before, 1, after, p)
  {
    before := GIVEN_UP;
    FirstGivesUp(cap, dropOldest, workers);
    var s := Exec(cap, dropOldest, workers, before);
    hide Exec, Next, HoldsOld, Misled;
    assert AtRisk(s, 1, s.wp, 0, 0);
    after, p := RiskToMisled(cap, dropOldest, workers, before, 1);
  }

  lemma SecondBegins(cap: nat, dropOldest: bool, workers: nat)
    requires 0 < cap
    ensures Exec(cap, dropOldest, workers, ACCEPT + [Begin(0, false)] + [Begin(1, false)]) ==
      Init(cap, dropOldest, workers).(wp := 1, flushGen := 2, calls := map[0 := FIRST, 1 := FIRST.(gen := 2)])
  {
    hide Exec;
    FirstBegins(cap, dropOldest, workers);
    ExecNext(cap, dropOldest, workers, ACCEPT + [Begin(0, false)], Begin(1, false));
    BeginStep(Exec(cap, dropOldest, workers, ACCEPT + [Begin(0, false)]), 1, false);
  }

  /** Another Flush begins while the only one is running. */
  lemma LaterMisleads(cap: nat, dropOldest: bool, workers: nat) returns (after: seq<Step>, p: nat)
    requires 0 < cap && 0 < workers
    ensures Exec(cap, dropOldest, workers, ACCEPT).calls == map[]
    ensures Misled(cap, dropOldest, workers, ACCEPT, 0, after, p)
  {
    hide Exec, Next, Inv, HoldsOld, Clean, Good, AtRisk, From, NoBegins;
    AcceptsOne(cap, dropOldest, workers);
    SecondBegins(cap, dropOldest, workers);
    var run := ACCEPT + [Begin(0, false)] + [Begin(1, false)];
    RunInv(cap, dropOldest, workers, run);
    var t := Exec(cap, dropOldest, workers, run);
    SecondIsGood(cap, dropOldest, workers, t);
    var rest;
    rest, p := RiskMisleads(t, 0, 0, 1);
    after := [Begin(1, false)] + rest;
    FromIsExec(cap, dropOldest, workers, run, rest);
    assert run + rest == ACCEPT + [Begin(0, false)] + after;
  }

  lemma SecondIsGood(cap: nat, dropOldest: bool, workers: nat, t: State)
    requires 0 < workers && Inv(t)
    requires t ==
      Init(cap, dropOldest, workers).(wp := 1, flushGen := 2, calls := map[0 := FIRST, 1 := FIRST.(gen := 2)])
    ensures Good(t, 0) && AtRisk(t, 0, 1, 0, 1)
  {
    hide Inv, HoldsOld;
  }

  /**
   Knowing only that the other calls have these fates as it begins, and whether others may begin meanwhile, a Flush
   can trust its nil result.
   */
  ghost predicate Trustworthy(cap: nat, dropOldest: bool, workers: nat, fates: set<Fate>, during: bool) {
    forall before: seq<Step>, c: Cid, after: seq<Step>, p: nat ::
      Admits(cap, dropOldest, workers, fates, during, before, c, after) ==>
        !Misled(cap, dropOldest, workers, before, c, after, p)
  }

  predicate Admits(
      cap: nat, dropOldest: bool, workers: nat, fates: set<Fate>, during: bool, before: seq<Step>, c: Cid,
      after: seq<Step>)
  {
    && c !in Exec(cap, dropOldest, workers, before).calls
    && Within(Exec(cap, dropOldest, workers, before), fates)
    && (during || NoBegins(after))
  }

  /**
   A nil result of Flush can be trusted on what its caller can see exactly when every earlier call returned with all
   acknowledgements and no other call begins before the result.
   */
  lemma TrustIff(cap: nat, dropOldest: bool, workers: nat, fates: set<Fate>, during: bool)
    requires 0 < cap && 0 < workers
    ensures Trustworthy(cap, dropOldest, workers, fates, during) <==> fates <= {Returned} && !during
  {
    hide Exec, Next, Clean;
    if fates <= {Returned} && !during {
      forall before: seq<Step>, c: Cid, after: seq<Step>, p: nat
        | Admits(cap, dropOldest, workers, fates, during, before, c, after)
        ensures !Misled(cap, dropOldest, workers, before, c, after, p)
      {
        if Misled(cap, dropOldest, workers, before, c, after, p) {
          SoloCallClean(cap, dropOldest, workers, before, c, false, after, p);
        }
      }
    } else if during {
      var after, p := LaterMisleads(cap, dropOldest, workers);
      assert Admits(cap, dropOldest, workers, fates, during, ACCEPT, 0, after);
    } else if Running in fates {
      var before, after, p := RunningMisleads(cap, dropOldest, workers);
      assert Admits(cap, dropOldest, workers, fates, during, before, 1, after);
    } else {
      var f: Fate :| f in fates && f != Returned;
      assert f == GivenUp;
      var before, after, p := GivenUpMisleads(cap, dropOldest, workers);
      assert Admits(cap, dropOldest, workers, fates, during, before, 1, after);
    }
  }
}
