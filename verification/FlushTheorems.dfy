/**
 What a nil result of Flush and of Shutdown means, in every run.
 */
module FlushTheorems {
  import opened FlushMachine
  import opened FlushInvariant
  import opened FlushPreservation
  import opened FlushRuns
  import opened FlushRisk

  lemma {:induction false} NoEvictions(cap: nat, workers: nat, run: seq<Step>, p: nat)
    requires p < |Exec(cap, false, workers, run).owner|
    ensures Exec(cap, false, workers, run).owner[p].By?
    decreases |run|
  {
    var s := Exec(cap, false, workers, run[..|run| - 1]);
    RunInv(cap, false, workers, run[..|run| - 1]);
    if p < |s.owner| {
      NoEvictions(cap, workers, run[..|run| - 1], p);
      SizedStep(s, run[|run| - 1]);
    } else {
      OnlyEvictEvicts(s, run[|run| - 1], p);
    }
  }

  lemma OnlyEvictEvicts(s: State, step: Step, p: nat)
    requires |s.owner| <= p < |Next(s, step).owner| && !s.dropOldest
    ensures Next(s, step).owner[p].By?
  {
  }

  lemma SucceededMeans(s: State, c: Cid, p: nat)
    requires Inv(s) && Succeeded(s, c) && 0 < |s.workers| && p < s.calls[c].start
    ensures p < s.rp == |s.owner|
    ensures s.owner[p].By? ==> p in s.exported && Fine(s.exported[p], c, s.calls[c].gen)
  {
    assert CallOk(s, c) && SettledAll(s, c);
    assert 0 in s.calls[c].acked;
    assert PositionOk(s, p);
    assert Settled(s, c, p);
  }

  /**
   When Flush returns nil, every observation accepted before the call left the ring, and unless it was
   evicted it was handed to all exporters in a completed batch. A batch that ended after the call took its
   generation succeeded, except possibly one that another Flush or Shutdown was responsible for.
   */
  lemma FlushDelivers(cap: nat, dropOldest: bool, workers: nat, run: seq<Step>, c: Cid, p: nat)
    requires 0 < workers && Succeeded(Exec(cap, dropOldest, workers, run), c)
    requires p < Exec(cap, dropOldest, workers, run).calls[c].start
    ensures var s := Exec(cap, dropOldest, workers, run);
            && p < |s.owner|
            && (s.owner[p] == Evicted || (p in s.exported && Fine(s.exported[p], c, s.calls[c].gen)))
  {
    RunInv(cap, dropOldest, workers, run);
    SucceededMeans(Exec(cap, dropOldest, workers, run), c, p);
  }

  /**
   When Shutdown returns nil and nothing is ever evicted, the ring is empty and every observation that was
   ever accepted, also by a Record racing with the close, was handed to the exporters.
   */
  lemma ShutdownDelivers(cap: nat, workers: nat, run: seq<Step>, c: Cid, p: nat)
    requires 0 < workers && Succeeded(Exec(cap, false, workers, run), c) && Exec(cap, false, workers, run).calls[c].stop
    ensures var s := Exec(cap, false, workers, run);
            && s.rp == s.wp && s.closed
            && (p < s.wp ==> p in s.exported && Fine(s.exported[p], c, s.calls[c].gen))
  {
    RunInv(cap, false, workers, run);
    var s := Exec(cap, false, workers, run);
    assert CallOk(s, c) && 0 in s.calls[c].acked;
    if p < s.wp {
      SucceededMeans(s, c, p);
      NoEvictions(cap, workers, run, p);
    }
  }
}
