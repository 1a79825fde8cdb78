/**
 When a Flush that returns nil can be wrong: another call's worker can still take an observation accepted before
 it to the exporters, and a failure of that export is reported to the other call only.
 */
module FlushRisk {
  import opened FlushMachine
  import opened FlushInvariant
  import opened Options

  /** Flush or Shutdown returned nil and its context was still live. */
  predicate Succeeded(s: State, c: Cid) {
    c in s.calls && s.calls[c].result == Some(true) && !s.calls[c].dead
  }

  /** Position p was evicted, or exported without a failure after the generation of call c. */
  predicate Clean(s: State, c: Cid, p: nat)
    requires c in s.calls
  {
    && p < |s.owner|
    && (s.owner[p] == Evicted
        || (p in s.exported && (s.exported[p].ok || s.exported[p].gen < s.calls[c].gen)))
  }

  /** The drain of another call exported p after the generation of c, and that export failed. */
  predicate FailedForAnother(s: State, c: Cid, p: nat)
    requires c in s.calls
  {
    && p in s.exported && !s.exported[p].ok && s.exported[p].gen >= s.calls[c].gen
    && s.exported[p].cause.Some? && s.exported[p].cause.value != c
  }

  /** The batch holds a position below start. */
  predicate HoldsOld(batch: seq<nat>, start: nat) {
    exists p :: p in batch && p < start
  }

  /** A drain in progress will look at the ring again. */
  predicate CanPop(s: State, w: Wid)
    requires w < |s.workers|
  {
    var pc := s.workers[w].pc;
    || (pc.Draining? && pc.chunk < DRAIN_CHUNK)
    || (pc.DrainCheck? && pc.call in s.calls && pc.popped < s.cap && !s.calls[pc.call].dead)
  }

  /** Worker w will not pop any more before it is back. */
  predicate Dry(s: State, w: Wid)
    requires w < |s.workers|
  {
    !s.workers[w].pc.Draining? && !s.workers[w].pc.DrainExporting? && !CanPop(s, w)
  }

  /** Worker w works for call d and can still export a position below start for it. */
  predicate ServesOld(s: State, start: nat, w: Wid, d: Cid)
    requires w < |s.workers|
  {
    && CallOf(s.workers[w].pc) == Some(d)
    && (HoldsOld(s.workers[w].batch, start) || (s.rp < start && CanPop(s, w)))
  }

  lemma DryOrOld(s: State, start: nat, w: Wid)
    requires Sized(s) && w < |s.workers| && BatchOk(s, w) && s.rp < start
    requires CallOf(s.workers[w].pc).Some? ==> !ServesOld(s, start, w, CallOf(s.workers[w].pc).value)
    ensures Dry(s, w)
  {
    var x := s.workers[w];
    if x.batch != [] { assert x.batch[0] in x.batch; }
  }

  /** Call d has not reached worker w yet, and a position below start is in the ring or waits in the batch of w. */
  predicate WillServeOld(s: State, start: nat, w: Wid, d: Cid)
    requires w < |s.workers| && d in s.calls
  {
    && s.calls[d].result.None? && s.calls[d].next <= w
    && (s.rp < start || (s.workers[w].pc.Loop? && HoldsOld(s.workers[w].batch, start)))
  }

  /** Flush d, other than c, can come to export a position below start through worker w. */
  predicate AtRisk(s: State, c: Cid, start: nat, w: Wid, d: Cid) {
    && w < |s.workers| && d in s.calls && d != c && !s.calls[d].stop
    && (ServesOld(s, start, w, d) || WillServeOld(s, start, w, d))
  }

  /** Worker w will acknowledge a Flush that begins now, and not with a failure of its own. */
  predicate Usable(s: State, w: Wid)
    requires w < |s.workers|
  {
    var pc := s.workers[w].pc;
    && !pc.Exited? && pc != Recording(false)
    && (CallOf(pc).Some? ==> CallOf(pc).value in s.calls && !s.calls[CallOf(pc).value].stop)
  }

  predicate NoBegins(run: seq<Step>) {
    forall i :: 0 <= i < |run| ==> !run[i].Begin?
  }

  /** The state after more steps. */
  function From(s: State, run: seq<Step>): State
    decreases |run|
  {
    if run == [] then s else From(Next(s, run[0]), run[1..])
  }

  lemma {:induction false} FromConcat(s: State, a: seq<Step>, b: seq<Step>)
    ensures From(s, a + b) == From(From(s, a), b)
    decreases |a|
  {
    hide Next;
    if a == [] {
      assert a + b == b;
    } else {
      assert (a + b)[1..] == a[1..] + b;
      FromConcat(Next(s, a[0]), a[1..], b);
    }
  }

  lemma FromOne(s: State, step: Step)
    ensures From(s, [step]) == Next(s, step)
  {
    hide Next;
    assert [step][1..] == [];
    assert From(Next(s, step), []) == Next(s, step);
  }

  lemma {:induction false} FromIsExec(cap: nat, dropOldest: bool, workers: nat, before: seq<Step>, run: seq<Step>)
    ensures From(Exec(cap, dropOldest, workers, before), run) == Exec(cap, dropOldest, workers, before + run)
    decreases |run|
  {
    hide Next;
    if run == [] {
      assert before + run == before;
    } else {
      var one := before + [run[0]];
      assert one[..|one| - 1] == before;
      assert one + run[1..] == before + run;
      FromIsExec(cap, dropOldest, workers, one, run[1..]);
    }
  }
}
