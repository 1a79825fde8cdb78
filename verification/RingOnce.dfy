/** Every position is consumed by at most one call of a run, and at rest by exactly one. */
module RingOnce {
  import opened RingMachine
  import opened RingInvariant
  import opened RingRuns
  import opened Options

  /** The position a thread has won and not yet returned from. */
  function Consuming(pc: Pc): Option<nat> {
    match pc
    case EvictLoad(_, r, _) => Some(r)
    case EvictAdvance(_, r, _, _) => Some(r)
    case EvictStore(_, r, _, _) => Some(r)
    case EvictPublish(_, r, _, _) => Some(r)
    case EvictRemoved(_, r, _, _) => Some(r)
    case EvictAdded(_, r, _, _) => Some(r)
    case PopLoad(r) => Some(r)
    case PopClear(r, _) => Some(r)
    case PopRelease(r, _) => Some(r)
    case PopRemoved(r, _) => Some(r)
    case _ => None
  }

  /** The position a finished call took out of the ring: popped, or evicted by the push one lap later. */
  function Consumed(cap: nat, o: Outcome): Option<nat> {
    match o
    case Taken(p, _) => Some(p)
    case Replaced(p, _, _) => if cap <= p then Some(p - cap) else None
    case _ => None
  }

  /** The outcome with which a call ends in turn i of a run. */
  function EndsWith(cap: nat, run: seq<Turn>, i: nat): Option<Outcome>
    requires 2 <= cap && i < |run|
  {
    var before, after := PcOf(Exec(cap, run[..i]), run[i].tid), PcOf(Exec(cap, run[..i + 1]), run[i].tid);
    if !before.Done? && after.Done? then Some(after.result) else None
  }

  /** Only winning readPos starts to consume, and that position is not below it any more. */
  predicate Wins(s: State, s': State, t: Tid) {
    && s.mem.rp <= s'.mem.rp
    && (Consuming(PcOf(s', t)).Some? ==>
          || Consuming(PcOf(s', t)) == Consuming(PcOf(s, t))
          || (Consuming(PcOf(s', t)) == Some(s.mem.rp) && s'.mem.rp == s.mem.rp + 1))
  }

  lemma PushWins(s: State, t: Tid, call: Call)
    requires WellShaped(s) && (Pushing(PcOf(s, t)) || PcOf(s, t).Done?)
    ensures Wins(s, Next(s, t, call), t)
  {
  }

  lemma EvictWins(s: State, t: Tid, call: Call)
    requires WellShaped(s) && (SeekingVictim(PcOf(s, t)) || Replacing(PcOf(s, t)))
    ensures Wins(s, Next(s, t, call), t)
  {
  }

  lemma PopWins(s: State, t: Tid, call: Call)
    requires WellShaped(s) && (SeekingItem(PcOf(s, t)) || Removing(PcOf(s, t)))
    ensures Wins(s, Next(s, t, call), t)
  {
  }

  lemma OthersWait(s: State, t: Tid, call: Call, u: Tid)
    requires WellShaped(s) && u != t
    ensures PcOf(Next(s, t, call), u) == PcOf(s, u)
  {
    hide Step, NextHistory;
  }

  lemma StepConsumes(s: State, t: Tid, call: Call)
    requires WellShaped(s)
    ensures Wins(s, Next(s, t, call), t) && forall u :: u != t ==> PcOf(Next(s, t, call), u) == PcOf(s, u)
  {
    hide Next, Wins, PcOf;
    var pc := PcOf(s, t);
    if Pushing(pc) || pc.Done? { PushWins(s, t, call); }
    else if SeekingVictim(pc) || Replacing(pc) { EvictWins(s, t, call); }
    else { PopWins(s, t, call); }
    forall u | u != t ensures PcOf(Next(s, t, call), u) == PcOf(s, u) { OthersWait(s, t, call, u); }
  }

  /** Every thread consumes a position of its own, below readPos. */
  ghost predicate Separate(s: State) {
    && (forall t: Tid :: Consuming(PcOf(s, t)).Some? ==> Consuming(PcOf(s, t)).value < s.mem.rp)
    && (forall t: Tid, u: Tid :: t != u && Consuming(PcOf(s, t)).Some? ==>
      Consuming(PcOf(s, t)) != Consuming(PcOf(s, u)))
  }

  lemma SeparateStep(s: State, t: Tid, call: Call)
    requires WellShaped(s) && Separate(s)
    ensures Separate(Next(s, t, call))
  {
    StepConsumes(s, t, call);
    hide Next, Consuming;
  }

  lemma {:induction false} SeparateRun(cap: nat, run: seq<Turn>)
    requires 2 <= cap
    ensures Separate(Exec(cap, run))
    decreases |run|
  {
    hide Next, Separate;
    if run == [] {
      NobodyConsumes(cap);
    } else {
      SeparateRun(cap, run[..|run| - 1]);
      SeparateStep(Exec(cap, run[..|run| - 1]), run[|run| - 1].tid, run[|run| - 1].call);
    }
  }

  lemma NobodyConsumes(cap: nat)
    requires 2 <= cap
    ensures Separate(Init(cap))
  {
  }

  /** Position p has left the ring for good. */
  ghost predicate Over(s: State, p: nat) {
    p < s.mem.rp && forall t: Tid :: Consuming(PcOf(s, t)) != Some(p)
  }

  lemma OverStep(s: State, t: Tid, call: Call, p: nat)
    requires WellShaped(s) && Over(s, p)
    ensures Over(Next(s, t, call), p)
  {
    StepConsumes(s, t, call);
    hide Next, Consuming;
  }

  lemma {:induction false} OverStays(cap: nat, run: seq<Turn>, i: nat, j: nat, p: nat)
    requires 2 <= cap && i <= j <= |run| && Over(Exec(cap, run[..i]), p)
    ensures Over(Exec(cap, run[..j]), p)
    decreases j
  {
    hide Next, Over;
    if i < j {
      OverStays(cap, run, i, j - 1, p);
      assert run[..j][..j - 1] == run[..j - 1];
      OverStep(Exec(cap, run[..j - 1]), run[j - 1].tid, run[j - 1].call, p);
    }
  }

  /** A call that ends with a consumed position was consuming it. */
  lemma EndingConsumes(s: State, t: Tid, call: Call)
    requires WellShaped(s) && t in s.pcs && !s.pcs[t].Done?
    requires Sized(s) && ThreadIs(s, t)
    ensures var after := PcOf(Next(s, t, call), t);
            after.Done? && Consumed(s.mem.cap, after.result).Some? ==>
              Consuming(s.pcs[t]) == Consumed(s.mem.cap, after.result)
  {
  }

  lemma DoneConsumesNothing(pc: Pc)
    requires pc.Done?
    ensures Consuming(pc).None?
  {
  }

  /** After the turn in which a call ends, the position it consumed is over. */
  lemma EndIsOver(cap: nat, run: seq<Turn>, i: nat, p: nat)
    requires 2 <= cap && i < |run| && EndsWith(cap, run, i).Some?
    requires Consumed(cap, EndsWith(cap, run, i).value) == Some(p)
    ensures Consuming(PcOf(Exec(cap, run[..i]), run[i].tid)) == Some(p) && Over(Exec(cap, run[..i + 1]), p)
  {
    var s, t := Exec(cap, run[..i]), run[i].tid;
    assert run[..i + 1][..i] == run[..i];
    RunInv(cap, run[..i]);
    SeparateRun(cap, run[..i]);
    assert ThreadIs(s, t);
    EndingConsumes(s, t, run[i].call);
    StepConsumes(s, t, run[i].call);
    DoneConsumesNothing(PcOf(Next(s, t, run[i].call), t));
    hide Next, Inv, Consuming;
  }

  /** No two calls of a run consume the same position: not two pops, not two evictions, not a pop and an eviction. */
  lemma ConsumedOnce(cap: nat, run: seq<Turn>, i: nat, j: nat, p: nat)
    requires 2 <= cap && i < |run| && j < |run|
    requires EndsWith(cap, run, i).Some? && Consumed(cap, EndsWith(cap, run, i).value) == Some(p)
    requires EndsWith(cap, run, j).Some? && Consumed(cap, EndsWith(cap, run, j).value) == Some(p)
    ensures i == j
  {
    hide EndsWith, Exec, Consuming;
    EndIsOver(cap, run, i, p);
    EndIsOver(cap, run, j, p);
    if i < j { OverStays(cap, run, i + 1, j, p); }
    else if j < i { OverStays(cap, run, j + 1, i, p); }
  }

  // ---- at rest exactly once ----

  /** The call that ends in turn i of the run took item x from position p. */
  predicate Returns(cap: nat, run: seq<Turn>, i: nat, p: nat, x: Item) {
    && 2 <= cap && i < |run| && EndsWith(cap, run, i).Some?
    && var o := EndsWith(cap, run, i).value;
       o == Taken(p, x) || (o.Replaced? && o.pos == p + cap && o.prev == x)
  }

  /** Only a win of readPos advances it. */
  lemma AdvanceIsWon(s: State, t: Tid, call: Call)
    requires WellShaped(s) && Next(s, t, call).mem.rp != s.mem.rp
    ensures Consuming(PcOf(Next(s, t, call), t)) == Some(s.mem.rp) && Next(s, t, call).mem.rp == s.mem.rp + 1
  {
    hide NextHistory;
  }

  /** A call that consumes a position goes on with it or returns its item. */
  lemma ConsumingEnds(s: State, t: Tid, call: Call, p: nat)
    requires ThreadIs(s, t) && Consuming(s.pcs[t]) == Some(p)
    ensures p < |s.hist.log|
    ensures var after := PcOf(Next(s, t, call), t);
            || Consuming(after) == Some(p)
            || after == Done(Taken(p, s.hist.log[p]))
            || (after.Done? && after.result.Replaced? && after.result.pos == p + s.mem.cap
                && after.result.prev == s.hist.log[p])
  {
    hide PushStep, SeekStep, NextHistory;
  }

  lemma ReturnsInLongerRun(cap: nat, run: seq<Turn>, n: nat, i: nat, p: nat, x: Item)
    requires n <= |run| && Returns(cap, run[..n], i, p, x)
    ensures Returns(cap, run, i, p, x)
  {
    hide Exec;
    assert run[..n][..i] == run[..i] && run[..n][..i + 1] == run[..i + 1];
  }

  /** A position below readPos is being consumed by a call, or was returned by one that ended. */
  lemma {:induction false} PendingOrReturned(cap: nat, run: seq<Turn>, p: nat) returns (pending: bool, t: Tid, i: nat)
    requires 2 <= cap && p < Exec(cap, run).mem.rp
    ensures Sized(Exec(cap, run)) && p < |Exec(cap, run).hist.log|
    ensures pending ==> Consuming(PcOf(Exec(cap, run), t)) == Some(p)
    ensures !pending ==> Returns(cap, run, i, p, Exec(cap, run).hist.log[p])
    decreases |run|
  {
    hide Next, Inv, Consuming, ThreadIs, Returns;
    RunInv(cap, run);
    assert Sized(Exec(cap, run)) by { InvIsSized(Exec(cap, run)); }
    var n := |run| - 1;
    var before, turn := run[..n], run[n];
    var s := Exec(cap, before);
    assert run == before + [turn];
    i := n;
    if p < s.mem.rp {
      pending, t, i := PendingOrReturned(cap, before, p);
      RunGrows(cap, before, [turn]);
      assert s.hist.log <= Exec(cap, run).hist.log;
      if !pending {
        ReturnsInLongerRun(cap, run, n, i, p, s.hist.log[p]);
      } else if t == turn.tid {
        pending := OneMoreTurn(cap, run, p);
        i := n;
      } else {
        OthersWait(s, turn.tid, turn.call, t);
      }
    } else {
      AdvanceIsWon(s, turn.tid, turn.call);
      pending, t := true, turn.tid;
    }
  }

  lemma InvIsSized(s: State)
    requires Inv(s)
    ensures Sized(s)
  {
  }

  /** The last turn of a run belongs to the call that consumes p. */
  lemma OneMoreTurn(cap: nat, run: seq<Turn>, p: nat) returns (pending: bool)
    requires 2 <= cap && run != []
    requires var n := |run| - 1; Consuming(PcOf(Exec(cap, run[..n]), run[n].tid)) == Some(p)
    ensures p < |Exec(cap, run).hist.log|
    ensures pending ==> Consuming(PcOf(Exec(cap, run), run[|run| - 1].tid)) == Some(p)
    ensures !pending ==> Returns(cap, run, |run| - 1, p, Exec(cap, run).hist.log[p])
  {
    var n := |run| - 1;
    var s, t := Exec(cap, run[..n]), run[n].tid;
    RunInv(cap, run[..n]);
    assert run == run[..n] + [run[n]] && run[..n + 1] == run;
    RunGrows(cap, run[..n], [run[n]]);
    BusyIsThread(s, t);
    hide Exec, Next, Inv, ThreadIs, Consuming, Remembers;
    assert Exec(cap, run) == Next(s, t, run[n].call) by { LastTurn(cap, run); }
    ConsumingEnds(s, t, run[n].call, p);
    pending := Consuming(PcOf(Exec(cap, run), t)) == Some(p);
    assert s.hist.log[p] == Exec(cap, run).hist.log[p];
  }

  lemma LastTurn(cap: nat, run: seq<Turn>)
    requires 2 <= cap && run != []
    ensures var n := |run| - 1; Exec(cap, run) == Next(Exec(cap, run[..n]), run[n].tid, run[n].call)
  {
    hide Next;
  }

  lemma BusyIsThread(s: State, t: Tid)
    requires Inv(s) && Consuming(PcOf(s, t)).Some?
    ensures ThreadIs(s, t) && s.pcs[t] == PcOf(s, t) && !s.pcs[t].Done?
  {
  }

  /** With no call in progress, every position below readPos was returned by exactly one call, with its own item. */
  lemma ReturnedExactlyOnce(cap: nat, run: seq<Turn>, p: nat) returns (i: nat)
    requires 2 <= cap && p < Exec(cap, run).mem.rp
    requires var s := Exec(cap, run); forall t :: t in s.pcs ==> s.pcs[t].Done?
    ensures p < |Exec(cap, run).hist.log| && Returns(cap, run, i, p, Exec(cap, run).hist.log[p])
    ensures forall j: nat, x :: Returns(cap, run, j, p, x) ==> j == i
  {
    var pending, t;
    pending, t, i := PendingOrReturned(cap, run, p);
    DoneConsumesNothing(PcOf(Exec(cap, run), t));
    hide Exec, EndsWith;
    forall j: nat, x | Returns(cap, run, j, p, x) ensures j == i {
      ConsumedOnce(cap, run, i, j, p);
    }
  }
}
