/** What pushes report: every claimed position is reported by exactly one call, and a refused call adds nothing. */
module RingReports {
  import opened RingMachine
  import opened RingInvariant
  import opened RingPreservation
  import opened RingRuns
  import opened RingOnce
  import opened Options

  /** The position a push has claimed and not yet reported. */
  function Claiming(pc: Pc): Option<nat> {
    match pc
    case PushStore(_, w) => Some(w)
    case PushPublish(_, w) => Some(w)
    case PushAdded(_, w) => Some(w)
    case EvictStore(_, _, w, _) => Some(w)
    case EvictPublish(_, _, w, _) => Some(w)
    case EvictRemoved(_, _, w, _) => Some(w)
    case EvictAdded(_, _, w, _) => Some(w)
    case _ => None
  }

  /** A result that reports position p and item x as pushed. */
  predicate ReportsPush(o: Outcome, p: nat, x: Item) {
    o == Accepted(p, x) || (o.Replaced? && o.pos == p && o.item == x)
  }

  /** The call that ends in turn i of the run reports that it pushed x at position p. */
  predicate Reports(cap: nat, run: seq<Turn>, i: nat, p: nat, x: Item) {
    2 <= cap && i < |run| && EndsWith(cap, run, i).Some? && ReportsPush(EndsWith(cap, run, i).value, p, x)
  }

  // ---- one step ----

  /** Only winning writePos starts to claim, and only that advances it. */
  predicate WinsWrite(s: State, s': State, t: Tid) {
    && (s'.mem.wp == s.mem.wp ==>
          Claiming(PcOf(s', t)).None? || Claiming(PcOf(s', t)) == Claiming(PcOf(s, t)))
    && (s'.mem.wp != s.mem.wp ==> s'.mem.wp == s.mem.wp + 1 && Claiming(PcOf(s', t)) == Some(s.mem.wp))
  }

  lemma PushWinsWrite(s: State, t: Tid, call: Call)
    requires WellShaped(s) && (Pushing(PcOf(s, t)) || PcOf(s, t).Done?)
    ensures WinsWrite(s, Next(s, t, call), t)
  {
    hide NextHistory;
  }

  lemma EvictWinsWrite(s: State, t: Tid, call: Call)
    requires ThreadIs(s, t) && SlotIs(s, SlotAtHand(s, t)) && (SeekingVictim(s.pcs[t]) || Replacing(s.pcs[t]))
    ensures WinsWrite(s, Next(s, t, call), t)
  {
    hide NextHistory;
  }

  lemma PopWinsNoWrite(s: State, t: Tid, call: Call)
    requires WellShaped(s) && (SeekingItem(PcOf(s, t)) || Removing(PcOf(s, t)))
    ensures WinsWrite(s, Next(s, t, call), t)
  {
    hide NextHistory;
  }

  lemma StepClaims(s: State, t: Tid, call: Call)
    requires Inv(s)
    ensures WinsWrite(s, Next(s, t, call), t) && forall u :: u != t ==> PcOf(Next(s, t, call), u) == PcOf(s, u)
  {
    var pc := PcOf(s, t);
    if !pc.Done? { assert ThreadIs(s, t) && SlotIs(s, SlotAtHand(s, t)); }
    hide Next, WinsWrite, Inv, ThreadIs, SlotIs;
    if Pushing(pc) || pc.Done? { PushWinsWrite(s, t, call); }
    else if SeekingVictim(pc) || Replacing(pc) { EvictWinsWrite(s, t, call); }
    else { PopWinsNoWrite(s, t, call); }
    forall u | u != t ensures PcOf(Next(s, t, call), u) == PcOf(s, u) { OthersWait(s, t, call, u); }
  }

  /** A push that has claimed a position goes on with it or reports it, with its item. */
  lemma ClaimingEnds(s: State, t: Tid, call: Call, p: nat)
    requires ThreadIs(s, t) && Claiming(s.pcs[t]) == Some(p)
    ensures p < |s.hist.log|
    ensures var after := PcOf(Next(s, t, call), t);
            Claiming(after) == Some(p) || (after.Done? && ReportsPush(after.result, p, s.hist.log[p]))
  {
    hide SeekStep, RemoveStep, NextHistory;
  }

  /** A call that ends with such a report had claimed the position. */
  lemma ReportWasClaimed(s: State, t: Tid, call: Call)
    requires ThreadIs(s, t) && !s.pcs[t].Done?
    ensures var after := PcOf(Next(s, t, call), t);
            forall p: nat, x :: after.Done? && ReportsPush(after.result, p, x) ==> Claiming(s.pcs[t]) == Some(p)
  {
    hide NextHistory;
  }

  // ---- at most once ----

  /** Every thread claims a position of its own, below writePos. */
  ghost predicate Apart(s: State) {
    && (forall t: Tid :: Claiming(PcOf(s, t)).Some? ==> Claiming(PcOf(s, t)).value < s.mem.wp)
    && (forall t: Tid, u: Tid :: t != u && Claiming(PcOf(s, t)).Some? ==>
          Claiming(PcOf(s, t)) != Claiming(PcOf(s, u)))
  }

  lemma ApartStep(s: State, t: Tid, call: Call)
    requires Inv(s) && Apart(s)
    ensures Apart(Next(s, t, call))
  {
    StepClaims(s, t, call);
    hide Next, Claiming, Inv;
  }

  lemma {:induction false} ApartRun(cap: nat, run: seq<Turn>)
    requires 2 <= cap
    ensures Apart(Exec(cap, run))
    decreases |run|
  {
    hide Next, Apart, Inv;
    if run == [] {
      NobodyClaims(cap);
    } else {
      ApartRun(cap, run[..|run| - 1]);
      RunInv(cap, run[..|run| - 1]);
      ApartStep(Exec(cap, run[..|run| - 1]), run[|run| - 1].tid, run[|run| - 1].call);
    }
  }

  lemma NobodyClaims(cap: nat)
    requires 2 <= cap
    ensures Apart(Init(cap))
  {
  }

  /** Position p was claimed and reported. */
  ghost predicate Reported(s: State, p: nat) {
    p < s.mem.wp && forall t: Tid :: Claiming(PcOf(s, t)) != Some(p)
  }

  lemma ReportedStep(s: State, t: Tid, call: Call, p: nat)
    requires Inv(s) && Reported(s, p)
    ensures Reported(Next(s, t, call), p)
  {
    StepClaims(s, t, call);
    hide Next, Claiming, Inv;
  }

  lemma {:induction false} ReportedStays(cap: nat, run: seq<Turn>, i: nat, j: nat, p: nat)
    requires 2 <= cap && i <= j <= |run| && Reported(Exec(cap, run[..i]), p)
    ensures Reported(Exec(cap, run[..j]), p)
    decreases j
  {
    hide Next, Reported, Inv;
    if i < j {
      ReportedStays(cap, run, i, j - 1, p);
      assert run[..j][..j - 1] == run[..j - 1];
      RunInv(cap, run[..j - 1]);
      ReportedStep(Exec(cap, run[..j - 1]), run[j - 1].tid, run[j - 1].call, p);
    }
  }

  lemma BusyIsKnown(s: State, t: Tid)
    requires Inv(s) && !PcOf(s, t).Done?
    ensures ThreadIs(s, t) && s.pcs[t] == PcOf(s, t)
  {
  }

  lemma DoneClaimsNothing(pc: Pc)
    requires pc.Done?
    ensures Claiming(pc).None?
  {
  }

  lemma ReportEndsIt(cap: nat, run: seq<Turn>, i: nat, p: nat, x: Item)
    requires Reports(cap, run, i, p, x)
    ensures Claiming(PcOf(Exec(cap, run[..i]), run[i].tid)) == Some(p) && Reported(Exec(cap, run[..i + 1]), p)
  {
    var s, t := Exec(cap, run[..i]), run[i].tid;
    assert run[..i + 1][..i] == run[..i];
    RunInv(cap, run[..i]);
    ApartRun(cap, run[..i]);
    BusyIsKnown(s, t);
    ReportWasClaimed(s, t, run[i].call);
    StepClaims(s, t, run[i].call);
    DoneClaimsNothing(PcOf(Next(s, t, run[i].call), t));
    hide Next, Inv, Claiming, ThreadIs;
  }

  /** No two calls of a run report the same position. */
  lemma ReportedOnce(cap: nat, run: seq<Turn>, i: nat, j: nat, p: nat, x: Item, y: Item)
    requires Reports(cap, run, i, p, x) && Reports(cap, run, j, p, y)
    ensures i == j
  {
    hide Reports, Exec, Claiming;
    ReportEndsIt(cap, run, i, p, x);
    ReportEndsIt(cap, run, j, p, y);
    ReportIsInRun(cap, run, i, p, x);
    ReportIsInRun(cap, run, j, p, y);
    if i < j { ReportedStays(cap, run, i + 1, j, p); }
    else if j < i { ReportedStays(cap, run, j + 1, i, p); }
  }

  lemma ReportIsInRun(cap: nat, run: seq<Turn>, i: nat, p: nat, x: Item)
    requires Reports(cap, run, i, p, x)
    ensures 2 <= cap && i < |run|
  {
  }

  // ---- at rest exactly once ----

  lemma ReportsInLongerRun(cap: nat, run: seq<Turn>, n: nat, i: nat, p: nat, x: Item)
    requires n <= |run| && Reports(cap, run[..n], i, p, x)
    ensures Reports(cap, run, i, p, x)
  {
    hide Exec;
    assert run[..n][..i] == run[..i] && run[..n][..i + 1] == run[..i + 1];
  }

  /** A position below writePos is claimed by a call that is still running, or was reported by one that ended. */
  lemma {:induction false} ClaimedOrReported(cap: nat, run: seq<Turn>, p: nat) returns (pending: bool, t: Tid, i: nat)
    requires 2 <= cap && p < Exec(cap, run).mem.wp
    ensures p < |Exec(cap, run).hist.log|
    ensures pending ==> Claiming(PcOf(Exec(cap, run), t)) == Some(p)
    ensures !pending ==> Reports(cap, run, i, p, Exec(cap, run).hist.log[p])
    decreases |run|
  {
    hide Next, Inv, Claiming, ThreadIs, Reports;
    RunInv(cap, run);
    assert Sized(Exec(cap, run)) by { InvIsSized(Exec(cap, run)); }
    var n := |run| - 1;
    var before, turn := run[..n], run[n];
    var s := Exec(cap, before);
    assert run == before + [turn];
    RunInv(cap, before);
    StepClaims(s, turn.tid, turn.call);
    i := n;
    if p < s.mem.wp {
      pending, t, i := ClaimedOrReported(cap, before, p);
      RunGrows(cap, before, [turn]);
      assert s.hist.log <= Exec(cap, run).hist.log;
      if !pending {
        ReportsInLongerRun(cap, run, n, i, p, s.hist.log[p]);
      } else if t == turn.tid {
        pending := OneMoreTurnOfPush(cap, run, p);
        i := n;
      }
    } else {
      pending, t := true, turn.tid;
    }
  }

  lemma OneMoreTurnOfPush(cap: nat, run: seq<Turn>, p: nat) returns (pending: bool)
    requires 2 <= cap && run != []
    requires var n := |run| - 1; Claiming(PcOf(Exec(cap, run[..n]), run[n].tid)) == Some(p)
    ensures p < |Exec(cap, run).hist.log|
    ensures pending ==> Claiming(PcOf(Exec(cap, run), run[|run| - 1].tid)) == Some(p)
    ensures !pending ==> Reports(cap, run, |run| - 1, p, Exec(cap, run).hist.log[p])
  {
    var n := |run| - 1;
    var s, t := Exec(cap, run[..n]), run[n].tid;
    RunInv(cap, run[..n]);
    assert run == run[..n] + [run[n]] && run[..n + 1] == run;
    RunGrows(cap, run[..n], [run[n]]);
    ClaimerIsBusy(s, t);
    BusyIsKnown(s, t);
    hide Exec, Next, Inv, ThreadIs, Claiming, Remembers;
    assert Exec(cap, run) == Next(s, t, run[n].call) by { LastTurn(cap, run); }
    ClaimingEnds(s, t, run[n].call, p);
    pending := Claiming(PcOf(Exec(cap, run), t)) == Some(p);
    assert s.hist.log[p] == Exec(cap, run).hist.log[p];
  }

  lemma ClaimerIsBusy(s: State, t: Tid)
    requires Claiming(PcOf(s, t)).Some?
    ensures !PcOf(s, t).Done?
  {
  }

  /** With no call in progress, every position below writePos was reported by exactly one call, with the item there. */
  lemma ReportedExactlyOnce(cap: nat, run: seq<Turn>, p: nat) returns (i: nat)
    requires 2 <= cap && p < Exec(cap, run).mem.wp
    requires var s := Exec(cap, run); forall t :: t in s.pcs ==> s.pcs[t].Done?
    ensures p < |Exec(cap, run).hist.log| && Reports(cap, run, i, p, Exec(cap, run).hist.log[p])
    ensures forall j: nat, x :: Reports(cap, run, j, p, x) ==> j == i
  {
    var pending, t;
    pending, t, i := ClaimedOrReported(cap, run, p);
    DoneClaimsNothing(PcOf(Exec(cap, run), t));
    hide Exec, Reports;
    forall j: nat, x | Reports(cap, run, j, p, x) ensures j == i {
      ReportedOnce(cap, run, i, j, p, Exec(cap, run).hist.log[p], x);
    }
  }

  // ---- calls that change nothing ----

  /** One call of a thread: it begins in turn j and ends in turn i. */
  predicate IsCall(cap: nat, run: seq<Turn>, j: nat, i: nat) {
    && 2 <= cap && j <= i < |run| && run[j].tid == run[i].tid
    && PcOf(Exec(cap, run[..j]), run[i].tid).Done? && PcOf(Exec(cap, run[..i + 1]), run[i].tid).Done?
    && forall k :: j < k <= i ==> !PcOf(Exec(cap, run[..k]), run[i].tid).Done?
  }

  lemma {:induction false} ClaimPersists(cap: nat, run: seq<Turn>, k: nat, i: nat, t: Tid, p: nat)
    requires 2 <= cap && k <= i <= |run| && Claiming(PcOf(Exec(cap, run[..k]), t)) == Some(p)
    requires forall m :: k <= m <= i ==> !PcOf(Exec(cap, run[..m]), t).Done?
    ensures Claiming(PcOf(Exec(cap, run[..i]), t)) == Some(p)
    decreases i
  {
    hide Next, Claiming, Inv, ThreadIs;
    if k < i {
      ClaimPersists(cap, run, k, i - 1, t, p);
      var s, turn := Exec(cap, run[..i - 1]), run[i - 1];
      assert run[..i][..i - 1] == run[..i - 1];
      RunInv(cap, run[..i - 1]);
      if turn.tid == t {
        BusyIsKnown(s, t);
        ClaimingEnds(s, t, turn.call, p);
      } else {
        OthersWait(s, turn.tid, turn.call, t);
      }
    }
  }

  /** A push that is refused has added nothing to the log in any of its turns. */
  lemma RefusedAddsNothing(cap: nat, run: seq<Turn>, j: nat, i: nat, k: nat)
    requires IsCall(cap, run, j, i) && PcOf(Exec(cap, run[..i + 1]), run[i].tid) == Done(Refused)
    requires j <= k <= i && run[k].tid == run[i].tid
    ensures Exec(cap, run[..k + 1]).hist.log == Exec(cap, run[..k]).hist.log
  {
    hide Next, Inv, Claiming, ThreadIs;
    var s, s', t := Exec(cap, run[..k]), Exec(cap, run[..k + 1]), run[i].tid;
    assert run[..k + 1][..k] == run[..k] && run[..k + 1] == run[..k] + [run[k]];
    RunInv(cap, run[..k]);
    RunInv(cap, run[..k + 1]);
    RunGrows(cap, run[..k], [run[k]]);
    InvIsSized(s);
    InvIsSized(s');
    StepClaims(s, t, run[k].call);
    if s'.mem.wp != s.mem.wp {
      ClaimIsReported(cap, run, k + 1, i, t, s.mem.wp);
      assert false;
    }
  }

  /** A call that has claimed a position before its last turn ends with a report of it. */
  lemma ClaimIsReported(cap: nat, run: seq<Turn>, k: nat, i: nat, t: Tid, p: nat)
    requires 2 <= cap && k <= i + 1 <= |run| && run[i].tid == t && Claiming(PcOf(Exec(cap, run[..k]), t)) == Some(p)
    requires forall m :: k <= m <= i ==> !PcOf(Exec(cap, run[..m]), t).Done?
    ensures var after := PcOf(Exec(cap, run[..i + 1]), t); after.Done? ==> exists x :: ReportsPush(after.result, p, x)
  {
    hide Next, Inv, ThreadIs;
    if k <= i {
      ClaimPersists(cap, run, k, i, t, p);
      var s := Exec(cap, run[..i]);
      assert run[..i + 1][..i] == run[..i];
      RunInv(cap, run[..i]);
      BusyIsKnown(s, t);
      ClaimingEnds(s, t, run[i].call, p);
    }
  }

  lemma {:induction false} WinPersists(cap: nat, run: seq<Turn>, k: nat, i: nat, t: Tid, p: nat)
    requires 2 <= cap && k <= i <= |run| && Consuming(PcOf(Exec(cap, run[..k]), t)) == Some(p)
    requires forall m :: k <= m <= i ==> !PcOf(Exec(cap, run[..m]), t).Done?
    ensures Consuming(PcOf(Exec(cap, run[..i]), t)) == Some(p)
    decreases i
  {
    hide Next, Consuming, Inv, ThreadIs;
    if k < i {
      WinPersists(cap, run, k, i - 1, t, p);
      var s, turn := Exec(cap, run[..i - 1]), run[i - 1];
      assert run[..i][..i - 1] == run[..i - 1];
      RunInv(cap, run[..i - 1]);
      if turn.tid == t {
        BusyIsKnown(s, t);
        ConsumingEnds(s, t, turn.call, p);
      } else {
        OthersWait(s, turn.tid, turn.call, t);
      }
    }
  }

  /** A call that took something out of the ring before its last turn ends with it. */
  lemma WinIsReturned(cap: nat, run: seq<Turn>, k: nat, i: nat, t: Tid, p: nat)
    requires 2 <= cap && k <= i + 1 <= |run| && run[i].tid == t && Consuming(PcOf(Exec(cap, run[..k]), t)) == Some(p)
    requires forall m :: k <= m <= i ==> !PcOf(Exec(cap, run[..m]), t).Done?
    ensures var after := PcOf(Exec(cap, run[..i + 1]), t); after.Done? ==> after.result.Taken? || after.result.Replaced?
  {
    hide Next, Inv, ThreadIs;
    if k <= i {
      WinPersists(cap, run, k, i, t, p);
      var s := Exec(cap, run[..i]);
      assert run[..i + 1][..i] == run[..i];
      RunInv(cap, run[..i]);
      BusyIsKnown(s, t);
      ConsumingEnds(s, t, run[i].call, p);
    }
  }

  /** A call that returns no item has taken none out in any of its turns. */
  lemma ReturnsNothingTakesNothing(cap: nat, run: seq<Turn>, j: nat, i: nat, k: nat)
    requires IsCall(cap, run, j, i) && j <= k <= i && run[k].tid == run[i].tid
    requires var o := PcOf(Exec(cap, run[..i + 1]), run[i].tid).result; !o.Taken? && !o.Replaced?
    ensures Exec(cap, run[..k + 1]).mem.rp == Exec(cap, run[..k]).mem.rp
  {
    hide Next, Inv, Consuming, ThreadIs;
    var s, s', t := Exec(cap, run[..k]), Exec(cap, run[..k + 1]), run[i].tid;
    assert run[..k + 1][..k] == run[..k];
    if s'.mem.rp != s.mem.rp {
      AdvanceIsWon(s, t, run[k].call);
      WinIsReturned(cap, run, k + 1, i, t, s.mem.rp);
      assert false;
    }
  }
}
