/**
 A whole call in an arbitrary run: it works for the item and in the way it was called with until it ends; and the
 reasons for which a push is refused.
 */
module RingCalls {
  import opened RingMachine
  import opened RingInvariant
  import opened RingRuns
  import opened RingReports
  import opened Options

  // ---- what a call works for ----

  /** A program point, or a result, of this call. */
  predicate Belongs(pc: Pc, call: Call) {
    match pc
    case PushReadPos(x, e) => call == (if e then PushDropOldest(Some(x)) else Push(Some(x)))
    case PushWritePos(x, e, _) => call == (if e then PushDropOldest(Some(x)) else Push(Some(x)))
    case PushSeq(x, e, _) => call == (if e then PushDropOldest(Some(x)) else Push(Some(x)))
    case PushClaim(x, e, _) => call == (if e then PushDropOldest(Some(x)) else Push(Some(x)))
    case PushStore(x, _) => call in {Push(Some(x)), PushDropOldest(Some(x))}
    case PushPublish(x, _) => call in {Push(Some(x)), PushDropOldest(Some(x))}
    case PushAdded(x, _) => call in {Push(Some(x)), PushDropOldest(Some(x))}
    case EvictSeq(x, _, _) => call == PushDropOldest(Some(x))
    case EvictMark(x, _, _) => call == PushDropOldest(Some(x))
    case EvictClaim(x, _, _) => call == PushDropOldest(Some(x))
    case EvictLoad(x, _, _) => call == PushDropOldest(Some(x))
    case EvictAdvance(x, _, _, _) => call == PushDropOldest(Some(x))
    case EvictStore(x, _, _, _) => call == PushDropOldest(Some(x))
    case EvictPublish(x, _, _, _) => call == PushDropOldest(Some(x))
    case EvictRemoved(x, _, _, _) => call == PushDropOldest(Some(x))
    case EvictAdded(x, _, _, _) => call == PushDropOldest(Some(x))
    case PopReadPos(wait) => call == if wait then Pop else TryPop
    case PopWritePos(wait, _) => call == if wait then Pop else TryPop
    case PopSeq(wait, _) => call == if wait then Pop else TryPop
    case PopClaim(wait, _) => call == if wait then Pop else TryPop
    case PopLoad(_) => call in {Pop, TryPop}
    case PopClear(_, _) => call in {Pop, TryPop}
    case PopRelease(_, _) => call in {Pop, TryPop}
    case PopRemoved(_, _) => call in {Pop, TryPop}
    case Done(o) => Fits(o, call)
  }

  /** A result that this call can have. */
  predicate Fits(o: Outcome, call: Call) {
    match o
    case Refused => call.Push? || call.PushDropOldest?
    case Accepted(_, x) => call in {Push(Some(x)), PushDropOldest(Some(x))}
    case Replaced(_, x, _) => call == PushDropOldest(Some(x))
    case Nothing => call in {Pop, TryPop}
    case Taken(_, _) => call in {Pop, TryPop}
  }

  lemma StepBelongs(c: Shared, pc: Pc, call: Call, other: Call)
    requires Shaped(c) && !pc.Done? && Belongs(pc, call)
    ensures Belongs(Step(c, pc, other).1, call)
  {
  }

  lemma EntryBelongs(call: Call)
    ensures Belongs(Entry(call), call)
  {
  }

  lemma NextPc(s: State, t: Tid, call: Call, u: Tid)
    requires WellShaped(s)
    ensures PcOf(Next(s, t, call), u) == if u == t then Step(s.mem, PcOf(s, t), call).1 else PcOf(s, u)
    ensures PcOf(s, t).Done? ==> PcOf(Next(s, t, call), t) == Entry(call)
  {
    hide NextHistory;
  }

  /** A call works for what it was called with, through all its turns and in its result. */
  lemma {:induction false} CallCarries(cap: nat, run: seq<Turn>, j: nat, i: nat, k: nat)
    requires IsCall(cap, run, j, i) && j < k <= i + 1
    ensures Belongs(PcOf(Exec(cap, run[..k]), run[i].tid), run[j].call)
    decreases k
  {
    hide Next, Belongs, Step, Entry;
    var t := run[i].tid;
    var s := Exec(cap, run[..k - 1]);
    assert run[..k][..k - 1] == run[..k - 1];
    NextPc(s, run[k - 1].tid, run[k - 1].call, t);
    if k - 1 == j {
      EntryBelongs(run[j].call);
    } else {
      CallCarries(cap, run, j, i, k - 1);
      if run[k - 1].tid == t { StepBelongs(s.mem, PcOf(s, t), run[j].call, run[k - 1].call); }
    }
  }

  // ---- why a push is refused ----

  /** Between taking a slot and giving it back: a claim, an eviction or a read is not finished. */
  predicate InSlot(pc: Pc) {
    || pc.PushStore? || pc.PushPublish? || pc.PopLoad? || pc.PopClear? || pc.PopRelease?
    || pc.EvictClaim? || pc.EvictLoad? || pc.EvictAdvance? || pc.EvictStore? || pc.EvictPublish?
  }

  /** What a push knows about its position since it loaded readPos and writePos. */
  predicate Knows(c: Shared, pc: Pc) {
    match pc
    case PushSeq(_, _, w) => w < c.rp + c.cap
    case EvictSeq(_, r, w) => r + c.cap <= w
    case _ => true
  }

  lemma StepKnows(s: State, t: Tid, call: Call)
    requires Inv(s) && !PcOf(s, t).Done?
    ensures Knows(s.mem, Step(s.mem, PcOf(s, t), call).1)
  {
    hide NextHistory;
    BusyIsKnown(s, t);
  }

  lemma KnowsMore(c: Shared, d: Shared, pc: Pc)
    requires Knows(c, pc) && c.rp <= d.rp && c.cap == d.cap
    ensures Knows(d, pc)
  {
  }

  lemma EntryKnows(c: Shared, call: Call)
    ensures Knows(c, Entry(call))
  {
  }

  lemma {:induction false} RunKnows(cap: nat, run: seq<Turn>, t: Tid)
    requires 2 <= cap
    ensures Knows(Exec(cap, run).mem, PcOf(Exec(cap, run), t))
    decreases |run|
  {
    hide Next, Knows, Inv, Step, Entry;
    if run == [] {
      NothingKnown(cap, t);
    } else {
      var before, last := run[..|run| - 1], run[|run| - 1];
      var s, s' := Exec(cap, before), Exec(cap, run);
      RunKnows(cap, before, t);
      RunInv(cap, before);
      RunGrows(cap, before, [last]);
      assert before + [last] == run;
      NextPc(s, last.tid, last.call, t);
      if last.tid == t {
        if PcOf(s, t).Done? { EntryKnows(s.mem, last.call); } else { StepKnows(s, t, last.call); }
      }
      KnowsMore(s.mem, s'.mem, PcOf(s', t));
    }
  }

  lemma NothingKnown(cap: nat, t: Tid)
    requires 2 <= cap
    ensures Knows(Init(cap).mem, PcOf(Init(cap), t))
  {
  }

  /** A slot behind the position a push wants is in the hands of a thread. */
  lemma BehindIsHeld(s: State, i: nat)
    requires Inv(s) && i < s.mem.cap && !s.hist.phase[i].Free? && !s.hist.phase[i].Ready?
    ensures s.hist.phase[i].owner in s.pcs && InSlot(s.pcs[s.hist.phase[i].owner])
  {
    assert OwnerIs(s, i);
  }

  lemma PushSeqRefused(s: State, w: nat)
    requires Inv(s) && w <= s.mem.wp && w < s.mem.rp + s.mem.cap && s.mem.seqno[Lane(s.mem.cap, w)] < w
    ensures exists u :: u in s.pcs && InSlot(s.pcs[u])
  {
    var cap, i := s.mem.cap, Lane(s.mem.cap, w);
    assert SlotIs(s, i);
    var ph := s.hist.phase[i];
    if ph.Ready? {
      if w < ph.pos + cap { CongruentPositions(cap, ph.pos, w); }
    } else {
      BehindIsHeld(s, i);
    }
  }

  lemma EvictSeqRefused(s: State, r: nat, w: nat)
    requires Inv(s) && r <= s.mem.rp && r + s.mem.cap <= w <= s.mem.wp && s.mem.seqno[Lane(s.mem.cap, r)] <= r
    ensures exists u :: u in s.pcs && InSlot(s.pcs[u])
  {
    var i := Lane(s.mem.cap, r);
    assert SlotIs(s, i);
    BehindIsHeld(s, i);
  }

  /** A push that gives up at its load of writePos finds it a lap ahead of the readPos it loaded. */
  predicate LapAhead(c: Shared, pc: Pc) {
    pc.PushWritePos? && !pc.evict && c.wp >= pc.r + c.cap
  }

  /** The three places where a push gives up. */
  lemma RefusalPoint(c: Shared, pc: Pc, call: Call)
    requires Shaped(c) && !pc.Done? && Step(c, pc, call).1 == Done(Refused)
    ensures !InSlot(pc)
    ensures
      || LapAhead(c, pc) || (pc.PushSeq? && c.seqno[Lane(c.cap, pc.w)] < pc.w)
      || (pc.EvictSeq? && c.seqno[Lane(c.cap, pc.r)] <= pc.r)
  {
  }

  lemma RefusingStep(s: State, t: Tid, call: Call)
    requires Inv(s) && !PcOf(s, t).Done? && Step(s.mem, PcOf(s, t), call).1 == Done(Refused)
    requires Knows(s.mem, PcOf(s, t))
    ensures LapAhead(s.mem, PcOf(s, t)) || exists u :: u in s.pcs && InSlot(s.pcs[u])
    ensures !InSlot(PcOf(s, t))
  {
    RefusalPoint(s.mem, PcOf(s, t), call);
    BusyIsKnown(s, t);
    hide Step, Inv;
    match PcOf(s, t)
    case PushSeq(_, _, w) => PushSeqRefused(s, w);
    case EvictSeq(_, r, w) => EvictSeqRefused(s, r, w);
    case _ =>
  }

  /** The readPos a push works with was the ring's in one of its turns. */
  lemma {:induction false} ReadWasSeen(cap: nat, run: seq<Turn>, j: nat, i: nat, m: nat) returns (k: nat)
    requires IsCall(cap, run, j, i) && j < m <= i && PcOf(Exec(cap, run[..m]), run[i].tid).PushWritePos?
    ensures j <= k < m && PcOf(Exec(cap, run[..m]), run[i].tid).r == Exec(cap, run[..k]).mem.rp
    decreases m
  {
    hide Next, Step, Entry;
    var s, t := Exec(cap, run[..m - 1]), run[i].tid;
    assert run[..m][..m - 1] == run[..m - 1];
    NextPc(s, run[m - 1].tid, run[m - 1].call, t);
    k := m - 1;
    if m - 1 == j { EntersAtReadPos(run[j].call); }
    else if run[m - 1].tid == t { LoadsReadPos(s.mem, PcOf(s, t), run[m - 1].call); }
    else { k := ReadWasSeen(cap, run, j, i, m - 1); }
  }

  lemma EntersAtReadPos(call: Call)
    ensures !Entry(call).PushWritePos?
    ensures Entry(call) == Done(Refused) ==> call in {Push(None), PushDropOldest(None)}
  {
  }

  lemma LoadsReadPos(c: Shared, pc: Pc, call: Call)
    requires Shaped(c) && !pc.Done? && Step(c, pc, call).1.PushWritePos?
    ensures Step(c, pc, call).1.r == c.rp
  {
  }

  /**
   A push of an item is refused only while another goroutine is in the middle of a slot or, without eviction, when
   writePos is a whole lap ahead of what readPos was in one of its turns.
   */
  lemma RefusedWhy(cap: nat, run: seq<Turn>, j: nat, i: nat)
    requires IsCall(cap, run, j, i) && run[j].call !in {Push(None), PushDropOldest(None)}
    requires PcOf(Exec(cap, run[..i + 1]), run[i].tid) == Done(Refused)
    ensures var s := Exec(cap, run[..i]);
            || (exists u :: u != run[i].tid && u in s.pcs && InSlot(s.pcs[u]))
            || (run[j].call.Push? && exists k :: j <= k < i && s.mem.wp >= Exec(cap, run[..k]).mem.rp + cap)
  {
    hide Next, Step, Inv, Knows, Entry;
    var s, t := Exec(cap, run[..i]), run[i].tid;
    assert run[..i + 1][..i] == run[..i];
    NextPc(s, t, run[i].call, t);
    if i == j {
      EntersAtReadPos(run[j].call);
    } else {
      CallCarries(cap, run, j, i, i);
      RunInv(cap, run[..i]);
      RunKnows(cap, run[..i], t);
      RefusingStep(s, t, run[i].call);
      if LapAhead(s.mem, PcOf(s, t)) {
        var k := ReadWasSeen(cap, run, j, i, i);
        assert s.mem.wp >= Exec(cap, run[..k]).mem.rp + cap;
      }
    }
  }
}
