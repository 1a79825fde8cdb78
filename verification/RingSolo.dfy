/**
 A call that runs alone, from any state a run can leave other goroutines in: what it returns, exactly, and that only Pop
 can wait for somebody.
 */
module RingSolo {
  import opened RingMachine
  import opened RingInvariant
  import opened RingRuns
  import opened RingOnce
  import opened Options

  /** No call is in progress. */
  ghost predicate Quiet(s: State) {
    forall t :: t in s.pcs ==> s.pcs[t].Done?
  }

  // ---- who holds a slot ----

  /** Thread u took the position one lap before the next one to write and has not released its slot. */
  predicate HoldsNext(s: State, u: Tid) {
    u in s.pcs &&
    match s.pcs[u]
    case PopLoad(r) => r + s.mem.cap == s.mem.wp
    case PopClear(r, _) => r + s.mem.cap == s.mem.wp
    case PopRelease(r, _) => r + s.mem.cap == s.mem.wp
    case EvictLoad(_, r, _) => r + s.mem.cap == s.mem.wp
    case EvictAdvance(_, r, _, _) => r + s.mem.cap == s.mem.wp
    case _ => false
  }

  /** Thread u claimed the oldest position and has not published its item, or has marked it for eviction. */
  predicate HoldsOldest(s: State, u: Tid) {
    u in s.pcs &&
    match s.pcs[u]
    case PushStore(_, w) => w == s.mem.rp
    case PushPublish(_, w) => w == s.mem.rp
    case EvictStore(_, _, w, _) => w == s.mem.rp
    case EvictPublish(_, _, w, _) => w == s.mem.rp
    case EvictClaim(_, r, _) => r == s.mem.rp
    case _ => false
  }

  ghost predicate NextHeld(s: State) {
    exists u :: HoldsNext(s, u)
  }

  ghost predicate OldestHeld(s: State) {
    exists u :: HoldsOldest(s, u)
  }

  lemma HeldNextSlot(s: State, u: Tid)
    requires Inv(s) && HoldsNext(s, u)
    ensures s.mem.seqno[Lane(s.mem.cap, s.mem.wp)] < s.mem.wp
  {
    assert ThreadIs(s, u);
    NextLap(s.mem.cap, s.pcs[u].r);
    assert SlotIs(s, Lane(s.mem.cap, s.pcs[u].r));
  }

  /** With room left, the slot of the next position waits for it exactly when nobody holds it. */
  lemma NextSlot(s: State)
    requires Inv(s) && s.mem.wp < s.mem.rp + s.mem.cap
    ensures var q := s.mem.seqno[Lane(s.mem.cap, s.mem.wp)];
            if NextHeld(s) then q < s.mem.wp else q == s.mem.wp
  {
    var cap, wp := s.mem.cap, s.mem.wp;
    var i := Lane(cap, wp);
    if NextHeld(s) {
      var u :| HoldsNext(s, u);
      HeldNextSlot(s, u);
    } else {
      assert SlotIs(s, i) && OwnerIs(s, i);
      var ph := s.hist.phase[i];
      if ph.pos >= wp { CongruentPositions(cap, wp, ph.pos); }
      else if ph.pos + cap > wp { CongruentPositions(cap, ph.pos, wp); }
      else if ph.Reading? || ph.Evicting? { assert HoldsNext(s, ph.owner); }
    }
  }

  lemma HeldOldestSlot(s: State, u: Tid)
    requires Inv(s) && HoldsOldest(s, u)
    ensures s.mem.seqno[Lane(s.mem.cap, s.mem.rp)] <= s.mem.rp
  {
    assert ThreadIs(s, u);
    if s.pcs[u].EvictStore? || s.pcs[u].EvictPublish? { NextLap(s.mem.cap, s.pcs[u].r); }
    assert SlotIs(s, Lane(s.mem.cap, s.mem.rp));
  }

  /** The slot of the oldest position holds its published item exactly when nobody holds it. */
  lemma OldestSlot(s: State)
    requires Inv(s) && s.mem.rp < s.mem.wp
    ensures s.mem.rp < |s.hist.log|
    ensures var i := Lane(s.mem.cap, s.mem.rp);
            if OldestHeld(s) then s.mem.seqno[i] <= s.mem.rp
            else s.mem.seqno[i] == s.mem.rp + 1 && s.mem.items[i] == Some(s.hist.log[s.mem.rp])
  {
    var cap, rp := s.mem.cap, s.mem.rp;
    var i := Lane(cap, rp);
    if OldestHeld(s) {
      var u :| HoldsOldest(s, u);
      HeldOldestSlot(s, u);
    } else {
      assert SlotIs(s, i) && OwnerIs(s, i);
      var ph := s.hist.phase[i];
      if rp <= ph.pos < rp + cap { CongruentPositions(cap, rp, ph.pos); }
      else if ph.pos < rp && rp < ph.pos + cap { CongruentPositions(cap, ph.pos, rp); }
      if ph.Writing? || ph.Marked? || ph.Rewriting? { assert HoldsOldest(s, ph.owner); }
    }
  }

  // ---- a thread alone ----

  /** n steps of one thread bring it from pc to the end of its call, with this result and memory. */
  predicate EndsIn(c: Shared, pc: Pc, call: Call, n: nat, c': Shared, o: Outcome)
    requires Shaped(c)
    decreases n
  {
    && n > 0
    && var (d, next) := Step(c, pc, call);
       if n == 1 then d == c' && next == Done(o) else !next.Done? && EndsIn(d, next, call, n - 1, c', o)
  }

  lemma OneStepMore(c: Shared, pc: Pc, call: Call, d: Shared, next: Pc, n: nat, c': Shared, o: Outcome)
    requires Shaped(c) && Step(c, pc, call) == (d, next) && !next.Done? && EndsIn(d, next, call, n, c', o)
    ensures EndsIn(c, pc, call, n + 1, c', o)
  {
    hide Step;
  }

  lemma LastStep(c: Shared, pc: Pc, call: Call, c': Shared, o: Outcome)
    requires Shaped(c) && Step(c, pc, call) == (c', Done(o))
    ensures EndsIn(c, pc, call, 1, c', o)
  {
    hide Step;
  }

  /** pushAt from its claim on. */
  lemma PushSteps(c: Shared, call: Call, x: Item, e: bool) returns (c': Shared)
    requires Shaped(c) && c.seqno[Lane(c.cap, c.wp)] == c.wp
    ensures c'.wp == c.wp + 1 && c'.rp == c.rp && EndsIn(c, PushSeq(x, e, c.wp), call, 5, c', Accepted(c.wp, x))
  {
    hide EndsIn;
    var w := c.wp;
    var i := Lane(c.cap, w);
    var c1 := c.(wp := w + 1);
    var c2 := c1.(items := c1.items[i := Some(x)]);
    var c3 := c2.(seqno := c2.seqno[i := w + 1]);
    c' := c3.(added := c3.added + 1);
    LastStep(c3, PushAdded(x, w), call, c', Accepted(w, x));
    OneStepMore(c2, PushPublish(x, w), call, c3, PushAdded(x, w), 1, c', Accepted(w, x));
    OneStepMore(c1, PushStore(x, w), call, c2, PushPublish(x, w), 2, c', Accepted(w, x));
    OneStepMore(c, PushClaim(x, e, w), call, c1, PushStore(x, w), 3, c', Accepted(w, x));
    OneStepMore(c, PushSeq(x, e, w), call, c, PushClaim(x, e, w), 4, c', Accepted(w, x));
  }

  /** replaceOldest from its mark on. */
  lemma EvictSteps(c: Shared, call: Call, x: Item, y: Item) returns (c': Shared)
    requires Shaped(c) && c.wp == c.rp + c.cap
    requires c.seqno[Lane(c.cap, c.rp)] == c.rp + 1 && c.items[Lane(c.cap, c.rp)] == Some(y)
    ensures c'.wp == c.wp + 1 && c'.rp == c.rp + 1
    ensures EndsIn(c, EvictSeq(x, c.rp, c.wp), call, 9, c', Replaced(c.wp, x, y))
  {
    hide EndsIn;
    var r, w := c.rp, c.wp;
    var i := Lane(c.cap, r);
    var c1 := c.(seqno := c.seqno[i := r]);
    var c2 := c1.(rp := r + 1);
    var c3 := c2.(wp := w + 1);
    var c4 := c3.(items := c3.items[i := Some(x)]);
    var c5 := c4.(seqno := c4.seqno[i := w + 1]);
    var c6 := c5.(removed := c5.removed + 1);
    c' := c6.(added := c6.added + 1);
    var o := Replaced(w, x, y);
    LastStep(c6, EvictAdded(x, r, w, Some(y)), call, c', o);
    OneStepMore(c5, EvictRemoved(x, r, w, Some(y)), call, c6, EvictAdded(x, r, w, Some(y)), 1, c', o);
    OneStepMore(c4, EvictPublish(x, r, w, Some(y)), call, c5, EvictRemoved(x, r, w, Some(y)), 2, c', o);
    OneStepMore(c3, EvictStore(x, r, w, Some(y)), call, c4, EvictPublish(x, r, w, Some(y)), 3, c', o);
    OneStepMore(c2, EvictAdvance(x, r, w, Some(y)), call, c3, EvictStore(x, r, w, Some(y)), 4, c', o);
    OneStepMore(c2, EvictLoad(x, r, w), call, c2, EvictAdvance(x, r, w, Some(y)), 5, c', o);
    OneStepMore(c1, EvictClaim(x, r, w), call, c2, EvictLoad(x, r, w), 6, c', o);
    OneStepMore(c, EvictMark(x, r, w), call, c1, EvictClaim(x, r, w), 7, c', o);
    OneStepMore(c, EvictSeq(x, r, w), call, c, EvictMark(x, r, w), 8, c', o);
  }

  /** pop from its claim on. */
  lemma PopSteps(c: Shared, call: Call, wait: bool, y: Item) returns (c': Shared)
    requires Shaped(c)
    requires c.seqno[Lane(c.cap, c.rp)] == c.rp + 1 && c.items[Lane(c.cap, c.rp)] == Some(y)
    ensures c'.wp == c.wp && c'.rp == c.rp + 1 && EndsIn(c, PopSeq(wait, c.rp), call, 6, c', Taken(c.rp, y))
  {
    hide EndsIn;
    var r := c.rp;
    var i := Lane(c.cap, r);
    var c1 := c.(rp := r + 1);
    var c2 := c1.(items := c1.items[i := None]);
    var c3 := c2.(seqno := c2.seqno[i := r + c.cap]);
    c' := c3.(removed := c3.removed + 1);
    var o := Taken(r, y);
    LastStep(c3, PopRemoved(r, Some(y)), call, c', o);
    OneStepMore(c2, PopRelease(r, Some(y)), call, c3, PopRemoved(r, Some(y)), 1, c', o);
    OneStepMore(c1, PopClear(r, Some(y)), call, c2, PopRelease(r, Some(y)), 2, c', o);
    OneStepMore(c1, PopLoad(r), call, c1, PopClear(r, Some(y)), 3, c', o);
    OneStepMore(c, PopClaim(wait, r), call, c1, PopLoad(r), 4, c', o);
    OneStepMore(c, PopSeq(wait, r), call, c, PopClaim(wait, r), 5, c', o);
  }

  // ---- the result of a call ----

  /** What a call returns when nobody else moves; None when it waits. */
  ghost function Answer(s: State, call: Call): Option<Outcome>
    requires s.mem.rp <= s.mem.wp == |s.hist.log|
  {
    var q, full := Queue(s), s.mem.wp == s.mem.rp + s.mem.cap;
    match call
    case Push(None) => Some(Refused)
    case PushDropOldest(None) => Some(Refused)
    case Push(Some(x)) => Some(if full || NextHeld(s) then Refused else Accepted(s.mem.wp, x))
    case PushDropOldest(Some(x)) =>
      Some(if full && q != [] then if OldestHeld(s) then Refused else Replaced(s.mem.wp, x, q[0])
           else if NextHeld(s) then Refused else Accepted(s.mem.wp, x))
    case Pop => if q == [] then Some(Nothing) else if OldestHeld(s) then None else Some(Taken(s.mem.rp, q[0]))
    case TryPop => Some(if q == [] || OldestHeld(s) then Nothing else Taken(s.mem.rp, q[0]))
  }

  lemma PushStarts(c: Shared, pc: Pc, call: Call, x: Item, e: bool, n: nat, c': Shared, o: Outcome)
    requires Shaped(c) && call == (if e then PushDropOldest(Some(x)) else Push(Some(x))) && pc.Done?
    requires EndsIn(c, PushWritePos(x, e, c.rp), call, n, c', o)
    ensures EndsIn(c, pc, call, n + 2, c', o)
  {
    hide EndsIn;
    OneStepMore(c, PushReadPos(x, e), call, c, PushWritePos(x, e, c.rp), n, c', o);
    OneStepMore(c, pc, call, c, PushReadPos(x, e), n + 1, c', o);
  }

  lemma PopStarts(c: Shared, pc: Pc, call: Call, n: nat, c': Shared, o: Outcome)
    requires Shaped(c) && (call.Pop? || call.TryPop?) && pc.Done?
    requires EndsIn(c, PopWritePos(call.Pop?, c.rp), call, n, c', o)
    ensures EndsIn(c, pc, call, n + 2, c', o)
  {
    hide EndsIn;
    OneStepMore(c, PopReadPos(call.Pop?), call, c, PopWritePos(call.Pop?, c.rp), n, c', o);
    OneStepMore(c, pc, call, c, PopReadPos(call.Pop?), n + 1, c', o);
  }

  /** The choice at the load of writePos. */
  lemma PushChooses(c: Shared, call: Call, x: Item, e: bool)
    requires Shaped(c) && c.rp <= c.wp <= c.rp + c.cap
    ensures Step(c, PushWritePos(x, e, c.rp), call) ==
      (c, if c.wp < c.rp + c.cap then PushSeq(x, e, c.wp) else if e then EvictSeq(x, c.rp, c.wp) else Done(Refused))
  {
  }

  lemma PushAlone(s: State, call: Call, x: Item, e: bool, pc: Pc) returns (n: nat, c': Shared)
    requires Inv(s) && call == (if e then PushDropOldest(Some(x)) else Push(Some(x))) && pc.Done?
    ensures n <= 12 && Sized(s) && Answer(s, call).Some? && EndsIn(s.mem, pc, call, n, c', Answer(s, call).value)
  {
    hide Inv, EndsIn, Step, NextHeld, OldestHeld;
    InvIsSized(s);
    var c, o := s.mem, Answer(s, call).value;
    PushChooses(c, call, x, e);
    c' := c;
    if c.wp < c.rp + c.cap {
      NextSlot(s);
      if NextHeld(s) {
        PushRefused(c, call, x, e);
        n := 1;
      } else {
        c' := PushSteps(c, call, x, e);
        n := 5;
      }
      OneStepMore(c, PushWritePos(x, e, c.rp), call, c, PushSeq(x, e, c.wp), n, c', o);
      n := n + 1;
    } else if e {
      OldestSlot(s);
      if OldestHeld(s) {
        EvictRefused(c, call, x);
        n := 1;
      } else {
        c' := EvictSteps(c, call, x, s.hist.log[c.rp]);
        n := 9;
      }
      OneStepMore(c, PushWritePos(x, e, c.rp), call, c, EvictSeq(x, c.rp, c.wp), n, c', o);
      n := n + 1;
    } else {
      LastStep(c, PushWritePos(x, e, c.rp), call, c', o);
      n := 1;
    }
    PushStarts(c, pc, call, x, e, n, c', o);
    n := n + 2;
  }

  lemma PushRefused(c: Shared, call: Call, x: Item, e: bool)
    requires Shaped(c) && c.seqno[Lane(c.cap, c.wp)] < c.wp
    ensures EndsIn(c, PushSeq(x, e, c.wp), call, 1, c, Refused)
  {
    LastStep(c, PushSeq(x, e, c.wp), call, c, Refused);
  }

  lemma EvictRefused(c: Shared, call: Call, x: Item)
    requires Shaped(c) && c.seqno[Lane(c.cap, c.rp)] <= c.rp
    ensures EndsIn(c, EvictSeq(x, c.rp, c.wp), call, 1, c, Refused)
  {
    LastStep(c, EvictSeq(x, c.rp, c.wp), call, c, Refused);
  }

  lemma PopChooses(c: Shared, call: Call, wait: bool)
    requires Shaped(c)
    ensures Step(c, PopWritePos(wait, c.rp), call) == (c, if c.rp < c.wp then PopSeq(wait, c.rp) else Done(Nothing))
  {
  }

  lemma PopAlone(s: State, call: Call, pc: Pc) returns (n: nat, c': Shared)
    requires Inv(s) && (call.Pop? || call.TryPop?) && pc.Done?
    requires call.Pop? && s.mem.rp < s.mem.wp ==> !OldestHeld(s)
    ensures n <= 9 && Sized(s) && Answer(s, call).Some? && EndsIn(s.mem, pc, call, n, c', Answer(s, call).value)
  {
    hide Inv, EndsIn, Step, NextHeld, OldestHeld;
    InvIsSized(s);
    var c, o, wait := s.mem, Answer(s, call).value, call.Pop?;
    PopChooses(c, call, wait);
    c' := c;
    if c.rp < c.wp {
      OldestSlot(s);
      if OldestHeld(s) {
        PopRefused(c, call);
        n := 1;
      } else {
        c' := PopSteps(c, call, wait, s.hist.log[c.rp]);
        n := 6;
      }
      OneStepMore(c, PopWritePos(wait, c.rp), call, c, PopSeq(wait, c.rp), n, c', o);
      n := n + 1;
    } else {
      LastStep(c, PopWritePos(wait, c.rp), call, c', o);
      n := 1;
    }
    PopStarts(c, pc, call, n, c', o);
    n := n + 2;
  }

  lemma PopRefused(c: Shared, call: Call)
    requires Shaped(c) && c.seqno[Lane(c.cap, c.rp)] <= c.rp
    ensures EndsIn(c, PopSeq(false, c.rp), call, 1, c, Nothing)
  {
    LastStep(c, PopSeq(false, c.rp), call, c, Nothing);
  }

  lemma NilAlone(s: State, call: Call, pc: Pc)
    requires Sized(s) && pc.Done? && (call == Push(None) || call == PushDropOldest(None))
    ensures Answer(s, call) == Some(Refused) && EndsIn(s.mem, pc, call, 1, s.mem, Refused)
  {
    LastStep(s.mem, pc, call, s.mem, Refused);
  }

  // ---- the same as a run ----

  function Turns(t: Tid, call: Call, n: nat): seq<Turn> {
    if n == 0 then [] else [Turn(t, call)] + Turns(t, call, n - 1)
  }

  lemma TurnStep(cap: nat, run: seq<Turn>, t: Tid, call: Call)
    requires 2 <= cap
    ensures var s, s' := Exec(cap, run), Exec(cap, run + [Turn(t, call)]);
            (s'.mem, PcOf(s', t)) == Step(s.mem, PcOf(s, t), call)
  {
    hide Step, NextHistory;
    assert (run + [Turn(t, call)])[..|run + [Turn(t, call)]| - 1] == run;
  }

  lemma {:induction false} RunAlone(cap: nat, run: seq<Turn>, t: Tid, call: Call, n: nat, c': Shared, o: Outcome)
    requires 2 <= cap && EndsIn(Exec(cap, run).mem, PcOf(Exec(cap, run), t), call, n, c', o)
    ensures n > 0 && PcOf(Exec(cap, run + Turns(t, call, n)), t) == Done(o)
    ensures forall k :: 0 < k < n ==> !PcOf(Exec(cap, run + Turns(t, call, k)), t).Done?
    decreases n
  {
    hide Exec, Step;
    TurnStep(cap, run, t, call);
    var more := run + [Turn(t, call)];
    assert run + Turns(t, call, 1) == more;
    if n > 1 {
      RunAlone(cap, more, t, call, n - 1, c', o);
      forall k | 0 < k <= n ensures run + Turns(t, call, k) == more + Turns(t, call, k - 1) {
        assert Turns(t, call, k) == [Turn(t, call)] + Turns(t, call, k - 1);
      }
      forall k | 0 < k < n ensures !PcOf(Exec(cap, run + Turns(t, call, k)), t).Done? {
        if k > 1 { assert !PcOf(Exec(cap, more + Turns(t, call, k - 1)), t).Done?; }
        else { assert more + Turns(t, call, 0) == more; }
      }
    }
  }

  /** Pop at the three program points of its wait. */
  predicate Waiting(c: Shared, pc: Pc) {
    pc == PopReadPos(true) || pc == PopWritePos(true, c.rp) || pc == PopSeq(true, c.rp)
  }

  lemma WaitStep(c: Shared, pc: Pc, call: Call)
    requires Shaped(c) && c.rp < c.wp && c.seqno[Lane(c.cap, c.rp)] <= c.rp
    requires Waiting(c, pc) || (pc.Done? && call.Pop?)
    ensures Step(c, pc, call).0 == c && Waiting(c, Step(c, pc, call).1)
  {
  }

  lemma {:induction false} WaitsAlone(cap: nat, run: seq<Turn>, t: Tid, n: nat)
    requires 2 <= cap
    requires var s := Exec(cap, run);
             && s.mem.rp < s.mem.wp && s.mem.seqno[Lane(cap, s.mem.rp)] <= s.mem.rp
             && (PcOf(s, t).Done? || Waiting(s.mem, PcOf(s, t)))
    ensures n > 0 ==> !PcOf(Exec(cap, run + Turns(t, Pop, n)), t).Done?
    decreases n
  {
    hide Exec, Step;
    if n > 0 {
      var s := Exec(cap, run);
      TurnStep(cap, run, t, Pop);
      WaitStep(s.mem, PcOf(s, t), Pop);
      var more := run + [Turn(t, Pop)];
      WaitsAlone(cap, more, t, n - 1);
      assert run + Turns(t, Pop, n) == more + Turns(t, Pop, n - 1);
      if n == 1 { assert more + Turns(t, Pop, 0) == more; }
    }
  }

  /**
   A call that runs alone ends within twelve steps, wherever the others stopped, with the result that Answer states.
   Only Pop can wait: it does exactly while the writer of the oldest position has not published it, or an evicter has
   marked it.
   */
  lemma NeverWaits(cap: nat, run: seq<Turn>, t: Tid, call: Call) returns (n: nat)
    requires 2 <= cap && PcOf(Exec(cap, run), t).Done?
    ensures Sized(Exec(cap, run))
    ensures var s, o := Exec(cap, run), Answer(Exec(cap, run), call);
            && (o.None? <==> call.Pop? && s.mem.rp < s.mem.wp && OldestHeld(s))
            && (o.None? ==> forall k :: 0 < k ==> !PcOf(Exec(cap, run + Turns(t, call, k)), t).Done?)
            && (o.Some? ==>
                  && 0 < n <= 12 && PcOf(Exec(cap, run + Turns(t, call, n)), t) == Done(o.value)
                  && forall k :: 0 < k < n ==> !PcOf(Exec(cap, run + Turns(t, call, k)), t).Done?)
  {
    hide Exec, EndsIn, Inv, Step, NextHeld, OldestHeld;
    RunInv(cap, run);
    var s := Exec(cap, run);
    InvIsSized(s);
    var pc, c' := PcOf(s, t), s.mem;
    n := 1;
    if Answer(s, call).None? {
      OldestSlot(s);
      forall k: nat | 0 < k ensures !PcOf(Exec(cap, run + Turns(t, call, k)), t).Done? {
        WaitsAlone(cap, run, t, k);
      }
    } else {
      match call {
        case Push(None) => NilAlone(s, call, pc);
        case PushDropOldest(None) => NilAlone(s, call, pc);
        case Push(Some(x)) => n, c' := PushAlone(s, call, x, false, pc);
        case PushDropOldest(Some(x)) => n, c' := PushAlone(s, call, x, true, pc);
        case Pop => n, c' := PopAlone(s, call, pc);
        case TryPop => n, c' := PopAlone(s, call, pc);
      }
      RunAlone(cap, run, t, call, n, c', Answer(s, call).value);
    }
  }

  lemma QuietHoldsNothing(s: State)
    requires Quiet(s)
    ensures !NextHeld(s) && !OldestHeld(s)
  {
  }

  /**
   From a state in which no other call is in progress, a push is refused exactly for nil or, without eviction, on a full
   queue; a pop returns nothing exactly on an empty one; the item popped or evicted is the oldest, and the position
   reported is the next one.
   */
  lemma CallAlone(cap: nat, run: seq<Turn>, t: Tid, call: Call) returns (n: nat)
    requires 2 <= cap && Quiet(Exec(cap, run))
    ensures n > 0 && Sized(Exec(cap, run))
    ensures PcOf(Exec(cap, run + Turns(t, call, n)), t) == Done(QuietAnswer(Exec(cap, run), call))
    ensures forall k :: 0 < k < n ==> !PcOf(Exec(cap, run + Turns(t, call, k)), t).Done?
  {
    hide Exec, NextHeld, OldestHeld;
    n := NeverWaits(cap, run, t, call);
    QuietHoldsNothing(Exec(cap, run));
  }

  /** What a call returns on a queue that nobody else works on. */
  function QuietAnswer(s: State, call: Call): Outcome
    requires s.mem.rp <= s.mem.wp == |s.hist.log|
  {
    var q := Queue(s);
    match call
    case Push(None) => Refused
    case PushDropOldest(None) => Refused
    case Push(Some(x)) => if |q| == s.mem.cap then Refused else Accepted(s.mem.wp, x)
    case PushDropOldest(Some(x)) =>
      if |q| == s.mem.cap && q != [] then Replaced(s.mem.wp, x, q[0]) else Accepted(s.mem.wp, x)
    case Pop => if q == [] then Nothing else Taken(s.mem.rp, q[0])
    case TryPop => if q == [] then Nothing else Taken(s.mem.rp, q[0])
  }
}
