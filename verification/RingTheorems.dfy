/**
 What the ring buffer promises in every interleaving of its atomic steps: bounded
 positions, exclusive item cells, refinement of a bounded FIFO queue, exactly-once
 delivery of what was stored, and evictions that always put the new item in place.
 */
module RingTheorems {
  import opened RingMachine
  import opened RingInvariant
  import opened RingPreservation
  import opened RingRuns
  import opened Options

  // ---- Safety of every run ----

  /** The slot whose item cell a thread may touch: it has claimed a position and not stored the sequence number yet. */
  function OwnedSlot(cap: nat, pc: Pc): Option<nat>
    requires 0 < cap
  {
    match pc
    case PushStore(_, w) => Some(Lane(cap, w))
    case PushPublish(_, w) => Some(Lane(cap, w))
    case EvictLoad(_, r, _) => Some(Lane(cap, r))
    case EvictAdvance(_, r, _, _) => Some(Lane(cap, r))
    case EvictStore(_, r, _, _) => Some(Lane(cap, r))
    case EvictPublish(_, r, _, _) => Some(Lane(cap, r))
    case PopLoad(r) => Some(Lane(cap, r))
    case PopClear(r, _) => Some(Lane(cap, r))
    case PopRelease(r, _) => Some(Lane(cap, r))
    case _ => None
  }

  lemma OwnerRecorded(s: State, t: Tid)
    requires ThreadIs(s, t) && OwnedSlot(s.mem.cap, s.pcs[t]).Some?
    ensures var ph := s.hist.phase[OwnedSlot(s.mem.cap, s.pcs[t]).value];
            !ph.Free? && !ph.Ready? && ph.owner == t
  {
  }

  /** No two threads ever work on the same item cell, whatever the interleaving. */
  lemma CellsAreExclusive(cap: nat, run: seq<Turn>, t: Tid, u: Tid)
    requires 2 <= cap && t != u
    ensures var s := Exec(cap, run);
            OwnedSlot(cap, PcOf(s, t)).Some? && OwnedSlot(cap, PcOf(s, u)).Some?
            ==> OwnedSlot(cap, PcOf(s, t)) != OwnedSlot(cap, PcOf(s, u))
  {
    RunInv(cap, run);
    var s := Exec(cap, run);
    if OwnedSlot(cap, PcOf(s, t)).Some? && OwnedSlot(cap, PcOf(s, u)).Some? {
      assert ThreadIs(s, t) && ThreadIs(s, u);
      OwnerRecorded(s, t);
      OwnerRecorded(s, u);
    }
  }

  /** Sequence number q is legal for slot i when the positions are rp and wp: it belongs to one position of the slot. */
  ghost predicate LegalSeq(cap: nat, rp: nat, wp: nat, i: nat, q: nat)
    requires 0 < cap
  {
    exists p: nat :: Lane(cap, p) == i &&
      (if wp <= p then p < rp + cap && q == p                                  // free for the next lap
       else if rp <= p then q == p || q == p + 1 || q + cap == p               // queued
       else wp <= p + cap && (q == p || q == p + 1))                           // being read or evicted
  }

  /** The ring never holds more than its capacity, and every sequence number is legal for its lap. */
  lemma PositionsAndPhases(cap: nat, run: seq<Turn>)
    requires 2 <= cap
    ensures var c := Exec(cap, run).mem;
            && c.rp <= c.wp <= c.rp + cap
            && forall i: nat :: i < cap ==> LegalSeq(cap, c.rp, c.wp, i, c.seqno[i])
  {
    RunInv(cap, run);
    var s := Exec(cap, run);
    forall i: nat | i < cap ensures LegalSeq(cap, s.mem.rp, s.mem.wp, i, s.mem.seqno[i]) {
      assert SlotIs(s, i);
      var p := s.hist.phase[i].pos;
      assert Lane(cap, p) == i;
    }
  }

  // ---- Refinement of a bounded FIFO queue ----

  datatype QueueEvent = Stutter | Enqueue(item: Item) | Dequeue

  /** The abstract queue operation that a step of a thread at pc performs: only winning a position counts. */
  function EventOf(c: Shared, pc: Pc): QueueEvent {
    match pc
    case PushClaim(x, _, w) => if c.wp == w then Enqueue(x) else Stutter
    case EvictAdvance(x, _, _, _) => Enqueue(x)
    case EvictClaim(_, r, _) => if c.rp == r then Dequeue else Stutter
    case PopClaim(_, r) => if c.rp == r then Dequeue else Stutter
    case _ => Stutter
  }

  /** A bounded FIFO queue: append when there is room, remove the head when there is one. */
  predicate FifoStep(cap: nat, q: seq<Item>, e: QueueEvent, q': seq<Item>) {
    match e
    case Stutter => q' == q
    case Enqueue(x) => |q| < cap && q' == q + [x]
    case Dequeue => q != [] && q' == q[1..]
  }

  lemma PushRefines(s: State, t: Tid, call: Call)
    requires ThreadIs(s, t) && SlotIs(s, SlotAtHand(s, t)) && Pushing(s.pcs[t]) && Sized(Next(s, t, call))
    ensures FifoStep(s.mem.cap, Queue(s), EventOf(s.mem, s.pcs[t]), Queue(Next(s, t, call)))
  {
  }

  lemma VictimRefines(s: State, t: Tid, call: Call)
    requires ThreadIs(s, t) && SlotIs(s, SlotAtHand(s, t)) && SeekingVictim(s.pcs[t]) && Sized(Next(s, t, call))
    ensures FifoStep(s.mem.cap, Queue(s), EventOf(s.mem, s.pcs[t]), Queue(Next(s, t, call)))
  {
    hide PushStep, ReplaceStep, SeekStep, RemoveStep, PushHistory, ReplaceHistory, PopHistory;
    assert Next(s, t, call).hist.log == s.hist.log;
  }

  lemma ReplaceRefines(s: State, t: Tid, call: Call)
    requires ThreadIs(s, t) && SlotIs(s, SlotAtHand(s, t)) && Replacing(s.pcs[t]) && Sized(Next(s, t, call))
    ensures FifoStep(s.mem.cap, Queue(s), EventOf(s.mem, s.pcs[t]), Queue(Next(s, t, call)))
  {
    hide PushStep, VictimStep, SeekStep, RemoveStep, PushHistory, VictimHistory, PopHistory;
  }

  lemma SeekRefines(s: State, t: Tid, call: Call)
    requires ThreadIs(s, t) && SlotIs(s, SlotAtHand(s, t)) && SeekingItem(s.pcs[t]) && Sized(Next(s, t, call))
    ensures FifoStep(s.mem.cap, Queue(s), EventOf(s.mem, s.pcs[t]), Queue(Next(s, t, call)))
  {
  }

  lemma QuietRefines(s: State, t: Tid, call: Call)
    requires Sized(s) && (PcOf(s, t).Done? || Removing(PcOf(s, t))) && Sized(Next(s, t, call))
    ensures FifoStep(s.mem.cap, Queue(s), EventOf(s.mem, PcOf(s, t)), Queue(Next(s, t, call)))
  {
  }

  lemma StepRefines(s: State, t: Tid, call: Call)
    requires Inv(s) && Sized(Next(s, t, call))
    ensures FifoStep(s.mem.cap, Queue(s), EventOf(s.mem, PcOf(s, t)), Queue(Next(s, t, call)))
  {
    var pc := PcOf(s, t);
    if pc.Done? || Removing(pc) {
      QuietRefines(s, t, call);
    } else {
      assert ThreadIs(s, t) && SlotIs(s, SlotAtHand(s, t));
      if Pushing(pc) { PushRefines(s, t, call); }
      else if SeekingItem(pc) { SeekRefines(s, t, call); }
      else if SeekingVictim(pc) { VictimRefines(s, t, call); }
      else { ReplaceRefines(s, t, call); }
    }
  }

  /** Every step of every run is a step of the bounded FIFO queue. */
  lemma RefinesFifo(cap: nat, run: seq<Turn>, t: Tid, call: Call)
    requires 2 <= cap
    ensures var s := Exec(cap, run);
            var s' := Next(s, t, call);
            && Sized(s) && Sized(s')
            && FifoStep(cap, Queue(s), EventOf(s.mem, PcOf(s, t)), Queue(s'))
  {
    RunInv(cap, run);
    StepInv(Exec(cap, run), t, call);
    StepRefines(Exec(cap, run), t, call);
  }

  /** A pop that reports an empty ring at the writePos load was right at that instant. */
  lemma EmptyMeansEmpty(cap: nat, run: seq<Turn>, t: Tid)
    requires 2 <= cap
    ensures var s := Exec(cap, run);
            Sized(s) && (PcOf(s, t).PopWritePos? && s.mem.wp <= PcOf(s, t).r ==> Queue(s) == [])
  {
    RunInv(cap, run);
    var s := Exec(cap, run);
    if PcOf(s, t).PopWritePos? { assert ThreadIs(s, t); }
  }

  // ---- Delivery ----

  /** The item a thread is about to take for position r is the one its writer stored, and nobody took it before. */
  lemma DeliversOnce(cap: nat, run: seq<Turn>, t: Tid)
    requires 2 <= cap
    ensures var s := Exec(cap, run);
            PcOf(s, t).PopLoad? || PcOf(s, t).EvictLoad? ==>
              var r := PcOf(s, t).r;
              && r < s.mem.rp <= |s.hist.log|
              && r !in s.hist.delivered
              && s.mem.items[Lane(cap, r)] == Some(s.hist.log[r])
  {
    RunInv(cap, run);
    var s := Exec(cap, run);
    if t in s.pcs { assert ThreadIs(s, t); }
  }

  /** What a finished call says about a position. */
  function Claims(cap: nat, o: Outcome): set<(nat, Item)> {
    match o
    case Refused => {}
    case Nothing => {}
    case Accepted(p, x) => {(p, x)}
    case Replaced(p, x, y) => if cap <= p then {(p, x), (p - cap, y)} else {(p, x)}
    case Taken(p, x) => {(p, x)}
  }

  lemma ClaimsAreLogged(s: State, t: Tid, p: nat, x: Item)
    requires ThreadIs(s, t) && s.pcs[t].Done? && (p, x) in Claims(s.mem.cap, s.pcs[t].result)
    ensures p < |s.hist.log| && s.hist.log[p] == x
  {
  }

  /**
   Two finished calls of one run, at any two moments, that speak about the same position
   agree on its item: a pop or an eviction returns exactly what the push at that position stored.
   */
  lemma OutcomesAgree(cap: nat, run: seq<Turn>, more: seq<Turn>, t: Tid, u: Tid, p: nat, x: Item, y: Item)
    requires 2 <= cap
    requires var o := PcOf(Exec(cap, run), t); o.Done? && (p, x) in Claims(cap, o.result)
    requires var o := PcOf(Exec(cap, run + more), u); o.Done? && (p, y) in Claims(cap, o.result)
    ensures x == y
  {
    RunInv(cap, run);
    RunInv(cap, run + more);
    RunGrows(cap, run, more);
    assert ThreadIs(Exec(cap, run), t) && ThreadIs(Exec(cap, run + more), u);
    ClaimsAreLogged(Exec(cap, run), t, p, x);
    ClaimsAreLogged(Exec(cap, run + more), u, p, y);
  }

  // ---- Eviction ----

  /** An eviction starts only on a full ring, and its write position is then the next one. */
  lemma EvictsOnlyWhenFull(cap: nat, run: seq<Turn>, t: Tid)
    requires 2 <= cap
    ensures var s := Exec(cap, run);
            && Sized(s)
            && (PcOf(s, t).EvictClaim? && PcOf(s, t).r == s.mem.rp ==> |Queue(s)| == cap && PcOf(s, t).w == s.mem.wp)
  {
    RunInv(cap, run);
    var s := Exec(cap, run);
    if PcOf(s, t).EvictClaim? { assert ThreadIs(s, t); }
  }

  lemma OnlyEnqueuesAdvance(s: State, t: Tid, call: Call)
    requires Sized(s) && !EventOf(s.mem, PcOf(s, t)).Enqueue?
    ensures Next(s, t, call).mem.wp == s.mem.wp
  {
  }

  lemma SeatIsHeld(s: State, t: Tid, ph: Phase)
    requires ThreadIs(s, t) && SlotIs(s, SlotAtHand(s, t))
    requires ph.Evicting? && s.hist.phase[Lane(s.mem.cap, s.mem.wp)] == ph && ph.owner != t
    ensures !EventOf(s.mem, s.pcs[t]).Enqueue?
  {
    if s.pcs[t].EvictAdvance? { NextLap(s.mem.cap, s.pcs[t].r); }
  }

  lemma EvicterSeat(s: State, e: Tid)
    requires Sized(s) && ThreadIs(s, e) && SlotIs(s, SlotAtHand(s, e))
    requires s.pcs[e].EvictLoad? || s.pcs[e].EvictAdvance?
    ensures s.pcs[e].w == s.mem.wp == s.pcs[e].r + s.mem.cap
    ensures s.hist.phase[Lane(s.mem.cap, s.mem.wp)] == Evicting(s.pcs[e].r, e)
  {
    NextLap(s.mem.cap, s.pcs[e].r);
  }

  /**
   Once an evicter e has won readPos, no step of any other thread can take its write position:
   the new item always replaces the evicted one.
   */
  lemma EvicterKeepsItsSeat(cap: nat, run: seq<Turn>, e: Tid, t: Tid, call: Call)
    requires 2 <= cap && t != e
    requires var pc := PcOf(Exec(cap, run), e); pc.EvictLoad? || pc.EvictAdvance?
    ensures var s := Exec(cap, run);
            && PcOf(s, e).w == s.mem.wp == PcOf(s, e).r + cap
            && Next(s, t, call).mem.wp == s.mem.wp
            && PcOf(Next(s, t, call), e) == PcOf(s, e)
  {
    RunInv(cap, run);
    var s := Exec(cap, run);
    assert ThreadIs(s, e) && SlotIs(s, SlotAtHand(s, e));
    EvicterSeat(s, e);
    if t in s.pcs {
      assert ThreadIs(s, t) && SlotIs(s, SlotAtHand(s, t));
      SeatIsHeld(s, t, Evicting(s.pcs[e].r, e));
    }
    OnlyEnqueuesAdvance(s, t, call);
  }

  // ---- Quiescence ----

  /** When no call is in progress the counters give the length and every consumed item was delivered. */
  lemma QuietRing(cap: nat, run: seq<Turn>)
    requires 2 <= cap
    ensures var s := Exec(cap, run);
            (forall t :: t in s.pcs ==> s.pcs[t].Done?) ==>
              && Sized(s)
              && s.mem.added == s.mem.wp && s.mem.removed == s.mem.rp
              && |Queue(s)| == s.mem.added - s.mem.removed
              && (forall p: nat :: p < s.mem.rp ==> p in s.hist.delivered && s.hist.delivered[p] == s.hist.log[p])
  {
    RunInv(cap, run);
    var s := Exec(cap, run);
    if forall t :: t in s.pcs ==> s.pcs[t].Done? {
      assert s.hist.adding == {} && s.hist.removing == {};
      forall p: nat | p < s.mem.rp ensures p in s.hist.delivered {
        assert Consumed(s, p);
      }
    }
  }
}
