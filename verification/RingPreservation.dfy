/**
 Every atomic step of every thread keeps the ring invariant.
 */
module RingPreservation {
  import opened RingMachine
  import opened RingInvariant

  /** A slot whose sequence number is one past a position that was once the oldest is at that position. */
  lemma PublishedPosition(s: State, r: nat)
    requires Sized(s) && SlotIs(s, Lane(s.mem.cap, r)) && r <= s.mem.rp && s.mem.seqno[Lane(s.mem.cap, r)] == r + 1
    ensures var ph := s.hist.phase[Lane(s.mem.cap, r)];
            ph == Ready(r) || (ph.Reading? && ph.pos == r)
  {
    var p := s.hist.phase[Lane(s.mem.cap, r)].pos;
    NextLap(s.mem.cap, r);
    NextLap(s.mem.cap, r + 1);
    if p == r + 1 { CongruentPositions(s.mem.cap, r, p); }
    if p == r + 1 + s.mem.cap { CongruentPositions(s.mem.cap, r + s.mem.cap, p); }
  }

  /** A slot whose sequence number is the next position to be claimed is free for it. */
  lemma FreePosition(s: State)
    requires Sized(s) && SlotIs(s, Lane(s.mem.cap, s.mem.wp)) && s.mem.seqno[Lane(s.mem.cap, s.mem.wp)] == s.mem.wp
    ensures s.hist.phase[Lane(s.mem.cap, s.mem.wp)] == Free(s.mem.wp)
  {
    var p := s.hist.phase[Lane(s.mem.cap, s.mem.wp)].pos;
    if p + 1 == s.mem.wp { CongruentPositions(s.mem.cap, p, s.mem.wp); }
  }

  function SlotAtHand(s: State, t: Tid): (i: nat)
    requires Sized(s) && t in s.pcs
    ensures i < s.mem.cap
  {
    match s.pcs[t]
    case PushSeq(_, _, w) => Lane(s.mem.cap, w)
    case PushClaim(_, _, w) => Lane(s.mem.cap, w)
    case PushStore(_, w) => Lane(s.mem.cap, w)
    case PushPublish(_, w) => Lane(s.mem.cap, w)
    case EvictSeq(_, r, w) => Lane(s.mem.cap, r)
    case EvictMark(_, r, w) => Lane(s.mem.cap, r)
    case EvictClaim(_, r, w) => Lane(s.mem.cap, r)
    case EvictLoad(_, r, w) => Lane(s.mem.cap, r)
    case EvictAdvance(_, r, w, _) => Lane(s.mem.cap, r)
    case EvictStore(_, r, w, _) => Lane(s.mem.cap, r)
    case EvictPublish(_, r, w, _) => Lane(s.mem.cap, r)
    case PopSeq(_, r) => Lane(s.mem.cap, r)
    case PopClaim(_, r) => Lane(s.mem.cap, r)
    case PopLoad(r) => Lane(s.mem.cap, r)
    case PopClear(r, _) => Lane(s.mem.cap, r)
    case PopRelease(r, _) => Lane(s.mem.cap, r)
    case _ => 0
  }

  /** Positions only advance and the log is only extended. */
  predicate Grows(s: State, s': State) {
    s'.mem.cap == s.mem.cap && s.mem.rp <= s'.mem.rp && s.mem.wp <= s'.mem.wp && s.hist.log <= s'.hist.log
  }

  /** What a step of t may do to slot i, as far as any other thread can tell. */
  predicate Guarantee(s: State, s': State, t: Tid, i: nat)
    requires WellShaped(s) && WellShaped(s') && i < s.mem.cap == s'.mem.cap
  {
    var ph, ph' := s.hist.phase[i], s'.hist.phase[i];
    match ph
    case Free(p) => ph' == ph || p < s'.mem.wp
    case Ready(p) => ph' == ph || p < s'.mem.rp || (ph'.Marked? && ph'.pos == p)
    case Marked(p, _) => ph' == ph || p < s'.mem.rp
    case _ =>
      ph.owner == t
      || (ph' == ph && s'.mem.items[i] == s.mem.items[i] &&
        (ph.pos in s'.hist.delivered ==> ph.pos in s.hist.delivered))
  }

  /** A step that works on another slot leaves slot i alone and does not claim a position of it. */
  predicate Untouched(s: State, s': State, i: nat)
    requires WellShaped(s) && WellShaped(s') && i < s.mem.cap == s'.mem.cap
  {
    && s'.mem.seqno[i] == s.mem.seqno[i] && s'.mem.items[i] == s.mem.items[i] && s'.hist.phase[i] == s.hist.phase[i]
    && (s'.mem.wp == s.mem.wp || (s'.mem.wp == s.mem.wp + 1 && Lane(s.mem.cap, s.mem.wp) != i))
    && (s'.mem.rp == s.mem.rp || (s'.mem.rp == s.mem.rp + 1 && Lane(s.mem.cap, s.mem.rp) != i))
    && (s.hist.phase[i].pos in s'.hist.delivered ==> s.hist.phase[i].pos in s.hist.delivered)
  }

  lemma UntouchedSlot(s: State, s': State, i: nat)
    requires SlotIs(s, i) && Sized(s') && Grows(s, s') && Untouched(s, s', i)
    ensures SlotIs(s', i)
  {
    NextLap(s.mem.cap, s.hist.phase[i].pos);
  }

  function Owed(b: bool): int {
    if b then 1 else 0
  }

  /** A step of t settles or opens only the counter debts of t. */
  predicate Books(s: State, s': State, t: Tid)
    requires t in s.pcs && t in s'.pcs
  {
    && s'.hist.adding == (if OwesAdd(s'.pcs[t]) then s.hist.adding + {t} else s.hist.adding - {t})
    && s'.hist.removing == (if OwesRemove(s'.pcs[t]) then s.hist.removing + {t} else s.hist.removing - {t})
    && s'.mem.added + Owed(OwesAdd(s'.pcs[t])) - s'.mem.wp == s.mem.added + Owed(OwesAdd(s.pcs[t])) - s.mem.wp
    && s'.mem.removed + Owed(OwesRemove(s'.pcs[t])) - s'.mem.rp == s.mem.removed + Owed(OwesRemove(s.pcs[t])) - s.mem.rp
  }

  lemma ToggleSize(a: set<Tid>, t: Tid, b: bool)
    ensures |if b then a + {t} else a - {t}| == |a| + Owed(b) - Owed(t in a)
  {
    assert b && t in a ==> a + {t} == a;
    assert !b && t !in a ==> a - {t} == a;
  }

  lemma BooksKeepCounters(s: State, s': State, t: Tid)
    requires CountersOk(s) && t in s.pcs && s'.pcs == s.pcs[t := PcOf(s', t)] && Books(s, s', t)
    ensures CountersOk(s')
  {
    ToggleSize(s.hist.adding, t, OwesAdd(s'.pcs[t]));
    ToggleSize(s.hist.removing, t, OwesRemove(s'.pcs[t]));
  }

  lemma ThreadOther(s: State, s': State, t: Tid, u: Tid)
    requires ThreadIs(s, u) && t != u && Sized(s') && Grows(s, s') && u in s'.pcs && s'.pcs[u] == s.pcs[u]
    requires Guarantee(s, s', t, SlotAtHand(s, u))
    ensures ThreadIs(s', u)
  {
  }

  lemma PushGrows(s: State, t: Tid, call: Call)
    requires ThreadIs(s, t) && SlotIs(s, SlotAtHand(s, t)) && Pushing(s.pcs[t])
    ensures Grows(s, Next(s, t, call)) && Sized(Next(s, t, call))
  {
    hide VictimStep, ReplaceStep, SeekStep, RemoveStep, VictimHistory, ReplaceHistory, PopHistory;
  }

  lemma PushSelf(s: State, t: Tid, call: Call)
    requires ThreadIs(s, t) && SlotIs(s, SlotAtHand(s, t)) && Pushing(s.pcs[t]) && Sized(Next(s, t, call))
    ensures ThreadIs(Next(s, t, call), t)
  {
    hide VictimStep, ReplaceStep, SeekStep, RemoveStep, VictimHistory, ReplaceHistory, PopHistory;
    if s.pcs[t].PushSeq? && s.pcs[t].w == s.mem.wp && s.mem.seqno[SlotAtHand(s, t)] == s.mem.wp { FreePosition(s); }
  }

  lemma PushHand(s: State, t: Tid, call: Call)
    requires ThreadIs(s, t) && SlotIs(s, SlotAtHand(s, t)) && Pushing(s.pcs[t]) && Sized(Next(s, t, call))
    ensures SlotIs(Next(s, t, call), SlotAtHand(s, t)) && Guarantee(s, Next(s, t, call), t, SlotAtHand(s, t))
  {
    hide VictimStep, ReplaceStep, SeekStep, RemoveStep, VictimHistory, ReplaceHistory, PopHistory;
  }

  lemma PushRest(s: State, t: Tid, call: Call, i: nat)
    requires ThreadIs(s, t) && SlotIs(s, SlotAtHand(s, t)) && SlotIs(s, i) && i != SlotAtHand(s, t) && Pushing(s.pcs[t])
    ensures Untouched(s, Next(s, t, call), i)
  {
    hide VictimStep, ReplaceStep, SeekStep, RemoveStep, VictimHistory, ReplaceHistory, PopHistory;
    NextLap(s.mem.cap, s.hist.phase[SlotAtHand(s, t)].pos);
  }

  lemma VictimGrows(s: State, t: Tid, call: Call)
    requires ThreadIs(s, t) && SlotIs(s, SlotAtHand(s, t)) && SeekingVictim(s.pcs[t])
    ensures Grows(s, Next(s, t, call)) && Sized(Next(s, t, call))
  {
    hide PushStep, ReplaceStep, SeekStep, RemoveStep, PushHistory, ReplaceHistory, PopHistory;
  }

  lemma VictimSelf(s: State, t: Tid, call: Call)
    requires ThreadIs(s, t) && SlotIs(s, SlotAtHand(s, t))
    requires SeekingVictim(s.pcs[t]) && Sized(Next(s, t, call)) && DeliveriesOk(s)
    ensures ThreadIs(Next(s, t, call), t)
  {
    hide PushStep, ReplaceStep, SeekStep, RemoveStep, PushHistory, ReplaceHistory, PopHistory;
    if s.pcs[t].EvictMark? && s.mem.seqno[SlotAtHand(s, t)] == s.pcs[t].r + 1 { PublishedPosition(s, s.pcs[t].r); }
  }

  lemma VictimHand(s: State, t: Tid, call: Call)
    requires ThreadIs(s, t) && SlotIs(s, SlotAtHand(s, t)) && SeekingVictim(s.pcs[t]) && Sized(Next(s, t, call))
    ensures SlotIs(Next(s, t, call), SlotAtHand(s, t)) && Guarantee(s, Next(s, t, call), t, SlotAtHand(s, t))
  {
    hide PushStep, ReplaceStep, SeekStep, RemoveStep, PushHistory, ReplaceHistory, PopHistory;
    if s.pcs[t].EvictMark? && s.mem.seqno[SlotAtHand(s, t)] == s.pcs[t].r + 1 { PublishedPosition(s, s.pcs[t].r); }
  }

  lemma VictimRest(s: State, t: Tid, call: Call, i: nat)
    requires ThreadIs(s, t) && SlotIs(s, SlotAtHand(s, t)) && SlotIs(s, i)
    requires i != SlotAtHand(s, t) && SeekingVictim(s.pcs[t])
    ensures Untouched(s, Next(s, t, call), i)
  {
    hide PushStep, ReplaceStep, SeekStep, RemoveStep, PushHistory, ReplaceHistory, PopHistory;
    NextLap(s.mem.cap, s.hist.phase[SlotAtHand(s, t)].pos);
  }

  lemma ReplaceGrows(s: State, t: Tid, call: Call)
    requires ThreadIs(s, t) && SlotIs(s, SlotAtHand(s, t)) && Replacing(s.pcs[t])
    ensures Grows(s, Next(s, t, call)) && Sized(Next(s, t, call))
  {
    hide PushStep, VictimStep, SeekStep, RemoveStep, PushHistory, VictimHistory, PopHistory;
  }

  lemma ReplaceSelf(s: State, t: Tid, call: Call)
    requires ThreadIs(s, t) && SlotIs(s, SlotAtHand(s, t)) && Replacing(s.pcs[t]) && Sized(Next(s, t, call))
    ensures ThreadIs(Next(s, t, call), t)
  {
    hide PushStep, VictimStep, SeekStep, RemoveStep, PushHistory, VictimHistory, PopHistory;
  }

  lemma ReplaceHand(s: State, t: Tid, call: Call)
    requires ThreadIs(s, t) && SlotIs(s, SlotAtHand(s, t)) && Replacing(s.pcs[t]) && Sized(Next(s, t, call))
    ensures SlotIs(Next(s, t, call), SlotAtHand(s, t)) && Guarantee(s, Next(s, t, call), t, SlotAtHand(s, t))
  {
    hide PushStep, VictimStep, SeekStep, RemoveStep, PushHistory, VictimHistory, PopHistory;
    NextLap(s.mem.cap, s.hist.phase[SlotAtHand(s, t)].pos);
  }

  lemma ReplaceRest(s: State, t: Tid, call: Call, i: nat)
    requires ThreadIs(s, t) && SlotIs(s, SlotAtHand(s, t)) && SlotIs(s, i)
    requires i != SlotAtHand(s, t) && Replacing(s.pcs[t])
    ensures Untouched(s, Next(s, t, call), i)
  {
    hide PushStep, VictimStep, SeekStep, RemoveStep, PushHistory, VictimHistory, PopHistory;
    NextLap(s.mem.cap, s.hist.phase[SlotAtHand(s, t)].pos);
  }

  lemma SeekGrows(s: State, t: Tid, call: Call)
    requires ThreadIs(s, t) && SlotIs(s, SlotAtHand(s, t)) && SeekingItem(s.pcs[t])
    ensures Grows(s, Next(s, t, call)) && Sized(Next(s, t, call))
  {
    hide PushStep, VictimStep, ReplaceStep, RemoveStep, PushHistory, VictimHistory, ReplaceHistory;
  }

  lemma SeekSelf(s: State, t: Tid, call: Call)
    requires ThreadIs(s, t) && SlotIs(s, SlotAtHand(s, t))
    requires SeekingItem(s.pcs[t]) && Sized(Next(s, t, call)) && DeliveriesOk(s)
    ensures ThreadIs(Next(s, t, call), t)
  {
    hide PushStep, VictimStep, ReplaceStep, RemoveStep, PushHistory, VictimHistory, ReplaceHistory;
    if s.pcs[t].PopSeq? && s.mem.seqno[SlotAtHand(s, t)] == s.pcs[t].r + 1 { PublishedPosition(s, s.pcs[t].r); }
  }

  lemma SeekHand(s: State, t: Tid, call: Call)
    requires ThreadIs(s, t) && SlotIs(s, SlotAtHand(s, t)) && SeekingItem(s.pcs[t]) && Sized(Next(s, t, call))
    ensures SlotIs(Next(s, t, call), SlotAtHand(s, t)) && Guarantee(s, Next(s, t, call), t, SlotAtHand(s, t))
  {
    hide PushStep, VictimStep, ReplaceStep, RemoveStep, PushHistory, VictimHistory, ReplaceHistory;
  }

  lemma SeekRest(s: State, t: Tid, call: Call, i: nat)
    requires ThreadIs(s, t) && SlotIs(s, SlotAtHand(s, t)) && SlotIs(s, i)
    requires i != SlotAtHand(s, t) && SeekingItem(s.pcs[t])
    ensures Untouched(s, Next(s, t, call), i)
  {
    hide PushStep, VictimStep, ReplaceStep, RemoveStep, PushHistory, VictimHistory, ReplaceHistory;
    NextLap(s.mem.cap, s.hist.phase[SlotAtHand(s, t)].pos);
  }

  lemma RemoveGrows(s: State, t: Tid, call: Call)
    requires ThreadIs(s, t) && SlotIs(s, SlotAtHand(s, t)) && Removing(s.pcs[t])
    ensures Grows(s, Next(s, t, call)) && Sized(Next(s, t, call))
  {
    hide PushStep, VictimStep, ReplaceStep, SeekStep, PushHistory, VictimHistory, ReplaceHistory;
  }

  lemma RemoveSelf(s: State, t: Tid, call: Call)
    requires ThreadIs(s, t) && SlotIs(s, SlotAtHand(s, t)) && Removing(s.pcs[t]) && Sized(Next(s, t, call))
    ensures ThreadIs(Next(s, t, call), t)
  {
    hide PushStep, VictimStep, ReplaceStep, SeekStep, PushHistory, VictimHistory, ReplaceHistory;
  }

  lemma RemoveHand(s: State, t: Tid, call: Call)
    requires ThreadIs(s, t) && SlotIs(s, SlotAtHand(s, t)) && Removing(s.pcs[t]) && Sized(Next(s, t, call))
    ensures SlotIs(Next(s, t, call), SlotAtHand(s, t)) && Guarantee(s, Next(s, t, call), t, SlotAtHand(s, t))
  {
    hide PushStep, VictimStep, ReplaceStep, SeekStep, PushHistory, VictimHistory, ReplaceHistory;
    NextLap(s.mem.cap, s.hist.phase[SlotAtHand(s, t)].pos);
  }

  lemma RemoveRest(s: State, t: Tid, call: Call, i: nat)
    requires ThreadIs(s, t) && SlotIs(s, SlotAtHand(s, t)) && SlotIs(s, i)
    requires i != SlotAtHand(s, t) && Removing(s.pcs[t])
    ensures Untouched(s, Next(s, t, call), i)
  {
    hide PushStep, VictimStep, ReplaceStep, SeekStep, PushHistory, VictimHistory, ReplaceHistory;
    NextLap(s.mem.cap, s.hist.phase[SlotAtHand(s, t)].pos);
  }

  lemma PushOwner(s: State, t: Tid, call: Call, i: nat)
    requires ThreadIs(s, t) && SlotIs(s, SlotAtHand(s, t)) && SlotIs(s, i) && OwnerIs(s, i) && Pushing(s.pcs[t])
    ensures OwnerIs(Next(s, t, call), i)
  {
    hide VictimStep, ReplaceStep, SeekStep, RemoveStep, VictimHistory, ReplaceHistory, PopHistory;
  }

  lemma PushConsumed(s: State, t: Tid, call: Call, p: nat)
    requires ThreadIs(s, t) && SlotIs(s, SlotAtHand(s, t)) && Pushing(s.pcs[t]) && p < Next(s, t, call).mem.rp
    requires p < s.mem.rp ==> Consumed(s, p) && OwnerIs(s, Lane(s.mem.cap, p))
    ensures Consumed(Next(s, t, call), p)
  {
    hide VictimStep, ReplaceStep, SeekStep, RemoveStep, VictimHistory, ReplaceHistory, PopHistory;
  }

  lemma PushBooks(s: State, t: Tid, call: Call)
    requires ThreadIs(s, t) && SlotIs(s, SlotAtHand(s, t)) && Pushing(s.pcs[t])
    requires (t in s.hist.adding <==> OwesAdd(s.pcs[t])) && (t in s.hist.removing <==> OwesRemove(s.pcs[t]))
    ensures Books(s, Next(s, t, call), t)
  {
    hide VictimStep, ReplaceStep, SeekStep, RemoveStep, VictimHistory, ReplaceHistory, PopHistory;
  }

  lemma VictimOwner(s: State, t: Tid, call: Call, i: nat)
    requires ThreadIs(s, t) && SlotIs(s, SlotAtHand(s, t)) && SlotIs(s, i) && OwnerIs(s, i) && SeekingVictim(s.pcs[t])
    ensures OwnerIs(Next(s, t, call), i)
  {
    hide PushStep, ReplaceStep, SeekStep, RemoveStep, PushHistory, ReplaceHistory, PopHistory;
  }

  lemma VictimConsumed(s: State, t: Tid, call: Call, p: nat)
    requires ThreadIs(s, t) && SlotIs(s, SlotAtHand(s, t)) && SeekingVictim(s.pcs[t]) && p < Next(s, t, call).mem.rp
    requires p < s.mem.rp ==> Consumed(s, p) && OwnerIs(s, Lane(s.mem.cap, p))
    ensures Consumed(Next(s, t, call), p)
  {
    hide PushStep, ReplaceStep, SeekStep, RemoveStep, PushHistory, ReplaceHistory, PopHistory;
  }

  lemma VictimBooks(s: State, t: Tid, call: Call)
    requires ThreadIs(s, t) && SlotIs(s, SlotAtHand(s, t)) && SeekingVictim(s.pcs[t])
    requires (t in s.hist.adding <==> OwesAdd(s.pcs[t])) && (t in s.hist.removing <==> OwesRemove(s.pcs[t]))
    ensures Books(s, Next(s, t, call), t)
  {
    hide PushStep, ReplaceStep, SeekStep, RemoveStep, PushHistory, ReplaceHistory, PopHistory;
  }

  lemma VictimDeliveries(s: State, t: Tid, call: Call)
    requires ThreadIs(s, t) && DeliveriesOk(s) && SeekingVictim(s.pcs[t])
    requires Grows(s, Next(s, t, call)) && Sized(Next(s, t, call))
    ensures DeliveriesOk(Next(s, t, call))
  {
    hide PushStep, ReplaceStep, SeekStep, RemoveStep, PushHistory, ReplaceHistory, PopHistory;
  }

  lemma ReplaceOwner(s: State, t: Tid, call: Call, i: nat)
    requires ThreadIs(s, t) && SlotIs(s, SlotAtHand(s, t)) && SlotIs(s, i) && OwnerIs(s, i) && Replacing(s.pcs[t])
    ensures OwnerIs(Next(s, t, call), i)
  {
    hide PushStep, VictimStep, SeekStep, RemoveStep, PushHistory, VictimHistory, PopHistory;
  }

  lemma ReplaceConsumed(s: State, t: Tid, call: Call, p: nat)
    requires ThreadIs(s, t) && SlotIs(s, SlotAtHand(s, t)) && Replacing(s.pcs[t]) && p < Next(s, t, call).mem.rp
    requires p < s.mem.rp ==> Consumed(s, p) && OwnerIs(s, Lane(s.mem.cap, p))
    ensures Consumed(Next(s, t, call), p)
  {
    hide PushStep, VictimStep, SeekStep, RemoveStep, PushHistory, VictimHistory, PopHistory;
  }

  lemma ReplaceBooks(s: State, t: Tid, call: Call)
    requires ThreadIs(s, t) && SlotIs(s, SlotAtHand(s, t)) && Replacing(s.pcs[t])
    requires (t in s.hist.adding <==> OwesAdd(s.pcs[t])) && (t in s.hist.removing <==> OwesRemove(s.pcs[t]))
    ensures Books(s, Next(s, t, call), t)
  {
    hide PushStep, VictimStep, SeekStep, RemoveStep, PushHistory, VictimHistory, PopHistory;
  }

  lemma SeekOwner(s: State, t: Tid, call: Call, i: nat)
    requires ThreadIs(s, t) && SlotIs(s, SlotAtHand(s, t)) && SlotIs(s, i) && OwnerIs(s, i) && SeekingItem(s.pcs[t])
    ensures OwnerIs(Next(s, t, call), i)
  {
    hide PushStep, VictimStep, ReplaceStep, RemoveStep, PushHistory, VictimHistory, ReplaceHistory;
  }

  lemma SeekConsumed(s: State, t: Tid, call: Call, p: nat)
    requires ThreadIs(s, t) && SlotIs(s, SlotAtHand(s, t)) && SeekingItem(s.pcs[t]) && p < Next(s, t, call).mem.rp
    requires p < s.mem.rp ==> Consumed(s, p) && OwnerIs(s, Lane(s.mem.cap, p))
    ensures Consumed(Next(s, t, call), p)
  {
    hide PushStep, VictimStep, ReplaceStep, RemoveStep, PushHistory, VictimHistory, ReplaceHistory;
  }

  lemma SeekBooks(s: State, t: Tid, call: Call)
    requires ThreadIs(s, t) && SlotIs(s, SlotAtHand(s, t)) && SeekingItem(s.pcs[t])
    requires (t in s.hist.adding <==> OwesAdd(s.pcs[t])) && (t in s.hist.removing <==> OwesRemove(s.pcs[t]))
    ensures Books(s, Next(s, t, call), t)
  {
    hide PushStep, VictimStep, ReplaceStep, RemoveStep, PushHistory, VictimHistory, ReplaceHistory;
  }

  lemma RemoveOwner(s: State, t: Tid, call: Call, i: nat)
    requires ThreadIs(s, t) && SlotIs(s, SlotAtHand(s, t)) && SlotIs(s, i) && OwnerIs(s, i) && Removing(s.pcs[t])
    ensures OwnerIs(Next(s, t, call), i)
  {
    hide PushStep, VictimStep, ReplaceStep, SeekStep, PushHistory, VictimHistory, ReplaceHistory;
  }

  lemma RemoveConsumed(s: State, t: Tid, call: Call, p: nat)
    requires ThreadIs(s, t) && SlotIs(s, SlotAtHand(s, t)) && Removing(s.pcs[t]) && p < Next(s, t, call).mem.rp
    requires p < s.mem.rp ==> Consumed(s, p) && OwnerIs(s, Lane(s.mem.cap, p))
    ensures Consumed(Next(s, t, call), p)
  {
    hide PushStep, VictimStep, ReplaceStep, SeekStep, PushHistory, VictimHistory, ReplaceHistory;
  }

  lemma RemoveBooks(s: State, t: Tid, call: Call)
    requires ThreadIs(s, t) && SlotIs(s, SlotAtHand(s, t)) && Removing(s.pcs[t])
    requires (t in s.hist.adding <==> OwesAdd(s.pcs[t])) && (t in s.hist.removing <==> OwesRemove(s.pcs[t]))
    ensures Books(s, Next(s, t, call), t)
  {
    hide PushStep, VictimStep, ReplaceStep, SeekStep, PushHistory, VictimHistory, ReplaceHistory;
  }

  lemma RemoveDeliveries(s: State, t: Tid, call: Call)
    requires ThreadIs(s, t) && DeliveriesOk(s) && Removing(s.pcs[t])
    requires Grows(s, Next(s, t, call)) && Sized(Next(s, t, call))
    ensures DeliveriesOk(Next(s, t, call))
  {
    hide PushStep, VictimStep, ReplaceStep, SeekStep, PushHistory, VictimHistory, ReplaceHistory;
  }
}
