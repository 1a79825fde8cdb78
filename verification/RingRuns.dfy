/**
 The ring invariant holds after every interleaving of atomic steps.
 */
module RingRuns {
  import opened RingMachine
  import opened RingInvariant
  import opened RingPreservation

  lemma OwnerKeeps(pcs: map<Tid, Pc>, t: Tid, pc: Pc, ph: Phase)
    requires OwnerFits(pcs, ph) && (t in pcs ==> pcs[t].Done?)
    ensures OwnerFits(pcs[t := pc], ph)
  {
  }

  lemma EnterSlots(s: State, t: Tid, pc: Pc)
    requires Inv(s) && PcOf(s, t).Done?
    ensures var s' := s.(pcs := s.pcs[t := pc]);
            forall i: nat :: i < s.mem.cap ==> SlotIs(s', i) && OwnerIs(s', i)
  {
    var s' := s.(pcs := s.pcs[t := pc]);
    forall i: nat | i < s.mem.cap ensures SlotIs(s', i) && OwnerIs(s', i) {
      assert SlotIs(s, i) && OwnerIs(s, i);
      OwnerKeeps(s.pcs, t, pc, s.hist.phase[i]);
    }
  }

  lemma EnterConsumed(s: State, t: Tid, pc: Pc)
    requires Inv(s) && PcOf(s, t).Done?
    ensures var s' := s.(pcs := s.pcs[t := pc]);
            forall p: nat :: p < s.mem.rp ==> Consumed(s', p)
  {
    var s' := s.(pcs := s.pcs[t := pc]);
    forall p: nat | p < s.mem.rp ensures Consumed(s', p) {
      assert Consumed(s, p);
    }
  }

  lemma EnterThreads(s: State, t: Tid, pc: Pc)
    requires Inv(s) && (pc == Done(Refused) || pc.PushReadPos? || pc.PopReadPos?)
    ensures var s' := s.(pcs := s.pcs[t := pc]);
            forall u: Tid :: u in s'.pcs ==> ThreadIs(s', u)
  {
    forall u: Tid | u in s.pcs ensures ThreadIs(s, u) {
    }
  }

  lemma IdleStep(s: State, t: Tid, call: Call)
    requires Inv(s) && PcOf(s, t).Done?
    ensures Inv(Next(s, t, call))
  {
    assert Next(s, t, call) == s.(pcs := s.pcs[t := Entry(call)]);
    EnterSlots(s, t, Entry(call));
    EnterThreads(s, t, Entry(call));
    EnterConsumed(s, t, Entry(call));
  }

  lemma BusyGrows(s: State, t: Tid, call: Call)
    requires Inv(s) && !PcOf(s, t).Done?
    ensures Grows(s, Next(s, t, call)) && Sized(Next(s, t, call))
  {
    assert ThreadIs(s, t) && SlotIs(s, SlotAtHand(s, t));
    var pc := s.pcs[t];
    if Pushing(pc) { PushGrows(s, t, call); }
    else if SeekingVictim(pc) { VictimGrows(s, t, call); }
    else if Replacing(pc) { ReplaceGrows(s, t, call); }
    else if SeekingItem(pc) { SeekGrows(s, t, call); }
    else { RemoveGrows(s, t, call); }
  }

  lemma BusySelf(s: State, t: Tid, call: Call)
    requires Inv(s) && !PcOf(s, t).Done? && Sized(Next(s, t, call))
    ensures ThreadIs(Next(s, t, call), t)
  {
    assert ThreadIs(s, t) && SlotIs(s, SlotAtHand(s, t));
    var pc := s.pcs[t];
    if Pushing(pc) { PushSelf(s, t, call); }
    else if SeekingVictim(pc) { VictimSelf(s, t, call); }
    else if Replacing(pc) { ReplaceSelf(s, t, call); }
    else if SeekingItem(pc) { SeekSelf(s, t, call); }
    else { RemoveSelf(s, t, call); }
  }

  lemma BusyHand(s: State, t: Tid, call: Call)
    requires Inv(s) && !PcOf(s, t).Done? && Sized(Next(s, t, call))
    ensures SlotIs(Next(s, t, call), SlotAtHand(s, t)) && Guarantee(s, Next(s, t, call), t, SlotAtHand(s, t))
  {
    assert ThreadIs(s, t) && SlotIs(s, SlotAtHand(s, t));
    var pc := s.pcs[t];
    if Pushing(pc) { PushHand(s, t, call); }
    else if SeekingVictim(pc) { VictimHand(s, t, call); }
    else if Replacing(pc) { ReplaceHand(s, t, call); }
    else if SeekingItem(pc) { SeekHand(s, t, call); }
    else { RemoveHand(s, t, call); }
  }

  lemma BusyRest(s: State, t: Tid, call: Call, i: nat)
    requires Inv(s) && !PcOf(s, t).Done? && i < s.mem.cap && i != SlotAtHand(s, t)
    ensures Untouched(s, Next(s, t, call), i)
  {
    assert ThreadIs(s, t) && SlotIs(s, SlotAtHand(s, t)) && SlotIs(s, i);
    var pc := s.pcs[t];
    if Pushing(pc) { PushRest(s, t, call, i); }
    else if SeekingVictim(pc) { VictimRest(s, t, call, i); }
    else if Replacing(pc) { ReplaceRest(s, t, call, i); }
    else if SeekingItem(pc) { SeekRest(s, t, call, i); }
    else { RemoveRest(s, t, call, i); }
  }

  lemma BusySlot(s: State, t: Tid, call: Call, i: nat)
    requires Inv(s) && !PcOf(s, t).Done? && i < s.mem.cap
    requires Grows(s, Next(s, t, call)) && Sized(Next(s, t, call))
    ensures SlotIs(Next(s, t, call), i) && Guarantee(s, Next(s, t, call), t, i)
  {
    if i == SlotAtHand(s, t) {
      BusyHand(s, t, call);
    } else {
      BusyRest(s, t, call, i);
      assert SlotIs(s, i);
      UntouchedSlot(s, Next(s, t, call), i);
    }
  }

  lemma BusyOwner(s: State, t: Tid, call: Call, i: nat)
    requires Inv(s) && !PcOf(s, t).Done? && i < s.mem.cap
    ensures OwnerIs(Next(s, t, call), i)
  {
    assert ThreadIs(s, t) && SlotIs(s, SlotAtHand(s, t)) && SlotIs(s, i) && OwnerIs(s, i);
    var pc := s.pcs[t];
    if Pushing(pc) { PushOwner(s, t, call, i); }
    else if SeekingVictim(pc) { VictimOwner(s, t, call, i); }
    else if Replacing(pc) { ReplaceOwner(s, t, call, i); }
    else if SeekingItem(pc) { SeekOwner(s, t, call, i); }
    else { RemoveOwner(s, t, call, i); }
  }

  lemma BusyCounters(s: State, t: Tid, call: Call)
    requires Inv(s) && !PcOf(s, t).Done?
    ensures CountersOk(Next(s, t, call))
  {
    assert ThreadIs(s, t) && SlotIs(s, SlotAtHand(s, t));
    var pc := s.pcs[t];
    if Pushing(pc) { PushBooks(s, t, call); }
    else if SeekingVictim(pc) { VictimBooks(s, t, call); }
    else if Replacing(pc) { ReplaceBooks(s, t, call); }
    else if SeekingItem(pc) { SeekBooks(s, t, call); }
    else { RemoveBooks(s, t, call); }
    BooksKeepCounters(s, Next(s, t, call), t);
  }

  lemma BusyDeliveries(s: State, t: Tid, call: Call)
    requires Inv(s) && !PcOf(s, t).Done? && Grows(s, Next(s, t, call)) && Sized(Next(s, t, call))
    ensures DeliveriesOk(Next(s, t, call))
  {
    assert ThreadIs(s, t);
    var pc := s.pcs[t];
    if SeekingVictim(pc) { VictimDeliveries(s, t, call); }
    else if Removing(pc) { RemoveDeliveries(s, t, call); }
  }

  lemma BusyConsumed(s: State, t: Tid, call: Call, p: nat)
    requires Inv(s) && !PcOf(s, t).Done? && p < Next(s, t, call).mem.rp
    ensures Consumed(Next(s, t, call), p)
  {
    assert ThreadIs(s, t) && SlotIs(s, SlotAtHand(s, t)) && OwnerIs(s, Lane(s.mem.cap, p));
    var pc := s.pcs[t];
    if Pushing(pc) { PushConsumed(s, t, call, p); }
    else if SeekingVictim(pc) { VictimConsumed(s, t, call, p); }
    else if Replacing(pc) { ReplaceConsumed(s, t, call, p); }
    else if SeekingItem(pc) { SeekConsumed(s, t, call, p); }
    else { RemoveConsumed(s, t, call, p); }
  }

  lemma BusyStep(s: State, t: Tid, call: Call)
    requires Inv(s) && !PcOf(s, t).Done?
    ensures Inv(Next(s, t, call))
  {
    var s' := Next(s, t, call);
    BusyGrows(s, t, call);
    BusySelf(s, t, call);
    BusyCounters(s, t, call);
    BusyDeliveries(s, t, call);
    forall i: nat | i < s'.mem.cap ensures SlotIs(s', i) && OwnerIs(s', i) {
      BusySlot(s, t, call, i);
      BusyOwner(s, t, call, i);
    }
    forall p: nat | p < s'.mem.rp ensures Consumed(s', p) {
      BusyConsumed(s, t, call, p);
    }
    forall u: Tid | u in s'.pcs ensures ThreadIs(s', u) {
      if u != t {
        assert ThreadIs(s, u);
        BusySlot(s, t, call, SlotAtHand(s, u));
        ThreadOther(s, s', t, u);
      }
    }
  }

  lemma StepInv(s: State, t: Tid, call: Call)
    requires Inv(s)
    ensures Inv(Next(s, t, call)) && Grows(s, Next(s, t, call))
  {
    if PcOf(s, t).Done? {
      IdleStep(s, t, call);
    } else {
      BusyStep(s, t, call);
      BusyGrows(s, t, call);
    }
  }

  lemma {:induction false} RunInv(cap: nat, run: seq<Turn>)
    requires 2 <= cap
    ensures Inv(Exec(cap, run))
    decreases |run|
  {
    if run == [] {
      InitInv(cap);
    } else {
      var last := run[|run| - 1];
      RunInv(cap, run[..|run| - 1]);
      StepInv(Exec(cap, run[..|run| - 1]), last.tid, last.call);
    }
  }

  /** What was delivered for a position stays on record with its item. */
  predicate Remembers(s: State, s': State) {
    forall p :: p in s.hist.delivered ==> p in s'.hist.delivered && s'.hist.delivered[p] == s.hist.delivered[p]
  }

  lemma DeliveredStays(s: State, t: Tid, call: Call, p: nat)
    requires WellShaped(s) && p in s.hist.delivered
    ensures p in Next(s, t, call).hist.delivered
  {
  }

  /** A position is delivered with the item on its log entry, so a longer log changes nothing. */
  lemma StepRemembers(s: State, t: Tid, call: Call)
    requires Inv(s) && Inv(Next(s, t, call)) && Grows(s, Next(s, t, call))
    ensures Remembers(s, Next(s, t, call))
  {
    var s' := Next(s, t, call);
    assert DeliveriesOk(s) && DeliveriesOk(s');
    hide Inv, Next;
    forall p | p in s.hist.delivered ensures p in s'.hist.delivered && s'.hist.delivered[p] == s.hist.delivered[p] {
      DeliveredStays(s, t, call, p);
    }
  }

  /** The history of a longer run extends the history of its beginning, deliveries included. */
  lemma {:induction false} RunGrows(cap: nat, run: seq<Turn>, more: seq<Turn>)
    requires 2 <= cap
    ensures Grows(Exec(cap, run), Exec(cap, run + more)) && Remembers(Exec(cap, run), Exec(cap, run + more))
    decreases |more|
  {
    hide Inv;
    if more == [] {
      assert run + more == run;
    } else {
      var last := more[|more| - 1];
      var init := more[..|more| - 1];
      assert (run + more)[..|run + more| - 1] == run + init;
      RunGrows(cap, run, init);
      RunInv(cap, run + init);
      StepInv(Exec(cap, run + init), last.tid, last.call);
      StepRemembers(Exec(cap, run + init), last.tid, last.call);
    }
  }
}
