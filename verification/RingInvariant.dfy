/**
 The inductive invariant of the ring: each slot is in exactly one legal phase of its
 lap, and each thread between a claim and the matching sequence store owns its slot.
 */
module RingInvariant {
  import opened RingMachine
  import opened Options

  /** Sequence number q and phase ph of one slot agree with each other and with the two positions. */
  predicate SeqFits(cap: nat, rp: nat, wp: nat, q: nat, ph: Phase) {
    match ph
    case Free(p) => wp <= p < rp + cap && q == p
    case Writing(p, _) => rp <= p < wp && q == p
    case Ready(p) => rp <= p < wp && q == p + 1
    case Marked(p, _) => rp == p < wp && q == p
    case Reading(p, _) => p < rp && wp <= p + cap && (q == p || q == p + 1)
    case Evicting(p, _) => p < rp && wp == p + cap && q == p
    case Rewriting(p, _) => rp <= p < wp && q + cap == p
  }

  /** A published slot holds the item of its position. */
  predicate ContentFits(log: seq<Item>, it: Option<Item>, ph: Phase) {
    ph.Ready? || ph.Marked? ==> ph.pos < |log| && it == Some(log[ph.pos])
  }

  /** A slot in a transient phase is owned by a thread that is at the matching program point. */
  predicate OwnerFits(pcs: map<Tid, Pc>, ph: Phase) {
    match ph
    case Free(_) => true
    case Ready(_) => true
    case Writing(p, t) => t in pcs && (pcs[t].PushStore? || pcs[t].PushPublish?) && pcs[t].w == p
    case Marked(p, t) => t in pcs && pcs[t].EvictClaim? && pcs[t].r == p
    case Reading(p, t) => t in pcs && (pcs[t].PopLoad? || pcs[t].PopClear? || pcs[t].PopRelease?) && pcs[t].r == p
    case Evicting(p, t) => t in pcs && (pcs[t].EvictLoad? || pcs[t].EvictAdvance?) && pcs[t].r == p
    case Rewriting(p, t) => t in pcs && (pcs[t].EvictStore? || pcs[t].EvictPublish?) && pcs[t].w == p
  }

  /** Where a thread inside Push or PushDropOldest stands with respect to the slot at hand. */
  predicate PushOk(c: Shared, h: History, t: Tid, pc: Pc)
    requires Shaped(c) && |h.phase| == c.cap && |h.log| == c.wp && Pushing(pc)
  {
    match pc
    case PushReadPos(_, _) => true
    case PushWritePos(_, _, r) => r <= c.rp
    case PushSeq(_, _, w) => w <= c.wp
    case PushClaim(_, _, w) => w < c.wp || (w == c.wp && h.phase[Lane(c.cap, w)] == Free(w))
    case PushStore(x, w) => w < c.wp && h.phase[Lane(c.cap, w)] == Writing(w, t) && h.log[w] == x
    case PushPublish(x, w) =>
      w < c.wp && h.phase[Lane(c.cap, w)] == Writing(w, t) && h.log[w] == x && c.items[Lane(c.cap, w)] == Some(x)
    case PushAdded(x, w) => w < c.wp && h.log[w] == x
  }

  /** The same for replaceOldest. */
  predicate EvictOk(c: Shared, h: History, t: Tid, pc: Pc)
    requires Shaped(c) && |h.phase| == c.cap && |h.log| == c.wp && c.rp <= c.wp && (SeekingVictim(pc) || Replacing(pc))
  {
    match pc
    case EvictSeq(_, r, w) => r <= c.rp && w <= c.wp
    case EvictMark(_, r, w) => r <= c.rp && w <= c.wp && w == r + c.cap
    case EvictClaim(_, r, w) =>
      r <= c.rp && w <= c.wp && w == r + c.cap && (r == c.rp ==> h.phase[Lane(c.cap, r)] == Marked(r, t))
    case EvictLoad(_, r, w) =>
      r < c.rp && w == r + c.cap && h.phase[Lane(c.cap, r)] == Evicting(r, t) && r !in h.delivered
      && c.items[Lane(c.cap, r)] == Some(h.log[r])
    case EvictAdvance(_, r, w, prev) =>
      r < c.rp && w == r + c.cap && h.phase[Lane(c.cap, r)] == Evicting(r, t) && prev == Some(h.log[r])
    case EvictStore(x, r, w, prev) =>
      ReplacedOk(c, h, x, r, w, prev) && h.phase[Lane(c.cap, r)] == Rewriting(w, t)
    case EvictPublish(x, r, w, prev) =>
      ReplacedOk(c, h, x, r, w, prev) && h.phase[Lane(c.cap, r)] == Rewriting(w, t)
      && c.items[Lane(c.cap, r)] == Some(x)
    case EvictRemoved(x, r, w, prev) => ReplacedOk(c, h, x, r, w, prev)
    case EvictAdded(x, r, w, prev) => ReplacedOk(c, h, x, r, w, prev)
  }

  /** The same for pop. */
  predicate PopOk(c: Shared, h: History, t: Tid, pc: Pc)
    requires Shaped(c) && |h.phase| == c.cap && |h.log| == c.wp && c.rp <= c.wp && (SeekingItem(pc) || Removing(pc))
  {
    match pc
    case PopReadPos(_) => true
    case PopWritePos(_, r) => r <= c.rp
    case PopSeq(_, r) => r <= c.rp && r < c.wp
    case PopClaim(_, r) =>
      r < c.rp
      || (r == c.rp < c.wp && (h.phase[Lane(c.cap, r)].Ready? || h.phase[Lane(c.cap, r)].Marked?)
          && h.phase[Lane(c.cap, r)].pos == r)
    case PopLoad(r) =>
      r < c.rp && h.phase[Lane(c.cap, r)] == Reading(r, t) && r !in h.delivered
      && c.items[Lane(c.cap, r)] == Some(h.log[r])
    case PopClear(r, g) => r < c.rp && h.phase[Lane(c.cap, r)] == Reading(r, t) && g == Some(h.log[r])
    case PopRelease(r, g) => r < c.rp && h.phase[Lane(c.cap, r)] == Reading(r, t) && g == Some(h.log[r])
    case PopRemoved(r, g) => r < c.rp && g == Some(h.log[r])
  }

  predicate ThreadOk(c: Shared, h: History, t: Tid, pc: Pc)
    requires Shaped(c) && |h.phase| == c.cap && |h.log| == c.wp && c.rp <= c.wp
  {
    if Pushing(pc) then PushOk(c, h, t, pc)
    else if SeekingVictim(pc) || Replacing(pc) then EvictOk(c, h, t, pc)
    else if SeekingItem(pc) || Removing(pc) then PopOk(c, h, t, pc)
    else pc.Done? && OutcomeOk(c, h, pc.result)
  }

  /** The evicter took position r and put its own item x at position w, one lap later. */
  predicate ReplacedOk(c: Shared, h: History, x: Item, r: nat, w: nat, prev: Option<Item>)
    requires |h.log| == c.wp
  {
    w == r + c.cap && w < c.wp && r < c.rp && h.log[w] == x && prev == Some(h.log[r])
  }

  /** A finished call: a push that reported success owns a position, a pop got the item logged there. */
  predicate OutcomeOk(c: Shared, h: History, result: Outcome)
    requires |h.log| == c.wp && c.rp <= c.wp
  {
    match result
    case Refused => true
    case Nothing => true
    case Accepted(p, x) => p < c.wp && h.log[p] == x
    case Replaced(p, x, y) => c.cap <= p < c.wp && h.log[p] == x && p - c.cap < c.rp && h.log[p - c.cap] == y
    case Taken(p, x) => p < c.rp && h.log[p] == x
  }

  /** The log covers the claimed positions and the ring never holds more than a lap. */
  predicate Sized(s: State) {
    WellShaped(s) && |s.hist.log| == s.mem.wp && s.mem.rp <= s.mem.wp <= s.mem.rp + s.mem.cap
  }

  /** Slot i is in a legal phase of its lap. */
  predicate SlotIs(s: State, i: nat) {
    && Sized(s) && i < s.mem.cap
    && Lane(s.mem.cap, s.hist.phase[i].pos) == i
    && SeqFits(s.mem.cap, s.mem.rp, s.mem.wp, s.mem.seqno[i], s.hist.phase[i])
    && ContentFits(s.hist.log, s.mem.items[i], s.hist.phase[i])
  }

  /** Slot i, when transient, has a live owner. */
  predicate OwnerIs(s: State, i: nat) {
    WellShaped(s) && i < s.mem.cap && OwnerFits(s.pcs, s.hist.phase[i])
  }

  predicate ThreadIs(s: State, t: Tid) {
    Sized(s) && t in s.pcs && ThreadOk(s.mem, s.hist, t, s.pcs[t])
  }

  /** Everything delivered was delivered from a consumed position and is what its writer stored. */
  ghost predicate DeliveriesOk(s: State)
    requires |s.hist.log| == s.mem.wp && s.mem.rp <= s.mem.wp
  {
    forall p :: p in s.hist.delivered ==> p < s.mem.rp && s.hist.delivered[p] == s.hist.log[p]
  }

  /** The thread that claimed position p for reading has not looked into the slot yet. */
  predicate AboutToLoad(s: State, p: nat)
    requires WellShaped(s)
  {
    var ph := s.hist.phase[Lane(s.mem.cap, p)];
    (ph.Reading? || ph.Evicting?) && ph.pos == p && ph.owner in s.pcs
    && (s.pcs[ph.owner].PopLoad? || s.pcs[ph.owner].EvictLoad?)
  }

  /** A consumed position was delivered, or its consumer is just about to. */
  predicate Consumed(s: State, p: nat)
    requires WellShaped(s)
  {
    p in s.hist.delivered || AboutToLoad(s, p)
  }

  predicate OwesAdd(pc: Pc) {
    pc.PushStore? || pc.PushPublish? || pc.PushAdded?
    || pc.EvictStore? || pc.EvictPublish? || pc.EvictRemoved? || pc.EvictAdded?
  }

  predicate OwesRemove(pc: Pc) {
    pc.EvictLoad? || pc.EvictAdvance? || pc.EvictStore? || pc.EvictPublish? || pc.EvictRemoved?
    || pc.PopLoad? || pc.PopClear? || pc.PopRelease? || pc.PopRemoved?
  }

  /** The counters lag the positions by the threads that still have to bump them. */
  ghost predicate CountersOk(s: State) {
    && (forall t: Tid :: t in s.hist.adding <==> t in s.pcs && OwesAdd(s.pcs[t]))
    && (forall t: Tid :: t in s.hist.removing <==> t in s.pcs && OwesRemove(s.pcs[t]))
    && s.mem.added + |s.hist.adding| == s.mem.wp
    && s.mem.removed + |s.hist.removing| == s.mem.rp
  }

  ghost predicate Inv(s: State) {
    && Sized(s)
    && (forall i: nat :: i < s.mem.cap ==> SlotIs(s, i))
    && (forall i: nat :: i < s.mem.cap ==> OwnerIs(s, i))
    && (forall t: Tid :: t in s.pcs ==> ThreadIs(s, t))
    && (forall p: nat :: p < s.mem.rp ==> Consumed(s, p))
    && DeliveriesOk(s)
    && CountersOk(s)
  }

  lemma InitInv(cap: nat)
    requires 2 <= cap
    ensures Inv(Init(cap))
  {
  }

  lemma {:induction false} SlotIsRemainder(cap: nat, p: nat)
    requires 0 < cap
    ensures Lane(cap, p) == p % cap
  {
    if p < cap {
      SmallRemainder(cap, p, 0);
    } else {
      SlotIsRemainder(cap, p - cap);
      var k, m := (p - cap) / cap, (p - cap) % cap;
      assert (k + 1) * cap == k * cap + cap;
      assert p == (k + 1) * cap + m;
      SmallRemainder(cap, m, k + 1);
    }
  }

  lemma SmallRemainder(cap: nat, m: nat, k: nat)
    requires m < cap
    ensures (k * cap + m) % cap == m
  {
    var q := (k * cap + m) / cap;
    var d := k - q;
    assert d * cap == k * cap - q * cap;
    assert d >= 1 ==> d * cap >= cap;
    assert d <= -1 ==> d * cap <= -1 * cap;
  }

  lemma NextLap(cap: nat, p: nat)
    requires 0 < cap
    ensures Lane(cap, p + cap) == Lane(cap, p)
  {
  }

  /** Two positions of one slot that are less than a lap apart are the same position. */
  lemma {:induction false} CongruentPositions(cap: nat, p: nat, q: nat)
    requires 0 < cap && Lane(cap, p) == Lane(cap, q) && p <= q < p + cap
    ensures p == q
    decreases q
  {
    if cap <= p {
      CongruentPositions(cap, p - cap, q - cap);
    }
  }
}
