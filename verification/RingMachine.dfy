/**
 The lock-free ring buffer as a transition system. Every step of a thread is one
 atomic load, store or compare-and-swap of the Go code, so a run of this system is
 one interleaving of any number of Push, PushDropOldest, Pop and TryPop calls.

 Positions are naturals (the 64-bit counters never wrap here) and the slot of a
 position is `pos & mask`, which for a power of two is `pos % cap`.
 */
module RingMachine {
  import opened Options

  type Tid = nat
  type Item = nat

  /** How a call ended. Positions are recorded so that theorems can name them. */
  datatype Outcome =
    | Refused                                     // Push or PushDropOldest returned false
    | Accepted(pos: nat, item: Item)              // pushed without eviction
    | Replaced(pos: nat, item: Item, prev: Item)   // pushed; evicted the item of pos - cap
    | Nothing                                     // Pop or TryPop returned nil
    | Taken(pos: nat, item: Item)                 // popped

  /** The program counter of a thread, with the local variables live at that point. */
  datatype Pc =
    | Done(result: Outcome)
    | PushReadPos(item: Item, evict: bool)
    | PushWritePos(item: Item, evict: bool, r: nat)
    | PushSeq(item: Item, evict: bool, w: nat)
    | PushClaim(item: Item, evict: bool, w: nat)
    | PushStore(item: Item, w: nat)
    | PushPublish(item: Item, w: nat)
    | PushAdded(item: Item, w: nat)
    | EvictSeq(item: Item, r: nat, w: nat)
    | EvictMark(item: Item, r: nat, w: nat)
    | EvictClaim(item: Item, r: nat, w: nat)
    | EvictLoad(item: Item, r: nat, w: nat)
    | EvictAdvance(item: Item, r: nat, w: nat, prev: Option<Item>)
    | EvictStore(item: Item, r: nat, w: nat, prev: Option<Item>)
    | EvictPublish(item: Item, r: nat, w: nat, prev: Option<Item>)
    | EvictRemoved(item: Item, r: nat, w: nat, prev: Option<Item>)
    | EvictAdded(item: Item, r: nat, w: nat, prev: Option<Item>)
    | PopReadPos(wait: bool)
    | PopWritePos(wait: bool, r: nat)
    | PopSeq(wait: bool, r: nat)
    | PopClaim(wait: bool, r: nat)
    | PopLoad(r: nat)
    | PopClear(r: nat, got: Option<Item>)
    | PopRelease(r: nat, got: Option<Item>)
    | PopRemoved(r: nat, got: Option<Item>)

  /** What a thread that is not inside a call starts next; a nil item is refused at once. */
  datatype Call =
    | Push(item: Option<Item>)
    | PushDropOldest(item: Option<Item>)
    | Pop
    | TryPop

  /** The shared memory of the ring. `cap` never changes. */
  datatype Shared = Shared(
    cap: nat,
    wp: nat,
    rp: nat,
    seqno: seq<nat>,
    items: seq<Option<Item>>,
    added: nat,
    removed: nat)

  predicate Shaped(c: Shared) {
    2 <= c.cap && |c.seqno| == c.cap && |c.items| == c.cap
  }

  /** The slot of a position: `pos & mask`, that is `pos % cap` (see MaskIsLane and SlotIsRemainder). */
  function Lane(cap: nat, pos: nat): (i: nat)
    requires 0 < cap
    ensures i < cap
  {
    if pos < cap then pos else Lane(cap, pos - cap)
  }

  function Slot(c: Shared, pos: nat): (i: nat)
    requires Shaped(c)
  {
    Lane(c.cap, pos)
  }

  function Entry(call: Call): Pc {
    match call
    case Push(None) => Done(Refused)
    case PushDropOldest(None) => Done(Refused)
    case Push(Some(x)) => PushReadPos(x, false)
    case PushDropOldest(Some(x)) => PushReadPos(x, true)
    case Pop => PopReadPos(true)
    case TryPop => PopReadPos(false)
  }

  // The program points, grouped by the part of the code they belong to.

  predicate Pushing(pc: Pc) {
    pc.PushReadPos? || pc.PushWritePos? || pc.PushSeq? || pc.PushClaim? || pc.PushStore? || pc.PushPublish? ||
      pc.PushAdded?
  }

  predicate SeekingVictim(pc: Pc) {
    pc.EvictSeq? || pc.EvictMark? || pc.EvictClaim? || pc.EvictLoad?
  }

  predicate Replacing(pc: Pc) {
    pc.EvictAdvance? || pc.EvictStore? || pc.EvictPublish? || pc.EvictRemoved? || pc.EvictAdded?
  }

  predicate SeekingItem(pc: Pc) {
    pc.PopReadPos? || pc.PopWritePos? || pc.PopSeq? || pc.PopClaim?
  }

  predicate Removing(pc: Pc) {
    pc.PopLoad? || pc.PopClear? || pc.PopRelease? || pc.PopRemoved?
  }

  /** Push and PushDropOldest up to pushAt's counter. */
  function PushStep(c: Shared, pc: Pc): (Shared, Pc)
    requires Shaped(c) && Pushing(pc)
  {
    match pc
    case PushReadPos(x, e) => (c, PushWritePos(x, e, c.rp))
    case PushWritePos(x, e, r) =>
      if c.wp - r < c.cap then (c, PushSeq(x, e, c.wp))
      else if e then (c, EvictSeq(x, r, c.wp))
      else (c, Done(Refused))
    case PushSeq(x, e, w) =>
      var q := c.seqno[Slot(c, w)];
      if q < w then (c, Done(Refused))
      else if q == w then (c, PushClaim(x, e, w))
      else (c, PushReadPos(x, e))
    case PushClaim(x, e, w) =>
      if c.wp == w then (c.(wp := w + 1), PushStore(x, w)) else (c, PushReadPos(x, e))
    case PushStore(x, w) => (c.(items := c.items[Slot(c, w) := Some(x)]), PushPublish(x, w))
    case PushPublish(x, w) => (c.(seqno := c.seqno[Slot(c, w) := w + 1]), PushAdded(x, w))
    case PushAdded(x, w) => (c.(added := c.added + 1), Done(Accepted(w, x)))
  }

  /** replaceOldest up to reading the evicted item. */
  function VictimStep(c: Shared, pc: Pc): (Shared, Pc)
    requires Shaped(c) && SeekingVictim(pc)
  {
    match pc
    case EvictSeq(x, r, w) =>
      var q := c.seqno[Slot(c, r)];
      if q <= r then (c, Done(Refused))
      else if q != r + 1 || w != r + c.cap then (c, PushReadPos(x, true))
      else (c, EvictMark(x, r, w))
    case EvictMark(x, r, w) =>
      if c.seqno[Slot(c, r)] == r + 1 then (c.(seqno := c.seqno[Slot(c, r) := r]), EvictClaim(x, r, w))
      else (c, PushReadPos(x, true))
    case EvictClaim(x, r, w) =>
      if c.rp == r then (c.(rp := r + 1), EvictLoad(x, r, w)) else (c, PushReadPos(x, true))
    case EvictLoad(x, r, w) => (c, EvictAdvance(x, r, w, c.items[Slot(c, r)]))
  }

  /** The rest of replaceOldest: publish the new item in the evicted item's slot. */
  function ReplaceStep(c: Shared, pc: Pc): (Shared, Pc)
    requires Shaped(c) && Replacing(pc)
  {
    match pc
    case EvictAdvance(x, r, w, prev) => (c.(wp := w + 1), EvictStore(x, r, w, prev))
    case EvictStore(x, r, w, prev) =>
      (c.(items := c.items[Slot(c, r) := Some(x)]), EvictPublish(x, r, w, prev))
    case EvictPublish(x, r, w, prev) =>
      (c.(seqno := c.seqno[Slot(c, r) := w + 1]), EvictRemoved(x, r, w, prev))
    case EvictRemoved(x, r, w, prev) => (c.(removed := c.removed + 1), EvictAdded(x, r, w, prev))
    case EvictAdded(x, r, w, prev) =>
      (c.(added := c.added + 1),
       Done(if prev.Some? then Replaced(w, x, prev.value) else Accepted(w, x)))
  }

  /** pop up to its claim of readPos. */
  function SeekStep(c: Shared, pc: Pc): (Shared, Pc)
    requires Shaped(c) && SeekingItem(pc)
  {
    match pc
    case PopReadPos(b) => (c, PopWritePos(b, c.rp))
    case PopWritePos(b, r) => if r >= c.wp then (c, Done(Nothing)) else (c, PopSeq(b, r))
    case PopSeq(b, r) =>
      var q := c.seqno[Slot(c, r)];
      if q <= r then (c, if b then PopReadPos(b) else Done(Nothing))
      else if q == r + 1 then (c, PopClaim(b, r))
      else (c, PopReadPos(b))
    case PopClaim(b, r) =>
      if c.rp == r then (c.(rp := r + 1), PopLoad(r)) else (c, PopReadPos(b))
  }

  /** The rest of pop: read, clear and release the slot. */
  function RemoveStep(c: Shared, pc: Pc): (Shared, Pc)
    requires Shaped(c) && Removing(pc)
  {
    match pc
    case PopLoad(r) => (c, PopClear(r, c.items[Slot(c, r)]))
    case PopClear(r, g) => (c.(items := c.items[Slot(c, r) := None]), PopRelease(r, g))
    case PopRelease(r, g) => (c.(seqno := c.seqno[Slot(c, r) := r + c.cap]), PopRemoved(r, g))
    case PopRemoved(r, g) =>
      (c.(removed := c.removed + 1), Done(if g.Some? then Taken(r, g.value) else Nothing))
  }

  /** One atomic step of the code at `pc` on the shared memory; `call` is used only when idle. */
  function Step(c: Shared, pc: Pc, call: Call): (r: (Shared, Pc))
    requires Shaped(c)
    ensures Shaped(r.0) && r.0.cap == c.cap
  {
    if Pushing(pc) then PushStep(c, pc)
    else if SeekingVictim(pc) then VictimStep(c, pc)
    else if Replacing(pc) then ReplaceStep(c, pc)
    else if SeekingItem(pc) then SeekStep(c, pc)
    else if Removing(pc) then RemoveStep(c, pc)
    else (c, Entry(call))
  }

  /** Who may touch a slot, and the position of the lap the slot is in. */
  datatype Phase =
    | Free(pos: nat)                   // waits for the writer of pos
    | Writing(pos: nat, owner: Tid)       // its writer claimed pos and has not published
    | Ready(pos: nat)                  // holds the published item of pos
    | Marked(pos: nat, owner: Tid)        // an evicter unpublished it and has not claimed readPos yet
    | Reading(pos: nat, owner: Tid)       // its reader claimed pos and has not released
    | Evicting(pos: nat, owner: Tid)      // an evicter claimed pos and has not advanced writePos
    | Rewriting(pos: nat, owner: Tid)     // that evicter now owns pos as its writer

  /**
   Auxiliary history. No step of the code reads it: `Step` above has no access to it.
   `log[p]` is the item of the push that claimed position p.
   */
  datatype History = History(
    phase: seq<Phase>,
    log: seq<Item>,
    delivered: map<nat, Item>,
    adding: set<Tid>,
    removing: set<Tid>)

  datatype State = State(mem: Shared, hist: History, pcs: map<Tid, Pc>)

  function PcOf(s: State, t: Tid): Pc {
    if t in s.pcs then s.pcs[t] else Done(Nothing)
  }

  function Mark(h: History, i: nat, ph: Phase): (h': History)
    requires i < |h.phase|
  {
    h.(phase := h.phase[i := ph])
  }

  function Deliver(h: History, p: nat, it: Option<Item>): (h': History) {
    if it.Some? then h.(delivered := h.delivered[p := it.value]) else h
  }

  function PushHistory(c: Shared, h: History, t: Tid, pc: Pc): (h': History)
    requires Shaped(c) && |h.phase| == c.cap && Pushing(pc)
  {
    match pc
    case PushClaim(x, _, w) =>
      if c.wp == w then Mark(h, Slot(c, w), Writing(w, t)).(log := h.log + [x], adding := h.adding + {t}) else h
    case PushPublish(_, w) => Mark(h, Slot(c, w), Ready(w))
    case PushAdded(_, _) => h.(adding := h.adding - {t})
    case _ => h
  }

  function VictimHistory(c: Shared, h: History, t: Tid, pc: Pc): (h': History)
    requires Shaped(c) && |h.phase| == c.cap && SeekingVictim(pc)
  {
    match pc
    case EvictSeq(_, _, _) => h
    case EvictMark(_, r, _) =>
      if c.seqno[Slot(c, r)] == r + 1 && c.rp <= r then Mark(h, Slot(c, r), Marked(r, t)) else h
    case EvictClaim(_, r, _) =>
      if c.rp == r then Mark(h, Slot(c, r), Evicting(r, t)).(removing := h.removing + {t}) else h
    case EvictLoad(_, r, _) => Deliver(h, r, c.items[Slot(c, r)])
  }

  function ReplaceHistory(c: Shared, h: History, t: Tid, pc: Pc): (h': History)
    requires Shaped(c) && |h.phase| == c.cap && Replacing(pc)
  {
    match pc
    case EvictAdvance(x, r, w, _) =>
      Mark(h, Slot(c, r), Rewriting(w, t)).(log := h.log + [x], adding := h.adding + {t})
    case EvictStore(_, _, _, _) => h
    case EvictPublish(_, r, w, _) => Mark(h, Slot(c, r), Ready(w))
    case EvictRemoved(_, _, _, _) => h.(removing := h.removing - {t})
    case EvictAdded(_, _, _, _) => h.(adding := h.adding - {t})
  }

  function PopHistory(c: Shared, h: History, t: Tid, pc: Pc): (h': History)
    requires Shaped(c) && |h.phase| == c.cap && (SeekingItem(pc) || Removing(pc))
  {
    match pc
    case PopClaim(_, r) =>
      if c.rp == r then Mark(h, Slot(c, r), Reading(r, t)).(removing := h.removing + {t}) else h
    case PopLoad(r) => Deliver(h, r, c.items[Slot(c, r)])
    case PopRelease(r, _) => Mark(h, Slot(c, r), Free(r + c.cap))
    case PopRemoved(_, _) => h.(removing := h.removing - {t})
    case _ => h
  }

  function NextHistory(c: Shared, h: History, t: Tid, pc: Pc): (h': History)
    requires Shaped(c) && |h.phase| == c.cap
    ensures |h'.phase| == |h.phase|
  {
    if Pushing(pc) then PushHistory(c, h, t, pc)
    else if SeekingVictim(pc) then VictimHistory(c, h, t, pc)
    else if Replacing(pc) then ReplaceHistory(c, h, t, pc)
    else if SeekingItem(pc) || Removing(pc) then PopHistory(c, h, t, pc)
    else h
  }

  predicate WellShaped(s: State) {
    Shaped(s.mem) && |s.hist.phase| == s.mem.cap
  }

  /** Thread t takes its next atomic step. */
  function Next(s: State, t: Tid, call: Call): (s': State)
    requires WellShaped(s)
    ensures WellShaped(s') && s'.mem.cap == s.mem.cap
  {
    var (mem', pc') := Step(s.mem, PcOf(s, t), call);
    State(mem', NextHistory(s.mem, s.hist, t, PcOf(s, t)), s.pcs[t := pc'])
  }

  /** NewRingBuffer: slot i carries sequence number i. */
  function Init(cap: nat): (s: State)
    requires 2 <= cap
    ensures WellShaped(s)
  {
    State(
      Shared(cap, 0, 0, seq(cap, i => i), seq(cap, i => None), 0, 0),
      History(seq(cap, i requires 0 <= i => Free(i)), [], map[], {}, {}),
      map[])
  }

  datatype Turn = Turn(tid: Tid, call: Call)

  /** The state after an arbitrary interleaving. */
  function Exec(cap: nat, run: seq<Turn>): (s: State)
    requires 2 <= cap
    ensures WellShaped(s) && s.mem.cap == cap
    decreases |run|
  {
    if run == [] then Init(cap)
    else
      var last := run[|run| - 1];
      Next(Exec(cap, run[..|run| - 1]), last.tid, last.call)
  }

  /** The abstract queue: the items of the claimed positions that nobody consumed yet. */
  function Queue(s: State): (q: seq<Item>)
    requires s.mem.rp <= s.mem.wp == |s.hist.log|
  {
    s.hist.log[s.mem.rp..]
  }
}
