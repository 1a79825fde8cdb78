/**
 Flush and Shutdown as a transition system: producers that record under the close lock, the
 ring as a bounded FIFO queue of positions, workers with their batches and background exports,
 and any number of Flush or Shutdown calls that broadcast to all workers.
 */
module FlushMachine {
  import opened Options

  const DRAIN_CHUNK := 500

  type Pid = nat      // a goroutine inside Record
  type Wid = nat      // a worker
  type Cid = nat      // a Flush or Shutdown call

  /** Who took a position out of the ring. */
  datatype Owner = Evicted | By(worker: Wid)

  /**
   A finished export of one position: its worker, its result, flushGen when it ended, and the call it was made for.
   */
  datatype Export = Export(worker: Wid, ok: bool, gen: nat, cause: Option<Cid>)

  datatype WorkerPc =
    | Loop                                                                  // select, or popping a batch
    | Exporting                                                             // exportInBackground
    | Recording(ok: bool)                                                   // inFlight.record
    | Draining(call: Cid, base: nat, popped: nat, chunk: nat, errs: bool)   // inside PopBatch
    | DrainCheck(call: Cid, base: nat, popped: nat, errs: bool)             // the loop condition of drain
    | DrainExporting(call: Cid, base: nat, popped: nat, errs: bool)         // a full chunk
    | FinalExporting(call: Cid, errs: bool)                                 // the rest
    | Acking(call: Cid, errs: bool)
    | Exited

  /** `fail` is exportFailure: flushGen at the latest failed background export. */
  datatype Worker = Worker(pc: WorkerPc, batch: seq<nat>, fail: Option<nat>)

  /**
   `start` is writePos when the call took its generation; `dead` says its context has ended, and `aborted` that
   the call gave up on its context instead of waiting for all acknowledgements.
   */
  datatype Call = Call(
    gen: nat, stop: bool, start: nat, next: nat, acked: set<Wid>, failed: bool, dead: bool, aborted: bool,
    result: Option<bool>)

  datatype State = State(
    cap: nat, dropOldest: bool,
    wp: nat, rp: nat,
    closed: bool, active: set<Pid>,
    flushGen: nat,
    workers: seq<Worker>, calls: map<Cid, Call>, cancelled: bool,
    owner: seq<Owner>, exported: map<nat, Export>, dropped: set<nat>)

  datatype Step =
    | RecordEnter(pid: Pid) | RecordExit(pid: Pid)
    | Push(pid: Pid) | Evict(pid: Pid) | Close
    | Pop(w: Wid)
    | BeginExport(w: Wid) | EndExport(w: Wid, ok: bool) | RecordOutcome(w: Wid)
    | Receive(w: Wid, c: Cid) | EndBatch(w: Wid) | Check(w: Wid)
    | EndDrainExport(w: Wid, ok: bool) | EndFinalExport(w: Wid, ok: bool) | Ack(w: Wid)
    | Begin(c: Cid, stop: bool) | Return(c: Cid) | ContextEnds(c: Cid) | Abort(c: Cid)
    | Cancel(c: Cid) | Drop(w: Wid)

  function CallOf(pc: WorkerPc): Option<Cid> {
    match pc
    case Draining(c, _, _, _, _) => Some(c)
    case DrainCheck(c, _, _, _) => Some(c)
    case DrainExporting(c, _, _, _) => Some(c)
    case FinalExporting(c, _) => Some(c)
    case Acking(c, _) => Some(c)
    case _ => None
  }

  /** A call the worker works for is known. */
  predicate Serves(s: State, w: Wid) {
    w < |s.workers| && CallOf(s.workers[w].pc).Some? && CallOf(s.workers[w].pc).value in s.calls
  }

  predicate Enabled(s: State, step: Step) {
    match step
    // Record holds closeMu for reading from its shutdown check to its return
    case RecordEnter(p) => !s.closed && p !in s.active
    case RecordExit(p) => p in s.active
    case Push(p) => p in s.active && s.wp < s.rp + s.cap
    case Evict(p) => p in s.active && s.dropOldest && s.wp == s.rp + s.cap && s.rp < s.wp
    case Close => s.active == {}
    case Pop(w) =>
      w < |s.workers| && s.rp < s.wp
      && (s.workers[w].pc.Loop? || (s.workers[w].pc.Draining? && s.workers[w].pc.chunk < DRAIN_CHUNK))
    // a background export may also carry only drop counters, or repeat the idle state
    case BeginExport(w) => w < |s.workers| && s.workers[w].pc.Loop?
    case EndExport(w, _) => w < |s.workers| && s.workers[w].pc.Exporting?
    case RecordOutcome(w) => w < |s.workers| && s.workers[w].pc.Recording?
    case Receive(w, c) =>
      w < |s.workers| && s.workers[w].pc.Loop? && c in s.calls && s.calls[c].next == w && s.calls[c].result.None?
    case EndBatch(w) =>
      w < |s.workers| && s.workers[w].pc.Draining? && (s.workers[w].pc.chunk == DRAIN_CHUNK || s.rp == s.wp)
    case Check(w) => w < |s.workers| && s.workers[w].pc.DrainCheck? && Serves(s, w)
    case EndDrainExport(w, _) => w < |s.workers| && s.workers[w].pc.DrainExporting?
    case EndFinalExport(w, _) => w < |s.workers| && s.workers[w].pc.FinalExporting?
    case Ack(w) => w < |s.workers| && s.workers[w].pc.Acking? && Serves(s, w)
    case Begin(c, stop) => c !in s.calls && (stop ==> s.closed)
    case Return(c) =>
      c in s.calls && s.calls[c].result.None? && forall w: Wid :: w < |s.workers| ==> w in s.calls[c].acked
    case ContextEnds(c) => c in s.calls
    case Abort(c) => c in s.calls && s.calls[c].result.None? && (s.calls[c].dead || s.cancelled)
    case Cancel(c) => c in s.calls && s.calls[c].stop && s.calls[c].result.Some?
    case Drop(w) => w < |s.workers| && s.workers[w].pc.Loop? && s.cancelled
  }

  function SetWorker(s: State, w: Wid, x: Worker): State
    requires w < |s.workers|
  {
    s.(workers := s.workers[w := x])
  }

  function SetCall(s: State, c: Cid, x: Call): State {
    s.(calls := s.calls[c := x])
  }

  /** Every position of the batch has now been handed to all exporters. */
  function ExportBatch(exported: map<nat, Export>, batch: seq<nat>, e: Export): (r: map<nat, Export>)
    ensures forall p :: p in r <==> p in exported || p in batch
    ensures forall p :: p in batch ==> p in r && r[p] == e
    ensures forall p :: p in exported && p !in batch ==> p in r && r[p] == exported[p]
  {
    exported + map p | p in batch :: e
  }

  function RingStep(s: State, step: Step): State
    requires Enabled(s, step) && (step.RecordEnter? || step.RecordExit? || step.Push? || step.Evict? || step.Close?)
  {
    match step
    case RecordEnter(p) => s.(active := s.active + {p})
    case RecordExit(p) => s.(active := s.active - {p})
    case Push(_) => s.(wp := s.wp + 1)
    case Evict(_) => s.(rp := s.rp + 1, owner := s.owner + [Evicted])
    case Close => s.(closed := true)
  }

  function BackgroundStep(s: State, step: Step): State
    requires Enabled(s, step)
    requires step.Pop? || step.BeginExport? || step.EndExport? || step.RecordOutcome? || step.Drop?
  {
    var w := step.w;
    var x := s.workers[w];
    match step
    case Pop(_) =>
      var pc := if x.pc.Draining? then x.pc.(chunk := x.pc.chunk + 1) else x.pc;
      SetWorker(s, w, x.(batch := x.batch + [s.rp], pc := pc)).(rp := s.rp + 1, owner := s.owner + [By(w)])
    case BeginExport(_) => SetWorker(s, w, x.(pc := Exporting))
    case EndExport(_, ok) =>
      SetWorker(s, w, x.(pc := Recording(ok), batch := []))
        .(exported := ExportBatch(s.exported, x.batch, Export(w, ok, s.flushGen, None)))
    case RecordOutcome(_) =>
      SetWorker(s, w, x.(pc := Loop, fail := if x.pc.ok then x.fail else Some(s.flushGen)))
    case Drop(_) =>
      SetWorker(s, w, x.(pc := Exited, batch := [])).(dropped := s.dropped + set p | p in x.batch)
  }

  /** exportFailure.since: the latest failed background export ended after generation gen was taken. */
  predicate Since(fail: Option<nat>, gen: nat) {
    fail.Some? && fail.value >= gen
  }

  /** A worker takes a flush request and pops the ring. */
  function DrainStep(s: State, step: Step): State
    requires Enabled(s, step) && IsDrain(step)
  {
    var w := step.w;
    var x := s.workers[w];
    match step
    case Receive(_, c) =>
      SetCall(SetWorker(s, w, x.(pc := DrainCheck(c, s.rp, 0, Since(x.fail, s.calls[c].gen)))),
        c, s.calls[c].(next := w + 1))
    case EndBatch(_) =>
      var d := x.pc;
      var pc :=
        if d.chunk == 0 then FinalExporting(d.call, d.errs)
        else if |x.batch| >= DRAIN_CHUNK then DrainExporting(d.call, d.base, d.popped + d.chunk, d.errs)
        else DrainCheck(d.call, d.base, d.popped + d.chunk, d.errs);
      SetWorker(s, w, x.(pc := pc))
    case Check(_) =>
      var d := x.pc;
      SetWorker(s, w, x.(pc :=
        if d.popped < s.cap && !s.calls[d.call].dead then Draining(d.call, d.base, d.popped, 0, d.errs)
        else FinalExporting(d.call, d.errs)))
  }

  /** A worker exports what it drained and acknowledges. */
  function SettleStep(s: State, step: Step): State
    requires Enabled(s, step) && IsSettle(step)
  {
    var w := step.w;
    var x := s.workers[w];
    match step
    case EndDrainExport(_, ok) =>
      var d := x.pc;
      SetWorker(s, w, x.(pc := DrainCheck(d.call, d.base, d.popped, d.errs || !ok), batch := []))
        .(exported := ExportBatch(s.exported, x.batch, Export(w, ok, s.flushGen, Some(d.call))))
    case EndFinalExport(_, ok) =>
      var d := x.pc;
      SetWorker(s, w, x.(pc := Acking(d.call, d.errs || !ok), batch := []))
        .(exported := ExportBatch(s.exported, x.batch, Export(w, ok, s.flushGen, Some(d.call))))
    case Ack(_) =>
      var d := x.pc;
      var k := s.calls[d.call];
      SetCall(SetWorker(s, w, x.(pc := if k.stop then Exited else Loop)),
        d.call, k.(acked := k.acked + {w}, failed := k.failed || d.errs))
  }

  function CallStep(s: State, step: Step): State
    requires Enabled(s, step)
    requires step.Begin? || step.Return? || step.ContextEnds? || step.Abort? || step.Cancel?
  {
    match step
    case Begin(c, stop) =>
      SetCall(s, c, Call(s.flushGen + 1, stop, s.wp, 0, {}, false, false, false, None)).(flushGen := s.flushGen + 1)
    case Return(c) => SetCall(s, c, s.calls[c].(result := Some(!s.calls[c].failed)))
    case ContextEnds(c) => SetCall(s, c, s.calls[c].(dead := true))
    case Abort(c) => SetCall(s, c, s.calls[c].(aborted := true, result := Some(false)))
    case Cancel(_) => s.(cancelled := true)
  }

  predicate IsRing(step: Step) {
    step.RecordEnter? || step.RecordExit? || step.Push? || step.Evict? || step.Close?
  }

  predicate IsBackground(step: Step) {
    step.Pop? || step.BeginExport? || step.EndExport? || step.RecordOutcome? || step.Drop?
  }

  predicate IsDrain(step: Step) {
    step.Receive? || step.EndBatch? || step.Check?
  }

  predicate IsSettle(step: Step) {
    step.EndDrainExport? || step.EndFinalExport? || step.Ack?
  }

  /** One step; a step that is not possible leaves the state alone. */
  function Next(s: State, step: Step): State {
    if !Enabled(s, step) then s
    else if IsRing(step) then RingStep(s, step)
    else if IsBackground(step) then BackgroundStep(s, step)
    else if IsDrain(step) then DrainStep(s, step)
    else if IsSettle(step) then SettleStep(s, step)
    else CallStep(s, step)
  }

  function Init(cap: nat, dropOldest: bool, workers: nat): State {
    State(cap, dropOldest, 0, 0, false, {}, 0, seq(workers, i => Worker(Loop, [], None)), map[], false, [], map[], {})
  }

  function Exec(cap: nat, dropOldest: bool, workers: nat, run: seq<Step>): State {
    if run == [] then Init(cap, dropOldest, workers)
    else Next(Exec(cap, dropOldest, workers, run[..|run| - 1]), run[|run| - 1])
  }
}
