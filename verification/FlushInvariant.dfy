/**
 The inductive invariant of the flush protocol, as small facts about one position, one
 worker and one call.
 */
module FlushInvariant {
  import opened FlushMachine
  import opened Options

  predicate Sized(s: State) {
    |s.owner| == s.rp <= s.wp <= s.rp + s.cap
  }

  /** A position that worker w took is exported by w, dropped by w on its way out, or still in w's batch. */
  predicate PositionOk(s: State, p: nat)
    requires p < |s.owner|
  {
    s.owner[p].By? ==>
      var w := s.owner[p].worker;
      w < |s.workers| &&
      ((p in s.exported && s.exported[p].worker == w)
       || (p in s.dropped && s.workers[w].pc.Exited?)
       || p in s.workers[w].batch)
  }

  /**
   What is in a batch was taken by that worker and not handed over yet; an idle end of the road means an empty batch.
   */
  predicate BatchOk(s: State, w: Wid)
    requires w < |s.workers|
  {
    && (forall p :: p in s.workers[w].batch ==>
          p < |s.owner| && s.owner[p] == By(w) && p !in s.exported && p !in s.dropped)
    && (s.workers[w].pc.Recording? || s.workers[w].pc.Acking? || s.workers[w].pc.Exited? ==> s.workers[w].batch == [])
    && (s.workers[w].pc.Draining? ==>
      s.workers[w].pc.chunk <= |s.workers[w].batch| && s.workers[w].pc.chunk <= DRAIN_CHUNK)
    && (s.workers[w].pc.DrainExporting? ==> s.workers[w].batch != [])
  }

  predicate Errs(pc: WorkerPc) {
    match pc
    case Draining(_, _, _, _, e) => e
    case DrainCheck(_, _, _, e) => e
    case DrainExporting(_, _, _, e) => e
    case FinalExporting(_, e) => e
    case Acking(_, e) => e
    case _ => false
  }

  /** A failed export is remembered where a later acknowledgement will find it. */
  predicate FailureOk(s: State, p: nat)
    requires p in s.exported
  {
    var e := s.exported[p];
    && e.worker < |s.workers| && e.gen <= s.flushGen
    && p < |s.owner| && s.owner[p] == By(e.worker)
    && (e.ok ||
        var x := s.workers[e.worker];
        match e.cause
        case None => Since(x.fail, e.gen) || x.pc == Recording(false)
        case Some(c) => c in s.calls && (s.calls[c].failed || (CallOf(x.pc) == Some(c) && Errs(x.pc))))
  }

  /** A worker that drains for a call has popped `popped + chunk` positions since readPos was `base`. */
  predicate WorkerOk(s: State, w: Wid)
    requires w < |s.workers|
  {
    var x := s.workers[w];
    && (x.fail.Some? ==> x.fail.value <= s.flushGen)
    && (CallOf(x.pc).Some? ==>
          && CallOf(x.pc).value in s.calls
          && var k := s.calls[CallOf(x.pc).value];
             && w < k.next && w !in k.acked
             && (Since(x.fail, k.gen) ==> Errs(x.pc))
             && match x.pc
                case Draining(_, base, popped, chunk, _) => base + popped + chunk <= s.rp && k.start <= base + s.cap
                case DrainCheck(_, base, popped, _) => base + popped <= s.rp && k.start <= base + s.cap
                case DrainExporting(_, base, popped, _) => base + popped <= s.rp && k.start <= base + s.cap
                case _ => k.dead || k.start <= s.rp)
  }

  /** Nothing went wrong with this export as far as the call of generation gen can know. */
  predicate Fine(e: Export, c: Cid, gen: nat) {
    e.ok || e.gen < gen || (e.cause.Some? && e.cause.value != c)
  }

  /**
   Position p, accepted before the call, is settled with respect to the acknowledgement of the worker that took it.
   */
  predicate Settled(s: State, c: Cid, p: nat)
    requires c in s.calls && p < |s.owner|
  {
    s.owner[p].By? && s.owner[p].worker in s.calls[c].acked ==>
      p in s.exported && (s.calls[c].failed || Fine(s.exported[p], c, s.calls[c].gen))
  }

  predicate CallOk(s: State, c: Cid)
    requires c in s.calls
  {
    var k := s.calls[c];
    && k.start <= s.wp && k.gen <= s.flushGen && k.next <= |s.workers|
    && (forall w :: w in k.acked ==> w < k.next)
    && (k.stop ==> s.closed && s.active == {} && k.start == s.wp)
    && (!k.dead && k.acked != {} ==> k.start <= s.rp)
    && (k.result == Some(true) ==> !k.failed && !k.aborted)
    && (k.result == Some(false) && !k.aborted ==> k.failed)
    && (k.result.Some? && !k.aborted ==> forall w: Wid :: w < |s.workers| ==> w in k.acked)
    && (k.aborted ==> k.result.Some?)
  }

  predicate SettledAll(s: State, c: Cid)
    requires c in s.calls
  {
    !s.calls[c].dead && s.calls[c].acked != {} ==>
      forall p: nat :: p < s.calls[c].start && p < |s.owner| ==> Settled(s, c, p)
  }

  /** Only positions that left the ring were exported or dropped. */
  predicate TakenOk(s: State) {
    (forall p :: p in s.exported ==> p < |s.owner|) && (forall p :: p in s.dropped ==> p < |s.owner|)
  }

  ghost predicate Inv(s: State) {
    && Sized(s)
    && (s.closed ==> s.active == {})
    && TakenOk(s)
    && (forall p: nat :: p < |s.owner| ==> PositionOk(s, p))
    && (forall w: Wid :: w < |s.workers| ==> BatchOk(s, w))
    && (forall w: Wid :: w < |s.workers| ==> WorkerOk(s, w))
    && (forall p :: p in s.exported ==> FailureOk(s, p))
    && (forall c :: c in s.calls ==> CallOk(s, c))
    && (forall c :: c in s.calls ==> SettledAll(s, c))
  }
}
