/**
 Any number of goroutines recording observations of one metric: the lock-free lookup of the admitted series,
 the critical sections under the series mutex, and a commit whose store is visible before it gives the
 reservation back.
 */
module CardinalityRuns {
  import opened Cardinality

  datatype Pc =
    | Idle
    | Missed(key: Key)                     // the lock-free lookup found nothing
    | Holding(key: Key, slot: bool)        // admitted; enqueue is running
    | Storing(key: Key)                    // inside commit, between the store and unreserve

  /** `recorded` collects the series of all committed observations. */
  datatype State = State(limit: int, series: Series, locked: bool, threads: seq<Pc>, recorded: set<Key>)

  datatype Step =
    | Lookup(t: nat, key: Key) | Admit(t: nat)
    | Commit(t: nat) | Unreserve(t: nat) | Release(t: nat)

  predicate Enabled(s: State, step: Step) {
    step.t < |s.threads| &&
    var pc := s.threads[step.t];
    match step
    case Lookup(_, _) => pc.Idle?
    case Admit(_) => pc.Missed? && !s.locked
    case Commit(_) => pc.Holding? && (pc.slot ==> !s.locked)
    case Unreserve(_) => pc.Storing?
    case Release(_) => pc.Holding? && (pc.slot ==> !s.locked)
  }

  function Move(s: State, t: nat, pc: Pc): State
    requires t < |s.threads|
  {
    s.(threads := s.threads[t := pc])
  }

  function Next(s: State, step: Step): State {
    if !Enabled(s, step) then s
    else
      var t := step.t;
      var pc := s.threads[t];
      match step
      case Lookup(_, key) => Move(s, t, if key in s.series.admitted then Holding(key, false) else Missed(key))
      case Admit(_) =>
        var (x, verdict) := Admitted(s.series, pc.key, s.limit);
        Move(s, t, if verdict.Refuses? then Idle else Holding(pc.key, verdict.Reserves?)).(series := x)
      case Commit(_) =>
        var done := s.(recorded := s.recorded + {pc.key});
        if pc.slot then Move(done, t, Storing(pc.key)).(series := Stored(s.series, pc.key), locked := true)
        else Move(done, t, Idle)
      case Unreserve(_) => Move(s, t, Idle).(series := Unreserved(s.series, pc.key), locked := false)
      case Release(_) =>
        if pc.slot then Move(s, t, Idle).(series := Released(s.series, pc.key)) else Move(s, t, Idle)
  }

  function Init(limit: int, threads: nat): State {
    State(limit, EMPTY, false, seq(threads, i => Idle), {})
  }

  function Exec(limit: int, threads: nat, run: seq<Step>): State {
    if run == [] then Init(limit, threads)
    else Next(Exec(limit, threads, run[..|run| - 1]), run[|run| - 1])
  }

  // ---- the invariant ----

  predicate HoldsSlot(pc: Pc, k: Key) {
    pc == Holding(k, true) || pc == Storing(k)
  }

  /** How many goroutines hold a reservation of series k. */
  function Slots(threads: seq<Pc>, k: Key): nat {
    if threads == [] then 0 else (if HoldsSlot(threads[0], k) then 1 else 0) + Slots(threads[1..], k)
  }

  lemma {:induction false} SlotsUpdate(threads: seq<Pc>, t: nat, pc: Pc, k: Key)
    requires t < |threads|
    ensures Slots(threads[t := pc], k) ==
      Slots(threads, k) - (if HoldsSlot(threads[t], k) then 1 else 0) + (if HoldsSlot(pc, k) then 1 else 0)
    ensures HoldsSlot(threads[t], k) ==> Slots(threads, k) > 0
  {
    if t == 0 {
      assert threads[0 := pc][1..] == threads[1..];
    } else {
      SlotsUpdate(threads[1..], t - 1, pc, k);
      assert threads[t := pc][1..] == threads[1..][t - 1 := pc];
    }
  }

  ghost predicate Counted(s: State) {
    forall k: Key :: Outstanding(s.series.reserved, k) == Slots(s.threads, k)
  }

  predicate Seen(s: State, t: nat)
    requires t < |s.threads|
  {
    var pc := s.threads[t];
    (pc.Holding? && !pc.slot) || pc.Storing? ==> pc.key in s.series.admitted
  }

  ghost predicate Inv(s: State) {
    && Sound(s.series, s.limit)
    && Counted(s)
    && s.recorded == s.series.admitted
    && forall t: nat :: t < |s.threads| ==> Seen(s, t)
  }

  lemma {:induction false} NoSlots(threads: seq<Pc>, k: Key)
    requires forall t :: 0 <= t < |threads| ==>
      threads[t].Idle? || threads[t].Missed? || (threads[t].Holding? && !threads[t].slot)
    ensures Slots(threads, k) == 0
  {
    if threads != [] { NoSlots(threads[1..], k); }
  }

  /** A goroutine that holds a reservation finds it in the map. */
  lemma SlotIsReserved(s: State, t: nat, k: Key)
    requires Inv(s) && t < |s.threads| && HoldsSlot(s.threads[t], k)
    ensures k in s.series.reserved
  {
    SlotsUpdate(s.threads, t, Idle, k);
    assert Outstanding(s.series.reserved, k) == Slots(s.threads, k);
  }

  lemma CountedStep(s: State, step: Step)
    requires Inv(s) && Enabled(s, step)
    ensures Counted(Next(s, step))
  {
    hide Sound;
    var s' := Next(s, step);
    var pc := s.threads[step.t];
    if step.Admit? { AdmittedSound(s.series, pc.key, s.limit); }
    if HoldsSlot(pc, SlotKey(pc)) {
      SlotIsReserved(s, step.t, SlotKey(pc));
      SoundPositive(s.series, s.limit);
      UnreservedKeys(s.series, SlotKey(pc));
    }
    forall k: Key ensures Outstanding(s'.series.reserved, k) == Slots(s'.threads, k) {
      SlotsUpdate(s.threads, step.t, s'.threads[step.t], k);
      assert Outstanding(s.series.reserved, k) == Slots(s.threads, k);
    }
  }

  function SlotKey(pc: Pc): Key {
    if pc.Idle? then 0 else pc.key
  }

  lemma SoundPositive(x: Series, limit: int)
    requires Sound(x, limit)
    ensures forall j :: j in x.reserved ==> x.reserved[j] > 0
  {
  }

  lemma SoundStep(s: State, step: Step)
    requires Inv(s) && Enabled(s, step)
    ensures Sound(Next(s, step).series, s.limit)
  {
    hide Sound;
    var pc := s.threads[step.t];
    match step
    case Lookup(_, _) =>
    case Admit(_) => AdmittedSound(s.series, pc.key, s.limit);
    case Commit(_) =>
      if pc.slot { SlotIsReserved(s, step.t, pc.key); StoredSound(s.series, pc.key, s.limit); }
    case Unreserve(_) =>
      SlotIsReserved(s, step.t, pc.key);
      assert Seen(s, step.t);
      SettledSound(s.series, pc.key, s.limit);
    case Release(_) =>
      if pc.slot { SlotIsReserved(s, step.t, pc.key); ReleasedSound(s.series, pc.key, s.limit); }
  }

  lemma SeenStep(s: State, step: Step)
    requires Inv(s) && Enabled(s, step)
    ensures var s' := Next(s, step);
            && s.series.admitted <= s'.series.admitted == s'.recorded
            && s'.limit == s.limit && |s'.threads| == |s.threads|
            && forall t: nat :: t < |s'.threads| ==> Seen(s', t)
  {
    hide Sound, Counted;
    var s' := Next(s, step);
    assert Seen(s, step.t);
    forall t: nat | t < |s'.threads| ensures Seen(s', t) {
      assert Seen(s, t);
    }
  }

  lemma StepInv(s: State, step: Step)
    requires Inv(s)
    ensures Inv(Next(s, step)) && Next(s, step).limit == s.limit && |Next(s, step).threads| == |s.threads|
    ensures s.series.admitted <= Next(s, step).series.admitted
  {
    if Enabled(s, step) {
      hide Sound, Counted, Seen, Next;
      SoundStep(s, step);
      CountedStep(s, step);
      SeenStep(s, step);
    }
  }

  lemma {:induction false} RunInv(limit: int, threads: nat, run: seq<Step>)
    ensures Inv(Exec(limit, threads, run)) && Exec(limit, threads, run).limit == limit
    decreases |run|
  {
    if run == [] {
      forall k: Key ensures Outstanding(EMPTY.reserved, k) == Slots(Init(limit, threads).threads, k) {
        NoSlots(Init(limit, threads).threads, k);
      }
      assert EMPTY.admitted + EMPTY.reserved.Keys == {};
    } else {
      RunInv(limit, threads, run[..|run| - 1]);
      StepInv(Exec(limit, threads, run[..|run| - 1]), run[|run| - 1]);
    }
  }

  lemma {:induction false} AdmittedGrows(limit: int, threads: nat, run: seq<Step>, more: seq<Step>)
    ensures Exec(limit, threads, run).series.admitted <= Exec(limit, threads, run + more).series.admitted
    decreases |more|
  {
    if more == [] {
      assert run + more == run;
    } else {
      var prefix := run + more[..|more| - 1];
      assert (run + more)[..|run + more| - 1] == prefix;
      AdmittedGrows(limit, threads, run, more[..|more| - 1]);
      RunInv(limit, threads, prefix);
      StepInv(Exec(limit, threads, prefix), more[|more| - 1]);
    }
  }

  // ---- what the limiter promises ----

  /**
   In every interleaving the count is the number of series admitted or reserved, never over the limit, and a
   series has as many reservations as there are goroutines between its admission and their commit or release.
   */
  lemma LimitHolds(limit: int, threads: nat, run: seq<Step>, k: Key)
    ensures var s := Exec(limit, threads, run);
            && s.series.count == |s.series.admitted + s.series.reserved.Keys| <= (if limit > 0 then limit else 2000)
            && Outstanding(s.series.reserved, k) == Slots(s.threads, k)
            && (k in s.series.reserved <==> Slots(s.threads, k) > 0)
  {
    RunInv(limit, threads, run);
    var s := Exec(limit, threads, run);
    assert Outstanding(s.series.reserved, k) == Slots(s.threads, k);
  }

  /** Admission fails exactly when the series is new, nobody has a reservation for it and every slot is taken. */
  lemma RefusedIff(limit: int, threads: nat, run: seq<Step>, t: nat)
    requires Enabled(Exec(limit, threads, run), Admit(t))
    ensures var s := Exec(limit, threads, run); var k := s.threads[t].key;
            Next(s, Admit(t)).threads[t] == Idle <==>
              && k !in s.recorded && Slots(s.threads, k) == 0
              && |s.series.admitted + s.series.reserved.Keys| == if limit > 0 then limit else 2000
  {
    RunInv(limit, threads, run);
    var s := Exec(limit, threads, run);
    var k := s.threads[t].key;
    AdmittedSound(s.series, k, limit);
    LimitHolds(limit, threads, run, k);
  }

  /** A series that was recorded once is never refused again, even by a lookup that raced with its commit. */
  lemma NeverRefusedAgain(limit: int, threads: nat, run: seq<Step>, more: seq<Step>, t: nat)
    requires Enabled(Exec(limit, threads, run + more), Admit(t))
    requires Exec(limit, threads, run + more).threads[t].key in Exec(limit, threads, run).recorded
    ensures var s := Exec(limit, threads, run + more);
            Next(s, Admit(t)).threads[t] == Holding(s.threads[t].key, false) && Next(s, Admit(t)).series == s.series
  {
    RunInv(limit, threads, run);
    AdmittedGrows(limit, threads, run, more);
  }

  /** With nothing outstanding, the slots in use are exactly those of the recorded series. */
  lemma QuietSeries(limit: int, threads: nat, run: seq<Step>)
    requires forall t :: 0 <= t < |Exec(limit, threads, run).threads| ==> Exec(limit, threads, run).threads[t].Idle?
    ensures var s := Exec(limit, threads, run);
            s.series.reserved == map[] && s.series.admitted == s.recorded && s.series.count == |s.recorded|
  {
    RunInv(limit, threads, run);
    var s := Exec(limit, threads, run);
    forall k: Key ensures k !in s.series.reserved {
      NoSlots(s.threads, k);
      assert Outstanding(s.series.reserved, k) == Slots(s.threads, k);
    }
    assert s.series.admitted + s.series.reserved.Keys == s.series.admitted;
  }
}
