/**
 One recording as a whole: what a goroutine that is not disturbed does to the series of a metric, in any state that a
 run can leave with the lock free; and that the lock admits one goroutine at a time.
 */
module CardinalityCalls {
  import opened Cardinality
  import opened CardinalityRuns

  // ---- the lock ----

  /** The lock is taken exactly while a goroutine is inside commit, and only one is. */
  ghost predicate LockOk(s: State) {
    && (s.locked <==> exists t: nat :: t < |s.threads| && s.threads[t].Storing?)
    && forall t: nat, u: nat :: t < u < |s.threads| ==> !(s.threads[t].Storing? && s.threads[u].Storing?)
  }

  lemma LockStep(s: State, step: Step)
    requires LockOk(s) && Enabled(s, step)
    ensures LockOk(Next(s, step))
  {
    hide Admitted, Stored, Unreserved, Released;
    var s' := Next(s, step);
    var t := step.t;
    assert forall u: nat :: u < |s.threads| && u != t ==> s'.threads[u] == s.threads[u];
    if s'.locked && step.Commit? && s.threads[t].slot { assert s'.threads[t].Storing?; }
    else if s'.locked {
      var u: nat :| u < |s.threads| && s.threads[u].Storing?;
      assert s'.threads[u].Storing?;
    }
  }

  lemma {:induction false} LockIsExclusive(limit: int, threads: nat, run: seq<Step>)
    ensures LockOk(Exec(limit, threads, run))
    decreases |run|
  {
    hide Next;
    if run != [] {
      var s, last := Exec(limit, threads, run[..|run| - 1]), run[|run| - 1];
      LockIsExclusive(limit, threads, run[..|run| - 1]);
      if Enabled(s, last) { LockStep(s, last); } else { Disabled(s, last); }
    }
  }

  lemma Disabled(s: State, step: Step)
    requires !Enabled(s, step)
    ensures Next(s, step) == s
  {
  }

  // ---- a whole recording ----

  /** admitAndEnqueue of a series by goroutine t; `queued` says whether enqueue succeeds. */
  function Recording(t: nat, key: Key, queued: bool): seq<Step> {
    [Lookup(t, key), Admit(t), if queued then Commit(t) else Release(t), Unreserve(t)]
  }

  /** The series is known or there is room for it. */
  predicate Admissible(s: State, key: Key) {
    key in s.recorded || Slots(s.threads, key) > 0 || s.series.count < if s.limit > 0 then s.limit else 2000
  }

  /** What a recording leaves. */
  predicate Leaves(s: State, key: Key, queued: bool, s': State) {
    var stored := queued && Admissible(s, key);
    && s'.threads == s.threads && !s'.locked && s'.limit == s.limit
    && s'.recorded == s'.series.admitted == (if stored then s.recorded + {key} else s.recorded)
    && s'.series.reserved == s.series.reserved
    && s'.series.count == s.series.count +
         if stored && key !in s.recorded && Slots(s.threads, key) == 0 then 1 else 0
  }

  function Four(s: State, steps: seq<Step>): State
    requires |steps| == 4
  {
    Next(Next(Next(Next(s, steps[0]), steps[1]), steps[2]), steps[3])
  }

  lemma ExecMore(limit: int, threads: nat, run: seq<Step>, step: Step)
    ensures Exec(limit, threads, run + [step]) == Next(Exec(limit, threads, run), step)
  {
    hide Next;
    assert (run + [step])[..|run|] == run;
  }

  lemma FourIsExec(limit: int, threads: nat, run: seq<Step>, steps: seq<Step>)
    requires |steps| == 4
    ensures Exec(limit, threads, run + steps) == Four(Exec(limit, threads, run), steps)
  {
    hide Next, Exec;
    var a := run + [steps[0]];
    var b := a + [steps[1]];
    var c := b + [steps[2]];
    ExecMore(limit, threads, run, steps[0]);
    ExecMore(limit, threads, a, steps[1]);
    ExecMore(limit, threads, b, steps[2]);
    ExecMore(limit, threads, c, steps[3]);
    assert c + [steps[3]] == run + steps;
  }

  lemma KnownAlone(s: State, t: nat, key: Key, queued: bool)
    requires Inv(s) && t < |s.threads| && s.threads[t].Idle? && !s.locked && key in s.recorded
    ensures Leaves(s, key, queued, Four(s, Recording(t, key, queued)))
  {
    hide Sound, Counted, Slots;
    var s1 := Next(s, Lookup(t, key));
    assert s1 == Move(s, t, Holding(key, false));
    var s2 := Next(s1, Admit(t));
    assert s2 == s1;
    var s3 := Next(s2, if queued then Commit(t) else Release(t));
    assert s3.threads == s.threads && s.recorded + {key} == s.recorded;
  }

  lemma FullAlone(s: State, t: nat, key: Key, queued: bool)
    requires Inv(s) && t < |s.threads| && s.threads[t].Idle? && !s.locked && !Admissible(s, key)
    ensures Leaves(s, key, queued, Four(s, Recording(t, key, queued)))
  {
    assert Outstanding(s.series.reserved, key) == Slots(s.threads, key);
    hide Sound, Counted, Slots;
    var s1 := Next(s, Lookup(t, key));
    assert s1 == Move(s, t, Missed(key));
    var s2 := Next(s1, Admit(t));
    assert s2.threads == s.threads;
    assert s2 == s;
  }

  /** Giving a reservation back undoes taking it. */
  lemma Unreserves(x: Series, k: Key)
    requires forall j :: j in x.reserved ==> x.reserved[j] > 0
    ensures var more := x.reserved[k := Outstanding(x.reserved, k) + 1];
            forall y: Series :: y.reserved == more ==> Unreserved(y, k).reserved == x.reserved
  {
    var n := Outstanding(x.reserved, k);
    var more := x.reserved[k := n + 1];
    if n == 0 { assert more - {k} == x.reserved; } else { assert more[k := n] == x.reserved; }
  }

  /** The state in which goroutine t has reserved the series. */
  function Reserving(s: State, t: nat, key: Key): State
    requires t < |s.threads|
  {
    var n := Outstanding(s.series.reserved, key);
    Move(s, t, Holding(key, true)).(
      series := s.series.(reserved := s.series.reserved[key := n + 1],
                          count := s.series.count + if n == 0 then 1 else 0))
  }

  lemma ReserveAlone(s: State, t: nat, key: Key)
    requires Inv(s) && t < |s.threads| && s.threads[t].Idle? && !s.locked
    requires key !in s.recorded && Admissible(s, key)
    ensures Next(Next(s, Lookup(t, key)), Admit(t)) == Reserving(s, t, key)
    ensures Outstanding(s.series.reserved, key) == Slots(s.threads, key)
  {
    hide Sound, Slots;
    var s1 := Next(s, Lookup(t, key));
    assert s1 == Move(s, t, Missed(key));
    assert Outstanding(s.series.reserved, key) == Slots(s.threads, key);
  }

  lemma CommitAlone(s: State, t: nat, key: Key)
    requires t < |s.threads| && s.threads[t].Idle? && !s.locked
    requires forall j :: j in s.series.reserved ==> s.series.reserved[j] > 0
    ensures Next(Next(Reserving(s, t, key), Commit(t)), Unreserve(t)) ==
      s.(recorded := s.recorded + {key},
         series := s.series.(admitted := s.series.admitted + {key}, count := Reserving(s, t, key).series.count))
  {
    hide Admitted, Released;
    Unreserves(s.series, key);
    var s2 := Reserving(s, t, key);
    var s3 := Next(s2, Commit(t));
    assert s3 == Move(s, t, Storing(key)).(
      series := Stored(s2.series, key), locked := true, recorded := s.recorded + {key});
    assert s3.threads[t := Idle] == s.threads;
  }

  lemma ReleaseAlone(s: State, t: nat, key: Key)
    requires t < |s.threads| && s.threads[t].Idle? && !s.locked && key !in s.series.admitted
    requires forall j :: j in s.series.reserved ==> s.series.reserved[j] > 0
    ensures Next(Next(Reserving(s, t, key), Release(t)), Unreserve(t)) == s
  {
    hide Admitted, Stored;
    Unreserves(s.series, key);
    var s2 := Reserving(s, t, key);
    assert s2.threads[t := Idle] == s.threads;
    assert Next(s2, Release(t)) == s;
  }

  lemma NewAlone(s: State, t: nat, key: Key, queued: bool)
    requires Inv(s) && t < |s.threads| && s.threads[t].Idle? && !s.locked
    requires key !in s.recorded && Admissible(s, key)
    ensures Leaves(s, key, queued, Four(s, Recording(t, key, queued)))
  {
    hide Next, Slots, Counted;
    ReserveAlone(s, t, key);
    if queued { CommitAlone(s, t, key); } else { ReleaseAlone(s, t, key); }
  }

  /**
   A recording that nobody disturbs records its series exactly when enqueue succeeds and the series is known or a slot
   is left; it takes one slot for a new series, none otherwise, and a failed one leaves everything as it was.
   */
  lemma RecordAlone(limit: int, threads: nat, run: seq<Step>, t: nat, key: Key, queued: bool)
    requires var s := Exec(limit, threads, run); t < |s.threads| && s.threads[t].Idle? && !s.locked
    ensures Exec(limit, threads, run).limit == limit
    ensures Leaves(
              Exec(limit, threads, run), key, queued, Exec(limit, threads, run + Recording(t, key, queued)))
  {
    RunInv(limit, threads, run);
    hide Exec, Next, Inv, Leaves;
    var s := Exec(limit, threads, run);
    FourIsExec(limit, threads, run, Recording(t, key, queued));
    if key in s.recorded { KnownAlone(s, t, key, queued); }
    else if Admissible(s, key) { NewAlone(s, t, key, queued); }
    else { FullAlone(s, t, key, queued); }
  }

  /** An observation of a recorded series passes while another goroutine holds the lock, and changes nothing. */
  lemma RecordedNeedsNoLock(limit: int, threads: nat, run: seq<Step>, t: nat, key: Key, queued: bool)
    requires var s := Exec(limit, threads, run); t < |s.threads| && s.threads[t].Idle? && key in s.recorded
    ensures Exec(limit, threads, run + [Lookup(t, key)] + [if queued then Commit(t) else Release(t)]) ==
      Exec(limit, threads, run)
  {
    RunInv(limit, threads, run);
    var s, last := Exec(limit, threads, run), if queued then Commit(t) else Release(t);
    ExecMore(limit, threads, run, Lookup(t, key));
    ExecMore(limit, threads, run + [Lookup(t, key)], last);
    hide Exec, Sound, Counted, Admitted, Stored, Released;
    var s1 := Next(s, Lookup(t, key));
    assert s1 == Move(s, t, Holding(key, false));
    assert Next(s1, last).threads == s.threads && s.recorded + {key} == s.recorded;
  }
}
