/** A Record that nobody interrupts, in any state that a run can leave. */
module FlushRecords {
  import opened FlushMachine
  import opened FlushDrains

  /** Record by goroutine p: a full ring is made to evict first, if it does. */
  function Recording(p: Pid): seq<Step> {
    [RecordEnter(p), Evict(p), Push(p), RecordExit(p)]
  }

  lemma RecordOnOpen(s: State, p: Pid)
    requires !s.closed && p !in s.active && s.rp <= s.wp <= s.rp + s.cap
    ensures var full := s.wp == s.rp + s.cap;
            Next(Next(Next(Next(s, RecordEnter(p)), Evict(p)), Push(p)), RecordExit(p)) ==
              if !full then s.(wp := s.wp + 1)
              else if s.dropOldest && s.cap > 0 then s.(wp := s.wp + 1, rp := s.rp + 1, owner := s.owner + [Evicted])
              else s
  {
    hide BackgroundStep, DrainStep, SettleStep, CallStep;
    var s1 := Next(s, RecordEnter(p));
    assert s1 == s.(active := s.active + {p});
    assert s.active + {p} - {p} == s.active;
  }

  lemma RecordOnClosed(s: State, p: Pid)
    requires s.closed && p !in s.active
    ensures Next(Next(Next(Next(s, RecordEnter(p)), Evict(p)), Push(p)), RecordExit(p)) == s
  {
    hide RingStep, BackgroundStep, DrainStep, SettleStep, CallStep;
  }

  /**
   A Record alone is refused exactly after the close, or by a full ring that does not evict. Otherwise it takes the
   next position, and the oldest one is evicted exactly from a full ring.
   */
  lemma RecordAlone(cap: nat, dropOldest: bool, workers: nat, run: seq<Step>, p: Pid)
    requires p !in Exec(cap, dropOldest, workers, run).active
    ensures var s, t := Exec(cap, dropOldest, workers, run), Exec(cap, dropOldest, workers, run + Recording(p));
            if s.closed || (s.wp - s.rp == cap && !(dropOldest && cap > 0)) then t == s
            else if s.wp - s.rp == cap then t == s.(wp := s.wp + 1, rp := s.rp + 1, owner := s.owner + [Evicted])
            else t == s.(wp := s.wp + 1)
  {
    RunSizes(cap, dropOldest, workers, run);
    hide Next, Exec;
    var s := Exec(cap, dropOldest, workers, run);
    var a := run + [RecordEnter(p)];
    var b := a + [Evict(p)];
    var c := b + [Push(p)];
    ExecMore(cap, dropOldest, workers, run, RecordEnter(p));
    ExecMore(cap, dropOldest, workers, a, Evict(p));
    ExecMore(cap, dropOldest, workers, b, Push(p));
    ExecMore(cap, dropOldest, workers, c, RecordExit(p));
    assert c + [RecordExit(p)] == run + Recording(p);
    if s.closed { RecordOnClosed(s, p); } else { RecordOnOpen(s, p); }
  }
}
