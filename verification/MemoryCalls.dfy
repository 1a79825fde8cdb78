/**
 Whole calls on the memory account: what an enqueue, a refused push and a batch do when nobody disturbs them, in any
 state that a run can leave.
 */
module MemoryCalls {
  import opened MemoryAccount

  /** The queue a push leaves: the metric goes to the end, and on a full queue the oldest one leaves. */
  function Queued(s: State, size: Size): seq<Size> {
    (if |s.queue| < s.cap || s.queue == [] then s.queue else s.queue[1..]) + [size]
  }

  lemma ExecMore(limit: int, cap: nat, dropOldest: bool, threads: nat, run: seq<Step>, step: Step)
    ensures Exec(limit, cap, dropOldest, threads, run + [step]) ==
      Next(Exec(limit, cap, dropOldest, threads, run), step)
  {
    hide Next;
    assert (run + [step])[..|run|] == run;
  }

  function Five(s: State, steps: seq<Step>): State
    requires |steps| == 5
  {
    Next(Next(Next(Next(Next(s, steps[0]), steps[1]), steps[2]), steps[3]), steps[4])
  }

  lemma FiveIsExec(limit: int, cap: nat, dropOldest: bool, threads: nat, run: seq<Step>, steps: seq<Step>)
    requires |steps| == 5
    ensures Exec(limit, cap, dropOldest, threads, run + steps) ==
      Five(Exec(limit, cap, dropOldest, threads, run), steps)
  {
    hide Next, Exec;
    var a := run + [steps[0]];
    var b := a + [steps[1]];
    var c := b + [steps[2]];
    var d := c + [steps[3]];
    ExecMore(limit, cap, dropOldest, threads, run, steps[0]);
    ExecMore(limit, cap, dropOldest, threads, a, steps[1]);
    ExecMore(limit, cap, dropOldest, threads, b, steps[2]);
    ExecMore(limit, cap, dropOldest, threads, c, steps[3]);
    ExecMore(limit, cap, dropOldest, threads, d, steps[4]);
    assert d + [steps[4]] == run + steps;
  }

  /** A reservation by an idle goroutine: nothing happens, or the bytes are reserved. */
  lemma ReserveAlone(s: State, t: nat, size: Size)
    requires t < |s.threads| && s.threads[t].Idle?
    ensures Next(Next(Next(s, Enqueue(t, size)), Load(t)), Swap(t)) ==
      if s.mem + size > s.limit then s else SetThread(s, t, Reserved(size)).(mem := s.mem + size)
  {
    hide ReturnStep;
    var s1 := Next(s, Enqueue(t, size));
    assert s1 == SetThread(s, t, Loading(size));
    var s2 := Next(s1, Load(t));
    if s.mem + size > s.limit {
      assert s2.threads == s.threads;
    } else {
      assert s2 == SetThread(s, t, Loaded(size, s.mem));
    }
  }

  lemma PushAlone(s: State, t: nat, size: Size)
    requires t < |s.threads| && s.threads[t].Idle? && (|s.queue| < s.cap || (s.dropOldest && s.queue != []))
    ensures Next(Next(SetThread(s, t, Reserved(size)), Push(t)), SubtractEvicted(t)) ==
      s.(queue := Queued(s, size), mem := s.mem - if |s.queue| < s.cap then 0 else s.queue[0])
  {
    var s1 := SetThread(s, t, Reserved(size));
    var s2 := Next(s1, Push(t));
    assert s2.threads == s.threads[t := if |s.queue| < s.cap then Idle else Evicting(s.queue[0])];
    assert s.threads[t := Idle] == s.threads;
  }

  /**
   A producer that is not disturbed reserves exactly the size of its metric and queues it, giving back the size of the
   metric it evicts; when the accounted bytes and its size exceed the limit it changes nothing.
   */
  lemma EnqueueAlone(limit: int, cap: nat, dropOldest: bool, threads: nat, run: seq<Step>, t: nat, size: Size)
    requires var s := Exec(limit, cap, dropOldest, threads, run);
             && t < |s.threads| && s.threads[t].Idle? && (|s.queue| < s.cap || (s.dropOldest && s.queue != []))
    ensures var s := Exec(limit, cap, dropOldest, threads, run);
            Exec(limit, cap, dropOldest, threads,
                 run + [Enqueue(t, size), Load(t), Swap(t), Push(t), SubtractEvicted(t)]) ==
              if Accounted(s) + size > limit then s
              else
                s.(queue := Queued(s, size), mem := s.mem + size - if |s.queue| < s.cap then 0 else s.queue[0])
  {
    RunBalanced(limit, cap, dropOldest, threads, run);
    hide HeldByAll, Total, Exec, Next;
    var s := Exec(limit, cap, dropOldest, threads, run);
    FiveIsExec(limit, cap, dropOldest, threads, run,
               [Enqueue(t, size), Load(t), Swap(t), Push(t), SubtractEvicted(t)]);
    ReserveAlone(s, t, size);
    if Accounted(s) + size > limit { IdleStays(s, t); }
    else { PushAlone(s.(mem := s.mem + size), t, size); }
  }

  lemma IdleStays(s: State, t: nat)
    requires t < |s.threads| && s.threads[t].Idle?
    ensures Next(s, Push(t)) == s && Next(s, SubtractEvicted(t)) == s
    ensures Next(s, PushFails(t)) == s && Next(s, Rollback(t)) == s
  {
  }

  /** A refused push gives its bytes back: the whole call changes nothing. */
  lemma FailedPushAlone(limit: int, cap: nat, dropOldest: bool, threads: nat, run: seq<Step>, t: nat, size: Size)
    requires var s := Exec(limit, cap, dropOldest, threads, run); t < |s.threads| && s.threads[t].Idle?
    ensures Exec(limit, cap, dropOldest, threads,
                 run + [Enqueue(t, size), Load(t), Swap(t), PushFails(t), Rollback(t)]) ==
      Exec(limit, cap, dropOldest, threads, run)
  {
    hide Exec, Next;
    var s := Exec(limit, cap, dropOldest, threads, run);
    FiveIsExec(limit, cap, dropOldest, threads, run,
               [Enqueue(t, size), Load(t), Swap(t), PushFails(t), Rollback(t)]);
    ReserveAlone(s, t, size);
    if s.mem + size > s.limit { IdleStays(s, t); } else { RollbackAlone(s, t, size); }
  }

  lemma RollbackAlone(s: State, t: nat, size: Size)
    requires t < |s.threads| && s.threads[t].Idle?
    ensures Next(Next(SetThread(s, t, Reserved(size)).(mem := s.mem + size), PushFails(t)), Rollback(t)) == s
  {
    var s1 := SetThread(s, t, Reserved(size)).(mem := s.mem + size);
    var s2 := Next(s1, PushFails(t));
    assert s2 == SetThread(s, t, RollingBack(size)).(mem := s.mem + size);
    assert s2.threads[t := Idle] == s.threads;
  }

  // ---- a batch ----

  function Repeat(step: Step, n: nat): seq<Step> {
    if n == 0 then [] else Repeat(step, n - 1) + [step]
  }

  /** A worker pops n metrics and gives their memory back one by one. */
  function Batch(t: nat, n: nat): seq<Step> {
    [Collect(t)] + Repeat(Pop(t), n) + [EndBatch(t)] + Repeat(SubtractPopped(t), n + 1)
  }

  lemma PopOne(s: State, t: nat)
    requires t < |s.threads| && s.threads[t].Collecting? && s.queue != []
    ensures Next(s, Pop(t)) == SetThread(s, t, Collecting(s.threads[t].items + [s.queue[0]])).(queue := s.queue[1..])
  {
    hide ProducerStep;
  }

  lemma {:induction false} PopMany(
      limit: int, cap: nat, dropOldest: bool, threads: nat, run: seq<Step>, t: nat, n: nat)
    requires var s := Exec(limit, cap, dropOldest, threads, run);
             t < |s.threads| && s.threads[t] == Collecting([]) && n <= |s.queue|
    ensures var s := Exec(limit, cap, dropOldest, threads, run);
            Exec(limit, cap, dropOldest, threads, run + Repeat(Pop(t), n)) ==
              SetThread(s, t, Collecting(s.queue[..n])).(queue := s.queue[n..])
  {
    hide Next, Exec;
    var s := Exec(limit, cap, dropOldest, threads, run);
    if n == 0 {
      assert run + Repeat(Pop(t), 0) == run;
      assert s.threads[t := Collecting([])] == s.threads;
    } else {
      PopMany(limit, cap, dropOldest, threads, run, t, n - 1);
      var more := run + Repeat(Pop(t), n - 1);
      ExecMore(limit, cap, dropOldest, threads, more, Pop(t));
      assert run + Repeat(Pop(t), n) == more + [Pop(t)];
      PopOne(Exec(limit, cap, dropOldest, threads, more), t);
      assert s.queue[..n - 1] + [s.queue[n - 1]] == s.queue[..n] && s.queue[n - 1..][1..] == s.queue[n..];
    }
  }

  lemma SubtractOne(s: State, t: nat)
    requires t < |s.threads| && s.threads[t].Subtracting?
    ensures var items := s.threads[t].items;
            Next(s, SubtractPopped(t)) ==
              if items == [] then SetThread(s, t, Idle)
              else SetThread(s, t, Subtracting(items[1..])).(mem := s.mem - items[0])
  {
    hide ProducerStep;
  }

  lemma {:induction false} SubtractMany(
      limit: int, cap: nat, dropOldest: bool, threads: nat, run: seq<Step>, t: nat, n: nat)
    requires var s := Exec(limit, cap, dropOldest, threads, run);
             t < |s.threads| && s.threads[t].Subtracting? && n <= |s.threads[t].items|
    ensures var s := Exec(limit, cap, dropOldest, threads, run);
            var items := s.threads[t].items;
            Exec(limit, cap, dropOldest, threads, run + Repeat(SubtractPopped(t), n)) ==
              SetThread(s, t, Subtracting(items[n..])).(mem := s.mem - Total(items[..n]))
  {
    hide Next, Exec, Total;
    var s := Exec(limit, cap, dropOldest, threads, run);
    var items := s.threads[t].items;
    if n == 0 {
      assert run + Repeat(SubtractPopped(t), 0) == run;
      assert s.threads[t := Subtracting(items)] == s.threads && items[..0] == [] && items[0..] == items;
      NoTotal();
    } else {
      SubtractMany(limit, cap, dropOldest, threads, run, t, n - 1);
      var more := run + Repeat(SubtractPopped(t), n - 1);
      ExecMore(limit, cap, dropOldest, threads, more, SubtractPopped(t));
      assert run + Repeat(SubtractPopped(t), n) == more + [SubtractPopped(t)];
      SubtractOne(Exec(limit, cap, dropOldest, threads, more), t);
      TotalAppend(items[..n - 1], items[n - 1]);
      assert items[..n - 1] + [items[n - 1]] == items[..n] && items[n - 1..][1..] == items[n..];
    }
  }

  lemma NoTotal()
    ensures Total([]) == 0
  {
  }

  lemma BatchEnds(s: State, t: nat)
    requires t < |s.threads|
    ensures s.threads[t].Idle? ==> Next(s, Collect(t)) == SetThread(s, t, Collecting([]))
    ensures s.threads[t].Collecting? ==> Next(s, EndBatch(t)) == SetThread(s, t, Subtracting(s.threads[t].items))
  {
    hide ProducerStep;
  }

  /** A worker that is not disturbed takes the n oldest metrics out of the queue and gives exactly their bytes back. */
  lemma BatchAlone(limit: int, cap: nat, dropOldest: bool, threads: nat, run: seq<Step>, t: nat, n: nat)
    requires var s := Exec(limit, cap, dropOldest, threads, run);
             t < |s.threads| && s.threads[t].Idle? && n <= |s.queue|
    ensures var s := Exec(limit, cap, dropOldest, threads, run);
            Exec(limit, cap, dropOldest, threads, run + Batch(t, n)) ==
              s.(queue := s.queue[n..], mem := s.mem - Total(s.queue[..n]))
  {
    hide Next, Exec, Total, Repeat;
    var s := Exec(limit, cap, dropOldest, threads, run);
    var a := run + [Collect(t)];
    ExecMore(limit, cap, dropOldest, threads, run, Collect(t));
    BatchEnds(s, t);
    PopMany(limit, cap, dropOldest, threads, a, t, n);
    var b := a + Repeat(Pop(t), n);
    ExecMore(limit, cap, dropOldest, threads, b, EndBatch(t));
    BatchEnds(Exec(limit, cap, dropOldest, threads, b), t);
    var c := b + [EndBatch(t)];
    SubtractMany(limit, cap, dropOldest, threads, c, t, n);
    var d := c + Repeat(SubtractPopped(t), n);
    ExecMore(limit, cap, dropOldest, threads, d, SubtractPopped(t));
    SubtractOne(Exec(limit, cap, dropOldest, threads, d), t);
    LastRepeat(SubtractPopped(t), n);
    assert run + Batch(t, n) == d + [SubtractPopped(t)];
    assert s.threads[t := Idle] == s.threads && s.queue[..n][..n] == s.queue[..n];
  }

  lemma LastRepeat(step: Step, n: nat)
    ensures Repeat(step, n + 1) == Repeat(step, n) + [step]
  {
  }
}
