/**
 memUsage as a transition system: producers reserve with a compare-and-swap loop, push or evict, and roll
 back; workers pop and give memory back one metric at a time. The ring is a bounded queue of metric sizes.
 */
module MemoryAccount {

  type Size = nat

  /** Where a goroutine is, and the size of every metric it still answers for. */
  datatype Thread =
    | Idle
    | Loading(size: Size)                    // enqueue, before memUsage.Load
    | Loaded(size: Size, current: int)       // before CompareAndSwap
    | Reserved(size: Size)                   // before Push or PushDropOldest
    | RollingBack(size: Size)                // the push failed, before Add(-size)
    | Evicting(victim: Size)                  // an item was evicted, before Add(-victim)
    | Collecting(items: seq<Size>)           // a worker inside PopBatch
    | Subtracting(items: seq<Size>)          // the loop of appendPopped

  datatype State = State(limit: int, cap: nat, dropOldest: bool, mem: int, queue: seq<Size>, threads: seq<Thread>)

  datatype Step =
    | Enqueue(t: nat, size: Size) | Load(t: nat) | Swap(t: nat)
    | Push(t: nat) | PushFails(t: nat) | Rollback(t: nat) | SubtractEvicted(t: nat)
    | Collect(t: nat) | Pop(t: nat) | EndBatch(t: nat) | SubtractPopped(t: nat)

  predicate Enabled(s: State, step: Step) {
    step.t < |s.threads| &&
    var x := s.threads[step.t];
    match step
    case Enqueue(_, _) => x.Idle?
    case Load(_) => x.Loading?
    case Swap(_) => x.Loaded?
    case Push(_) => x.Reserved? && (|s.queue| < s.cap || (s.dropOldest && 0 < |s.queue|))
    // the ring may also refuse a push while another goroutine is in the middle of one
    case PushFails(_) => x.Reserved?
    case Rollback(_) => x.RollingBack?
    case SubtractEvicted(_) => x.Evicting?
    case Collect(_) => x.Idle?
    case Pop(_) => x.Collecting? && 0 < |s.queue|
    case EndBatch(_) => x.Collecting?
    case SubtractPopped(_) => x.Subtracting?
  }

  function SetThread(s: State, t: nat, x: Thread): State
    requires t < |s.threads|
  {
    s.(threads := s.threads[t := x])
  }

  function ProducerStep(s: State, step: Step): State
    requires Enabled(s, step) && (step.Enqueue? || step.Load? || step.Swap? || step.Push? || step.PushFails?)
  {
    var t := step.t;
    var x := s.threads[t];
    match step
    case Enqueue(_, size) => SetThread(s, t, Loading(size))
    case Load(_) => SetThread(s, t, if s.mem + x.size > s.limit then Idle else Loaded(x.size, s.mem))
    case Swap(_) =>
      if s.mem == x.current then SetThread(s, t, Reserved(x.size)).(mem := x.current + x.size)
      else SetThread(s, t, Loading(x.size))
    case Push(_) =>
      if |s.queue| < s.cap then SetThread(s, t, Idle).(queue := s.queue + [x.size])
      else SetThread(s, t, Evicting(s.queue[0])).(queue := s.queue[1..] + [x.size])
    case PushFails(_) => SetThread(s, t, RollingBack(x.size))
  }

  function ReturnStep(s: State, step: Step): State
    requires Enabled(s, step) && !(step.Enqueue? || step.Load? || step.Swap? || step.Push? || step.PushFails?)
  {
    var t := step.t;
    var x := s.threads[t];
    match step
    case Rollback(_) => SetThread(s, t, Idle).(mem := s.mem - x.size)
    case SubtractEvicted(_) => SetThread(s, t, Idle).(mem := s.mem - x.victim)
    case Collect(_) => SetThread(s, t, Collecting([]))
    case Pop(_) => SetThread(s, t, Collecting(x.items + [s.queue[0]])).(queue := s.queue[1..])
    case EndBatch(_) => SetThread(s, t, Subtracting(x.items))
    case SubtractPopped(_) =>
      if x.items == [] then SetThread(s, t, Idle)
      else SetThread(s, t, Subtracting(x.items[1..])).(mem := s.mem - x.items[0])
  }

  function Next(s: State, step: Step): State {
    if !Enabled(s, step) then s
    else if step.Enqueue? || step.Load? || step.Swap? || step.Push? || step.PushFails? then ProducerStep(s, step)
    else ReturnStep(s, step)
  }

  function Init(limit: int, cap: nat, dropOldest: bool, threads: nat): State {
    State(limit, cap, dropOldest, 0, [], seq(threads, i => Idle))
  }

  function Exec(limit: int, cap: nat, dropOldest: bool, threads: nat, run: seq<Step>): State {
    if run == [] then Init(limit, cap, dropOldest, threads)
    else Next(Exec(limit, cap, dropOldest, threads, run[..|run| - 1]), run[|run| - 1])
  }

  // ---- the account ----

  function Total(sizes: seq<Size>): nat {
    if sizes == [] then 0 else sizes[0] + Total(sizes[1..])
  }

  lemma {:induction false} TotalAppend(sizes: seq<Size>, x: Size)
    ensures Total(sizes + [x]) == Total(sizes) + x
  {
    if sizes != [] {
      TotalAppend(sizes[1..], x);
      assert (sizes + [x])[1..] == sizes[1..] + [x];
    }
  }

  /** Bytes a goroutine has reserved and not pushed, or taken out and not subtracted. */
  function Held(x: Thread): nat {
    match x
    case Reserved(size) => size
    case RollingBack(size) => size
    case Evicting(size) => size
    case Collecting(items) => Total(items)
    case Subtracting(items) => Total(items)
    case _ => 0
  }

  function HeldByAll(threads: seq<Thread>): nat {
    if threads == [] then 0 else Held(threads[0]) + HeldByAll(threads[1..])
  }

  lemma {:induction false} HeldUpdate(threads: seq<Thread>, t: nat, x: Thread)
    requires t < |threads|
    ensures HeldByAll(threads[t := x]) == HeldByAll(threads) - Held(threads[t]) + Held(x)
  {
    if t == 0 {
      assert threads[0 := x][1..] == threads[1..];
    } else {
      HeldUpdate(threads[1..], t - 1, x);
      assert threads[t := x][1..] == threads[1..][t - 1 := x];
    }
  }

  predicate Balanced(s: State) {
    && s.mem == HeldByAll(s.threads) + Total(s.queue)
    && (s.mem <= s.limit || s.mem == 0)
    && forall t :: 0 <= t < |s.threads| && s.threads[t].Loaded? ==> s.threads[t].current + s.threads[t].size <= s.limit
  }

  lemma {:induction false} InitHolds(n: nat)
    ensures HeldByAll(seq(n, i => Idle)) == 0
  {
    if n > 0 {
      InitHolds(n - 1);
      assert seq(n, i => Idle)[1..] == seq(n - 1, i => Idle);
    }
  }

  lemma ProducerBalanced(s: State, step: Step)
    requires Balanced(s) && Enabled(s, step)
    requires step.Enqueue? || step.Load? || step.Swap? || step.Push? || step.PushFails?
    ensures Balanced(Next(s, step))
  {
    hide HeldByAll;
    var s' := Next(s, step);
    HeldUpdate(s.threads, step.t, s'.threads[step.t]);
    if step.Push? {
      TotalAppend(s.queue, s.threads[step.t].size);
      if |s.queue| >= s.cap { TotalAppend(s.queue[1..], s.threads[step.t].size); }
    }
  }

  lemma ReturnBalanced(s: State, step: Step)
    requires Balanced(s) && Enabled(s, step)
    requires !(step.Enqueue? || step.Load? || step.Swap? || step.Push? || step.PushFails?)
    ensures Balanced(Next(s, step))
  {
    hide HeldByAll;
    var s' := Next(s, step);
    HeldUpdate(s.threads, step.t, s'.threads[step.t]);
    if step.Pop? { TotalAppend(s.threads[step.t].items, s.queue[0]); }
  }

  lemma {:induction false} RunBalanced(limit: int, cap: nat, dropOldest: bool, threads: nat, run: seq<Step>)
    ensures Balanced(Exec(limit, cap, dropOldest, threads, run))
    ensures Exec(limit, cap, dropOldest, threads, run).limit == limit
    decreases |run|
  {
    if run == [] {
      InitHolds(threads);
    } else {
      var step := run[|run| - 1];
      var s := Exec(limit, cap, dropOldest, threads, run[..|run| - 1]);
      RunBalanced(limit, cap, dropOldest, threads, run[..|run| - 1]);
      if Enabled(s, step) {
        if step.Enqueue? || step.Load? || step.Swap? || step.Push? || step.PushFails? { ProducerBalanced(s, step); }
        else { ReturnBalanced(s, step); }
      }
    }
  }

  // ---- what the account promises ----

  /**
   In every run memUsage is the sizes of the metrics reserved but not pushed, plus those queued, plus those
   popped or evicted but not yet subtracted; it is never negative and never over a non-negative limit.
   */
  lemma MemoryIsAccounted(limit: nat, cap: nat, dropOldest: bool, threads: nat, run: seq<Step>)
    ensures var s := Exec(limit, cap, dropOldest, threads, run);
            s.mem == HeldByAll(s.threads) + Total(s.queue) && 0 <= s.mem <= limit
  {
    RunBalanced(limit, cap, dropOldest, threads, run);
  }

  lemma {:induction false} IdleHoldsNothing(threads: seq<Thread>)
    requires forall t :: 0 <= t < |threads| ==> threads[t].Idle?
    ensures HeldByAll(threads) == 0
  {
    if threads != [] { IdleHoldsNothing(threads[1..]); }
  }

  /** Nothing leaks: with an empty ring and nothing in flight the counter is back at zero. */
  lemma QuietMemory(limit: int, cap: nat, dropOldest: bool, threads: nat, run: seq<Step>)
    requires var s := Exec(limit, cap, dropOldest, threads, run);
             s.queue == [] && forall t :: 0 <= t < |s.threads| ==> s.threads[t].Idle?
    ensures Exec(limit, cap, dropOldest, threads, run).mem == 0
  {
    RunBalanced(limit, cap, dropOldest, threads, run);
    IdleHoldsNothing(Exec(limit, cap, dropOldest, threads, run).threads);
  }

  // ---- when a metric is refused ----

  /** Bytes reserved, queued, or taken out and not yet subtracted. */
  function Accounted(s: State): nat {
    HeldByAll(s.threads) + Total(s.queue)
  }

  /**
   A metric is refused for memory exactly when the accounted bytes and its size together exceed the limit; otherwise
   the producer goes on with the usage it saw.
   */
  lemma RefusedForMemoryIff(limit: int, cap: nat, dropOldest: bool, threads: nat, run: seq<Step>, t: nat)
    requires var s := Exec(limit, cap, dropOldest, threads, run); t < |s.threads| && s.threads[t].Loading?
    ensures var s := Exec(limit, cap, dropOldest, threads, run);
            var s', size := Next(s, Load(t)), s.threads[t].size;
            && s'.threads == s.threads[t := s'.threads[t]] && s'.mem == s.mem && s'.queue == s.queue
            && (s'.threads[t] == Idle <==> Accounted(s) + size > limit)
            && (s'.threads[t] != Idle ==> s'.threads[t] == Loaded(size, Accounted(s)))
  {
    RunBalanced(limit, cap, dropOldest, threads, run);
    hide HeldByAll, Total, Exec;
  }
}
