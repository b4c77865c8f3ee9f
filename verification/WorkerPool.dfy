/**
The bounded worker pool: a counter guarded by a condition variable. A caller of Do that finds all
workers busy sleeps on the condition; a finished job decrements the counter under the mutex and
signals after it has released it. Critical sections are single steps, and a caller that sleeps is
registered with the condition variable before it gives up the mutex.
*/
module WorkerPool {
  import opened Runs

  datatype Thread =
    | Arriving     // has called Do, not yet inside the mutex
    | Sleeping     // waits for a signal
    | Woken        // was signalled, has to take the mutex and test again
    | Running      // Do has returned, the job runs
    | Leaving      // the job is done, the counter is still to be decremented
    | Signalling   // decremented, the signal is still to be sent
    | Finished

  datatype State = State(maxWorkers: int, currentWorkers: int, threads: seq<Thread>)

  datatype Step =
    | Submit
    | Enter(i: nat)              // take the mutex, test the counter
    | Complete(i: nat)           // the job returns
    | Decrement(i: nat)
    | Signal(i: nat, w: nat)     // wakes w, any sleeping thread, or nobody if none sleeps

  /** The pool for a requested number of workers on a machine with `cpus` processors; zero means no limit. */
  function Init(requested: int, cpus: int): State {
    State(if requested <= -1 then cpus else requested, 0, [])
  }

  function Set(s: State, i: nat, t: Thread): State
    requires i < |s.threads|
  {
    s.(threads := s.threads[i := t])
  }

  predicate Sleeps(s: State, w: nat) {
    w < |s.threads| && s.threads[w].Sleeping?
  }

  function Next(s: State, t: Step): State {
    match t
    case Submit => s.(threads := s.threads + [Arriving])
    case Enter(i) =>
      if i >= |s.threads| || !(s.threads[i].Arriving? || s.threads[i].Woken?) then s
      else if s.maxWorkers <= 0 then Set(s, i, Running)
      else if s.currentWorkers >= s.maxWorkers then Set(s, i, Sleeping)
      else Set(s, i, Running).(currentWorkers := s.currentWorkers + 1)
    case Complete(i) =>
      if i < |s.threads| && s.threads[i].Running? then Set(s, i, if s.maxWorkers > 0 then Leaving else Finished) else s
    case Decrement(i) =>
      if i < |s.threads| && s.threads[i].Leaving?
          then Set(s, i, Signalling).(currentWorkers := s.currentWorkers - 1) else s
    case Signal(i, w) =>
      if i >= |s.threads| || !s.threads[i].Signalling? then s
      else if Sleeps(s, w) then Set(Set(s, i, Finished), w, Woken)
      else if exists v :: 0 <= v < |s.threads| && Sleeps(s, v) then s
      else Set(s, i, Finished)
  }

  /** The number of threads at a point of their work. */
  function Count(ts: seq<Thread>, t: Thread): nat {
    if ts == [] then 0 else Count(ts[..|ts| - 1], t) + if ts[|ts| - 1] == t then 1 else 0
  }

  lemma {:induction false} CountSet(ts: seq<Thread>, i: nat, x: Thread, t: Thread)
    requires i < |ts|
    ensures Count(ts[i := x], t) == Count(ts, t) + (if x == t then 1 else 0) - (if ts[i] == t then 1 else 0)
    decreases |ts|
  {
    var n := |ts| - 1;
    if i < n {
      CountSet(ts[..n], i, x, t);
      assert ts[i := x][..n] == ts[..n][i := x];
    } else {
      assert ts[i := x][..n] == ts[..n];
    }
  }

  lemma {:induction false} CountMember(ts: seq<Thread>, t: Thread)
    ensures Count(ts, t) > 0 <==> exists i :: 0 <= i < |ts| && ts[i] == t
    decreases |ts|
  {
    if ts != [] {
      var n := |ts| - 1;
      CountMember(ts[..n], t);
      if i :| 0 <= i < |ts| && ts[i] == t { assert i < n ==> ts[..n][i] == t; }
      if i :| 0 <= i < n && ts[..n][i] == t { assert ts[i] == t; }
    }
  }

  // ------------------------------------------------------------------ what every step keeps

  /**
  The counter is the number of jobs that hold a slot, never more than the limit; and while a caller
  sleeps, every free slot is matched by a signal to come or a woken caller.
  */
  ghost predicate Inv(s: State) {
    s.maxWorkers > 0 ==>
      && s.currentWorkers == Count(s.threads, Running) + Count(s.threads, Leaving)
      && s.currentWorkers <= s.maxWorkers
      && (Count(s.threads, Sleeping) > 0 ==>
            s.maxWorkers - s.currentWorkers <= Count(s.threads, Signalling) + Count(s.threads, Woken))
  }

  lemma SetCounts(ts: seq<Thread>, i: nat, x: Thread)
    requires i < |ts|
    ensures forall t :: Count(ts[i := x], t) == Count(ts, t) + (if x == t then 1 else 0) - (if ts[i] == t then 1 else 0)
  {
    forall t ensures Count(ts[i := x], t) == Count(ts, t) + (if x == t then 1 else 0) - (if ts[i] == t then 1 else 0) {
      CountSet(ts, i, x, t);
    }
  }

  lemma SignalKeepsInv(s: State, i: nat, w: nat)
    requires Inv(s) && i < |s.threads| && s.threads[i].Signalling?
    ensures Inv(Next(s, Signal(i, w)))
  {
    var ts := s.threads;
    SetCounts(ts, i, Finished);
    if Sleeps(s, w) {
      SetCounts(ts[i := Finished], w, Woken);
    } else if Count(ts, Sleeping) > 0 {
      CountMember(ts, Sleeping);
      var v :| 0 <= v < |ts| && ts[v] == Sleeping;
      assert Sleeps(s, v);
    }
  }

  lemma NextKeepsInv(s: State, t: Step)
    requires Inv(s)
    ensures Inv(Next(s, t))
  {
    if t.Submit? {
      assert (s.threads + [Arriving])[..|s.threads|] == s.threads;
    } else if t.i < |s.threads| && Next(s, t) != s {
      if t.Signal? {
        SignalKeepsInv(s, t.i, t.w);
      } else {
        SetCounts(s.threads, t.i, Next(s, t).threads[t.i]);
      }
    }
  }

  lemma RunKeepsInv(requested: int, cpus: int, steps: seq<Step>)
    ensures Inv(Run(Next, Init(requested, cpus), steps))
  {
    forall s, t | Inv(s) ensures Inv(Next(s, t)) { NextKeepsInv(s, t); }
    InvariantHolds(Next, Inv, Init(requested, cpus), steps);
  }

  // ------------------------------------------------------------------ results over all runs

  /** In every run no more jobs run at once than the pool allows. */
  lemma NeverMoreThanMax(requested: int, cpus: int, steps: seq<Step>)
    requires requested != 0 && cpus > 0
    ensures var s := Run(Next, Init(requested, cpus), steps);
            s.maxWorkers == (if requested <= -1 then cpus else requested) && Count(s.threads, Running) <= s.maxWorkers
  {
    RunKeepsInv(requested, cpus, steps);
    LimitIsKept(requested, cpus, steps);
  }

  /** No wakeup is lost: once no job is running and no signal or woken caller is under way, nobody sleeps. */
  lemma NobodySleepsForever(requested: int, cpus: int, steps: seq<Step>, i: nat)
    ensures var s := Run(Next, Init(requested, cpus), steps);
            && s.maxWorkers > 0
            && Count(s.threads, Running) == Count(s.threads, Leaving) == Count(s.threads, Signalling)
                == Count(s.threads, Woken) == 0
            ==> !Sleeps(s, i)
  {
    RunKeepsInv(requested, cpus, steps);
    CountMember(Run(Next, Init(requested, cpus), steps).threads, Sleeping);
  }

  /** What the pool was created for: its limit, and that without one nobody ever sleeps. */
  lemma LimitIsKept(requested: int, cpus: int, steps: seq<Step>)
    ensures var s := Run(Next, Init(requested, cpus), steps);
            && s.maxWorkers == (if requested <= -1 then cpus else requested)
            && (s.maxWorkers <= 0 ==> forall i :: 0 <= i < |s.threads| ==> !Sleeps(s, i))
  {
    var max := Init(requested, cpus).maxWorkers;
    InvariantHolds(Next, (s: State) => s.maxWorkers == max, Init(requested, cpus), steps);
    var s := Run(Next, Init(requested, cpus), steps);
    if s.maxWorkers <= 0 {
      forall i | 0 <= i < |s.threads| ensures !Sleeps(s, i) {
        if Sleeps(s, i) { UnlimitedNeverSleeps(requested, cpus, steps, i); }
      }
    }
  }

  /**
  In every run a caller that tests the counter gets its job started, and does not sleep, if and only if the
  pool was asked for no limit or fewer jobs than the limit hold a slot.
  */
  lemma StartsIff(requested: int, cpus: int, steps: seq<Step>, i: nat)
    requires cpus > 0
    requires var s := Run(Next, Init(requested, cpus), steps);
             i < |s.threads| && (s.threads[i].Arriving? || s.threads[i].Woken?)
    ensures var s := Run(Next, Init(requested, cpus), steps);
            var max := if requested <= -1 then cpus else requested;
            Next(s, Enter(i)).threads[i]
            == if requested == 0 || Count(s.threads, Running) + Count(s.threads, Leaving) < max
               then Running else Sleeping
  {
    RunKeepsInv(requested, cpus, steps);
    LimitIsKept(requested, cpus, steps);
  }

  // ---- every submitted job finishes

  /** How many steps a thread may still cause. */
  function Work(t: Thread): nat {
    match t
    case Arriving => 7
    case Woken => 6
    case Running => 5
    case Leaving => 4
    case Sleeping => 4
    case Signalling => 3
    case Finished => 0
  }

  function TotalWork(ts: seq<Thread>): nat {
    if ts == [] then 0 else TotalWork(ts[..|ts| - 1]) + Work(ts[|ts| - 1])
  }

  lemma {:induction false} WorkSet(ts: seq<Thread>, i: nat, x: Thread)
    requires i < |ts|
    ensures TotalWork(ts[i := x]) == TotalWork(ts) + Work(x) - Work(ts[i])
    decreases |ts|
  {
    var n := |ts| - 1;
    if i < n {
      WorkSet(ts[..n], i, x);
      assert ts[i := x][..n] == ts[..n][i := x];
    } else {
      assert ts[i := x][..n] == ts[..n];
    }
  }

  /** Every step that does something, other than a new submission, uses up work: no schedule goes on forever. */
  lemma StepsUseUpWork(s: State, t: Step)
    requires !t.Submit? && Next(s, t) != s
    ensures TotalWork(Next(s, t).threads) < TotalWork(s.threads)
  {
    var s' := Next(s, t);
    WorkSet(s.threads, t.i, s'.threads[t.i]);
    if t.Signal? && Sleeps(s, t.w) {
      WorkSet(s.threads[t.i := Finished], t.w, Woken);
    }
  }

  /** As long as some submitted job has not finished, some step can be taken. */
  lemma SomeStepIsEnabled(requested: int, cpus: int, steps: seq<Step>, i: nat) returns (t: Step)
    requires var s := Run(Next, Init(requested, cpus), steps); i < |s.threads| && !s.threads[i].Finished?
    ensures var s := Run(Next, Init(requested, cpus), steps); !t.Submit? && Next(s, t) != s
  {
    var s := Run(Next, Init(requested, cpus), steps);
    RunKeepsInv(requested, cpus, steps);
    var k := Awake(requested, cpus, steps, i);
    match s.threads[k]
    case Arriving | Woken => t := Enter(k);
    case Running => t := Complete(k);
    case Leaving => t := Decrement(k);
    case Signalling =>
      if w: nat :| Sleeps(s, w) {
        t := Signal(k, w);
      } else {
        t := Signal(k, 0);
      }
    assert Next(s, t).threads[k] != s.threads[k];
  }

  /** If a job has not finished, some thread is neither finished nor asleep. */
  lemma Awake(requested: int, cpus: int, steps: seq<Step>, i: nat) returns (k: nat)
    requires var s := Run(Next, Init(requested, cpus), steps); i < |s.threads| && !s.threads[i].Finished?
    ensures var s := Run(Next, Init(requested, cpus), steps);
            k < |s.threads| && !s.threads[k].Finished? && !s.threads[k].Sleeping?
  {
    var s := Run(Next, Init(requested, cpus), steps);
    RunKeepsInv(requested, cpus, steps);
    k := i;
    if s.threads[i].Sleeping? {
      UnlimitedNeverSleeps(requested, cpus, steps, i);
      NobodySleepsForever(requested, cpus, steps, i);
      CountMember(s.threads, Running);
      CountMember(s.threads, Leaving);
      CountMember(s.threads, Signalling);
      CountMember(s.threads, Woken);
      k :| k < |s.threads| && s.threads[k] in {Running, Leaving, Signalling, Woken};
    }
  }

  lemma UnlimitedNeverSleeps(requested: int, cpus: int, steps: seq<Step>, i: nat)
    requires Sleeps(Run(Next, Init(requested, cpus), steps), i)
    ensures Run(Next, Init(requested, cpus), steps).maxWorkers > 0
  {
    var inv := (s: State) => s.maxWorkers > 0 || forall k :: 0 <= k < |s.threads| ==>
        s.threads[k].Arriving? || s.threads[k].Running? || s.threads[k].Finished?;
    InvariantHolds(Next, inv, Init(requested, cpus), steps);
  }
}
