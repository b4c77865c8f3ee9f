/**
What must have happened before: who still holds the topic lock has failed to release it, who was cut short was
cancelled, a confirmed deletion succeeded, and a row changes only by way of its deletion. And what the mutex is
held for: while a goroutine signals, nothing is added.
*/
module StorageConsumerHistory {
  import opened Options
  import opened Runs
  import opened MessageStorage
  import opened StorageConsumer
  import L = Listener

  // ------------------------------------------------------------------ the topic lock

  /** The step is a release by consumer c that failed without effect. */
  predicate LeaksLock(t: Step, c: nat) {
    t.Unlock? && t.c == c && !t.freed
  }

  ghost predicate Leaked(steps: seq<Step>, c: nat) {
    exists i :: 0 <= i < |steps| && LeaksLock(steps[i], c)
  }

  /** The holder of the lock is working under it, or has failed to release it. */
  ghost predicate HolderOk(s: State, steps: seq<Step>) {
    s.lock.Some? ==>
      && s.lock.value < |s.consumers|
      && (Critical(s.consumers[s.lock.value].pc) || Leaked(steps, s.lock.value))
  }

  lemma MoreStepsKeepLeaked(steps: seq<Step>, t: Step, c: nat)
    ensures Leaked(steps, c) || LeaksLock(t, c) ==> Leaked(steps + [t], c)
  {
    if Leaked(steps, c) {
      var i :| 0 <= i < |steps| && LeaksLock(steps[i], c);
      assert LeaksLock((steps + [t])[i], c);
    } else if LeaksLock(t, c) {
      assert LeaksLock((steps + [t])[|steps|], c);
    }
  }

  /** A step of the holder keeps it at its work, or releases the lock, or fails to. */
  lemma HolderStep(s: State, t: Step, c: nat)
    requires !t.Store? && t.c == c && c < |s.consumers| && s.lock == Some(c) && NextLock(s, t, c) == Some(c)
    ensures Critical(s.consumers[c].pc) ==> Critical(NextConsumer(s, t, c).pc) || LeaksLock(t, c)
  {
    var x := s.consumers[c];
    if t.Lock? || t.CutShort? || t.Check? || t.Unlock? {
    } else if t.Find? {
      FindOutcome(x, t, s.rows, s.stores);
    } else if !t.Crash? && !t.Delete? {
      OwnStepShape(x, t);
    }
  }

  lemma NextKeepsHolder(s: State, steps: seq<Step>, t: Step)
    requires HolderOk(s, steps)
    ensures HolderOk(Next(s, t), steps + [t])
  {
    var s' := Next(s, t);
    if s'.lock.Some? {
      var c := s'.lock.value;
      MoreStepsKeepLeaked(steps, t, c);
      if t.Store? || t.c >= |s.consumers| {
      } else if s.lock == s'.lock {
        ConsumerAfter(s, t, c);
        if t.c == c { HolderStep(s, t, c); }
      } else {
        LockTaken(s, t, t.c);
      }
    }
  }

  lemma LockTaken(s: State, t: Step, c: nat)
    requires c < |s.consumers| && NextLock(s, t, c).Some? && NextLock(s, t, c) != s.lock
    ensures NextLock(s, t, c) == Some(c) && Critical(NextConsumer(s, t, c).pc)
  {
  }

  /**
  The lock is given back. In every run, whoever holds the topic lock is between taking and releasing it, or has
  made a release that failed without effect.
  */
  lemma {:induction false} LockIsGivenBack(rows: map<Id, Time>, consumers: seq<Consumer>, steps: seq<Step>)
    ensures var s := Run(Next, Init(rows, consumers), steps);
            s.lock.Some? ==>
              && s.lock.value < |s.consumers|
              && (Critical(s.consumers[s.lock.value].pc) || Leaked(steps, s.lock.value))
    decreases |steps|
  {
    if steps != [] {
      var n := |steps| - 1;
      LockIsGivenBack(rows, consumers, steps[..n]);
      NextKeepsHolder(Run(Next, Init(rows, consumers), steps[..n]), steps[..n], steps[n]);
      RunOneMore(Next, Init(rows, consumers), steps[..n], steps[n]);
      assert steps == steps[..n] + [steps[n]];
    }
  }

  // ------------------------------------------------------------------ the mutex

  /** While a goroutine is about to signal, no id is being processed, and no other goroutine is about to. */
  ghost predicate SignalOk(x: Consumer) {
    forall p :: p in x.acking && x.acking[p].ToSignal? ==>
      x.processing == {} && forall q :: q in x.acking && x.acking[q].ToSignal? ==> q == p
  }

  lemma AckStepKeepsSignal(x: Consumer, t: Step)
    requires SignalOk(x) && (t.Remove? || t.Signal?)
    ensures SignalOk(NextOwn(x, t))
  {
    if t.Remove? {
      if MutexFree(x) && t.p < |x.ids| { RemovedKeepsSignal(x, t.p); }
    } else {
      SignalledKeepsSignal(x, t.p);
    }
  }

  lemma RemovedKeepsSignal(x: Consumer, p: nat)
    requires MutexFree(x) && p < |x.ids|
    ensures SignalOk(Removed(x, p))
  {
  }

  lemma SignalledKeepsSignal(x: Consumer, p: nat)
    requires SignalOk(x)
    ensures SignalOk(Signalled(x, p))
  {
  }

  lemma OwnStepKeepsSignal(x: Consumer, t: Step)
    requires SignalOk(x)
    ensures SignalOk(NextOwn(x, t))
  {
    if t.Remove? || t.Signal? {
      AckStepKeepsSignal(x, t);
    } else {
      var d := NextOwn(x, t);
      assert d.acking == x.acking && (d.processing == x.processing || MutexFree(x));
    }
  }

  lemma TableStepKeepsSignal(x: Consumer, t: Step, rows: map<Id, Time>, stores: nat)
    requires SignalOk(x)
    ensures SignalOk(NextTable(x, t, rows, stores))
  {
  }

  lemma LockingStepKeepsSignal(x: Consumer, t: Step, lockFree: bool)
    requires SignalOk(x)
    ensures SignalOk(NextLocking(x, t, lockFree))
  {
  }

  ghost predicate SignalsOk(s: State) {
    forall c :: 0 <= c < |s.consumers| ==> SignalOk(s.consumers[c])
  }

  lemma NextKeepsSignals(s: State, t: Step)
    requires SignalsOk(s)
    ensures SignalsOk(Next(s, t))
  {
    forall c | 0 <= c < |Next(s, t).consumers| ensures SignalOk(Next(s, t).consumers[c]) {
      if t.Store? || t.c >= |s.consumers| {
        assert Next(s, t).consumers == s.consumers;
      } else {
        assert |Next(s, t).consumers| == |s.consumers|;
        ConsumerAfter(s, t, c);
        OwnStepKeepsSignal(s.consumers[c], t);
        TableStepKeepsSignal(s.consumers[c], t, s.rows, s.stores);
        LockingStepKeepsSignal(s.consumers[c], t, s.lock.None?);
      }
    }
  }

  /**
  In every run, from the removal of the last id to the signal that wakes the batch no id is added, and no second
  goroutine signals: that is what the mutex is held for.
  */
  lemma NothingIsAddedBeforeSignal(rows: map<Id, Time>, consumers: seq<Consumer>, steps: seq<Step>, c: nat, p: nat,
      q: nat)
    requires AllNew(consumers)
    ensures var s := Run(Next, Init(rows, consumers), steps);
            c < |s.consumers| && p in s.consumers[c].acking && s.consumers[c].acking[p].ToSignal? ==>
              && s.consumers[c].processing == {}
              && (q in s.consumers[c].acking && s.consumers[c].acking[q].ToSignal? ==> q == p)
  {
    forall s, t | SignalsOk(s) ensures SignalsOk(Next(s, t)) { NextKeepsSignals(s, t); }
    forall c | 0 <= c < |consumers| ensures SignalOk(consumers[c]) {
      var size, slots :| consumers[c] == NewConsumer(size, slots);
    }
    InvariantHolds(Next, SignalsOk, Init(rows, consumers), steps);
  }

  // ------------------------------------------------------------------ cancellation

  lemma ListenKeepsCancelled(l: L.State, t: L.Step)
    ensures l.cancelled ==> L.Next(l, t).cancelled
  {
    match t
    case TakeToken | Receive(_) | AddProcessing | StopWorker(_) | Cancel =>
    case _ => if t.p < |l.procs| { L.ProcStepShape(l, t, t.p); }
  }

  ghost predicate CutFits(x: Consumer) {
    x.cut ==> x.l.cancelled
  }

  lemma OwnStepKeepsCut(x: Consumer, t: Step)
    requires CutFits(x)
    ensures CutFits(NextOwn(x, t))
  {
    OwnStepKeepsHistory(x, t);
    if t.Listen? {
      ListenKeepsCancelled(x.l, t.t);
    } else if t.Remove? || t.Signal? {
      ListenKeepsCancelled(x.l, L.BrokerAnswer(t.p, true));
    }
  }

  lemma OtherStepKeepsCut(s: State, t: Step, c: nat)
    requires c < |s.consumers| && CutFits(s.consumers[c])
    ensures CutFits(NextConsumer(s, t, c))
  {
    var x := s.consumers[c];
    if t.Find? {
      FindOutcome(x, t, s.rows, s.stores);
    } else if !t.Lock? && !t.CutShort? && !t.Check? && !t.Unlock? && !t.Crash? && !t.Delete? {
      OwnStepKeepsCut(x, t);
    }
  }

  ghost predicate CutsOk(s: State) {
    forall c :: 0 <= c < |s.consumers| ==> CutFits(s.consumers[c])
  }

  lemma NextKeepsCuts(s: State, t: Step)
    requires CutsOk(s)
    ensures CutsOk(Next(s, t))
  {
    forall c | 0 <= c < |Next(s, t).consumers| ensures CutFits(Next(s, t).consumers[c]) {
      SameConsumers(s, t);
      ConsumerAfter(s, t, c);
      OtherStepKeepsCut(s, t, c);
    }
  }

  lemma SameConsumers(s: State, t: Step)
    ensures |Next(s, t).consumers| == |s.consumers|
  {
  }

  /** In every run a batch was cut short only in a consumer whose listener was cancelled. */
  lemma CutOnlyIfCancelled(rows: map<Id, Time>, consumers: seq<Consumer>, steps: seq<Step>, c: nat)
    requires AllNew(consumers)
    ensures var s := Run(Next, Init(rows, consumers), steps);
            c < |s.consumers| && s.consumers[c].cut ==> s.consumers[c].l.cancelled
  {
    forall s, t | CutsOk(s) ensures CutsOk(Next(s, t)) { NextKeepsCuts(s, t); }
    forall c | 0 <= c < |consumers| ensures CutFits(consumers[c]) {
      var size, slots :| consumers[c] == NewConsumer(size, slots);
    }
    InvariantHolds(Next, CutsOk, Init(rows, consumers), steps);
  }

  // ------------------------------------------------------------------ deletions

  /** Every confirmed copy, and so every one whose id is being removed, had a deletion that reported success. */
  ghost predicate ConfirmedByDelete(s: State, steps: seq<Step>) {
    forall c, p :: 0 <= c < |s.consumers| && p in s.consumers[c].confirmed ==> Delete(c, p, true, true) in steps
  }

  lemma ConfirmedStep(s: State, t: Step, c: nat, p: nat)
    requires !t.Store? && t.c == c && c < |s.consumers| && p in NextConsumer(s, t, c).confirmed
    ensures p in s.consumers[c].confirmed || t == Delete(c, p, true, true)
  {
    var x := s.consumers[c];
    if t.Find? {
      FindOutcome(x, t, s.rows, s.stores);
    } else if !t.Lock? && !t.CutShort? && !t.Check? && !t.Unlock? && !t.Crash? && !t.Delete? {
      OwnStepKeepsHistory(x, t);
    }
  }

  lemma {:induction false} ConfirmedOnlyIfDeleted(rows: map<Id, Time>, consumers: seq<Consumer>, steps: seq<Step>)
    requires AllNew(consumers)
    ensures ConfirmedByDelete(Run(Next, Init(rows, consumers), steps), steps)
    decreases |steps|
  {
    if steps == [] {
      forall c | 0 <= c < |consumers| ensures consumers[c].confirmed == map[] {
        var size, slots :| consumers[c] == NewConsumer(size, slots);
      }
    } else {
      var n := |steps| - 1;
      var s, t := Run(Next, Init(rows, consumers), steps[..n]), steps[n];
      ConfirmedOnlyIfDeleted(rows, consumers, steps[..n]);
      RunOneMore(Next, Init(rows, consumers), steps[..n], t);
      assert steps == steps[..n] + [t];
      SameConsumers(s, t);
      forall c, p | 0 <= c < |s.consumers| && p in Next(s, t).consumers[c].confirmed
          ensures Delete(c, p, true, true) in steps {
        ConsumerAfter(s, t, c);
        if !t.Store? && t.c == c { ConfirmedStep(s, t, c, p); }
      }
    }
  }

  /**
  In every run a goroutine that has its id removed and answers the queue has had a deletion of its row that
  succeeded: after one that reported an error it goes on trying.
  */
  lemma AcknowledgedOnlyIfDeleted(rows: map<Id, Time>, consumers: seq<Consumer>, steps: seq<Step>, c: nat, p: nat)
    requires AllNew(consumers)
    ensures var s := Run(Next, Init(rows, consumers), steps);
            c < |s.consumers| && p in s.consumers[c].acking ==> Delete(c, p, true, true) in steps
  {
    ConfirmedOnlyIfDeleted(rows, consumers, steps);
    RunKeepsInv(rows, consumers, steps);
    var s := Run(Next, Init(rows, consumers), steps);
    if c < |s.consumers| && p in s.consumers[c].acking { assert Aligned(s.consumers[c]); }
  }

  // ------------------------------------------------------------------ rows

  ghost predicate ThereAllAlong(s: State, steps: seq<Step>, id: Id) {
    forall k :: 0 <= k <= |steps| ==> IsThere(s, steps[..k], id)
  }

  predicate IsThere(s: State, steps: seq<Step>, id: Id) {
    id in Run(Next, s, steps).rows
  }

  /** A row that is there all along keeps its schedule, whatever is stored under its id meanwhile. */
  lemma {:induction false} RowStays(s: State, steps: seq<Step>, id: Id)
    requires id in s.rows && id in s.copies && ThereAllAlong(s, steps, id)
    ensures var s' := Run(Next, s, steps);
            id in s'.rows && id in s'.copies && s'.rows[id] == s.rows[id] && s'.copies[id] == s.copies[id]
    decreases |steps|
  {
    if steps == [] {
    } else {
      var n := |steps| - 1;
      var r := Run(Next, s, steps[..n]);
      forall k | 0 <= k <= n ensures IsThere(s, steps[..n][..k], id) {
        assert steps[..n][..k] == steps[..k];
        assert IsThere(s, steps[..k], id);
      }
      RowStays(s, steps[..n], id);
      RunOneMore(Next, s, steps[..n], steps[n]);
      assert steps == steps[..n] + [steps[n]];
      assert steps[..|steps|] == steps && IsThere(s, steps[..|steps|], id);
      RowStep(r, steps[n], id);
    }
  }

  lemma RowStep(s: State, t: Step, id: Id)
    requires id in s.rows && id in s.copies && id in Next(s, t).rows
    ensures id in Next(s, t).copies && Next(s, t).rows[id] == s.rows[id] && Next(s, t).copies[id] == s.copies[id]
  {
  }
}
