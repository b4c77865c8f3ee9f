/**
The end of the batch loop: what is left in the table when a consumer's worker goes back to waiting for its
signal, and a run in which one signal is enough to drain any table.
*/
module StorageConsumerDrain {
  import opened Options
  import opened Runs
  import opened MessageStorage
  import opened StorageConsumer
  import T = StorageConsumerTraces
  import L = Listener

  // ------------------------------------------------------------------ every run

  /** Of what was due at the last query, only rows that were stored after it are left. */
  ghost predicate NoneLeft(x: Consumer, rows: map<Id, Time>, copies: map<Id, nat>) {
    forall id :: id in x.due && id in rows ==> id in copies && copies[id] >= x.foundAt
  }

  ghost predicate IdleOk(x: Consumer, rows: map<Id, Time>, copies: map<Id, nat>) {
    && (x.pc == Unlocking(Failed) ==> x.failed)
    && (x.pc.Idle? && !x.cut && !x.failed ==> NoneLeft(x, rows, copies))
  }

  ghost predicate AllIdleOk(s: State) {
    forall c :: 0 <= c < |s.consumers| ==> IdleOk(s.consumers[c], s.rows, s.copies)
  }

  lemma FewerRowsKeepIdle(x: Consumer, rows: map<Id, Time>, rows': map<Id, Time>, copies: map<Id, nat>)
    requires IdleOk(x, rows, copies) && rows'.Keys <= rows.Keys
    ensures IdleOk(x, rows', copies)
  {
  }

  lemma StoreKeepsIdle(x: Consumer, rows: map<Id, Time>, copies: map<Id, nat>, stores: nat, id: Id, at: Time)
    requires IdleOk(x, rows, copies) && ConfirmedOk(x, rows, copies, stores)
    ensures IdleOk(x, rows[id := at], copies[id := stores])
  {
  }

  /** The worker leaves its loop. */
  lemma UnlockKeepsIdle(x: Consumer, t: Step, lockFree: bool, rows: map<Id, Time>, copies: map<Id, nat>, stores: nat)
    requires BatchOk(x) && ConfirmedOk(x, rows, copies, stores) && IdleOk(x, rows, copies) && t.Unlock?
    ensures IdleOk(NextLocking(x, t, lockFree), rows, copies)
  {
    if !x.cut && x.pc == Unlocking(Passed(false)) {
      forall id | id in x.due && id in rows ensures id in copies && copies[id] >= x.foundAt {
        DueIsDeleted(x, rows, copies, stores, id);
      }
    } else {
      assert DrainOk(x);
    }
  }

  lemma LockingKeepsIdle(x: Consumer, t: Step, lockFree: bool, rows: map<Id, Time>, copies: map<Id, nat>)
    requires IdleOk(x, rows, copies) && !t.Unlock?
    ensures IdleOk(NextLocking(x, t, lockFree), rows, copies)
  {
  }

  lemma TableKeepsIdle(x: Consumer, t: Step, rows: map<Id, Time>, copies: map<Id, nat>, stores: nat)
    requires IdleOk(x, rows, copies)
    ensures IdleOk(NextTable(x, t, rows, stores), rows, copies)
  {
    if t.Find? { FindOutcome(x, t, rows, stores); }
  }

  lemma OwnKeepsIdle(x: Consumer, t: Step, rows: map<Id, Time>, copies: map<Id, nat>)
    requires IdleOk(x, rows, copies)
    ensures IdleOk(NextOwn(x, t), rows, copies)
  {
    var d := NextOwn(x, t);
    OwnStepShape(x, t);
    OwnStepPlace(x, t);
    if d.pc == x.pc { OwnStepKeepsDue(x, t); }
  }

  lemma OwnStepKeepsDue(x: Consumer, t: Step)
    requires NextOwn(x, t).pc == x.pc
    ensures var d := NextOwn(x, t); d.due == x.due && d.foundAt == x.foundAt && d.failed == x.failed
  {
    if t.Remove? || t.Signal? { AckStepKeepsHistory(x, t); }
  }

  lemma StepKeepsIdle(s: State, t: Step, c: nat)
    requires Inv(s) && AllIdleOk(s) && c < |s.consumers|
    ensures IdleOk(NextConsumer(s, t, c), s.rows, s.copies)
  {
    var x := s.consumers[c];
    assert BatchOk(x) && ConfirmedOk(x, s.rows, s.copies, s.stores) && IdleOk(x, s.rows, s.copies);
    if t.Unlock? {
      UnlockKeepsIdle(x, t, s.lock.None?, s.rows, s.copies, s.stores);
    } else if t.Lock? || t.CutShort? || t.Check? {
      LockingKeepsIdle(x, t, s.lock.None?, s.rows, s.copies);
    } else if t.Crash? || t.Find? || t.Delete? {
      TableKeepsIdle(x, t, s.rows, s.copies, s.stores);
    } else {
      OwnKeepsIdle(x, t, s.rows, s.copies);
    }
  }

  lemma NextKeepsIdle(s: State, t: Step)
    requires Inv(s) && AllIdleOk(s)
    ensures AllIdleOk(Next(s, t))
  {
    var s' := Next(s, t);
    forall c | 0 <= c < |s'.consumers| ensures IdleOk(s'.consumers[c], s'.rows, s'.copies) {
      if t.Store? {
        assert ConfirmedOk(s.consumers[c], s.rows, s.copies, s.stores) && IdleOk(s.consumers[c], s.rows, s.copies);
        StoreKeepsIdle(s.consumers[c], s.rows, s.copies, s.stores, t.id, t.at);
      } else {
        OneStepKeepsIdle(s, t, c);
      }
    }
  }

  lemma OneStepKeepsIdle(s: State, t: Step, c: nat)
    requires Inv(s) && AllIdleOk(s) && !t.Store? && c < |Next(s, t).consumers|
    ensures var s' := Next(s, t); IdleOk(s'.consumers[c], s'.rows, s'.copies)
  {
    var s' := Next(s, t);
    ConsumerAfter(s, t, c);
    TableAfter(s, t);
    if t.c == c { StepKeepsIdle(s, t, c); }
    assert IdleOk(s'.consumers[c], s.rows, s.copies);
    FewerRowsKeepIdle(s'.consumers[c], s.rows, s'.rows, s.copies);
  }

  lemma TableAfter(s: State, t: Step)
    requires !t.Store?
    ensures Next(s, t).copies == s.copies && Next(s, t).rows.Keys <= s.rows.Keys
  {
  }

  /**
  In every run, once the worker of a consumer that was never cut short has left its loop without an error (no
  failed lock, query or release since it was woken), no row that was due at its last query is left: a row with
  such an id was stored after that query.
  */
  lemma DrainedWhenDone(rows: map<Id, Time>, consumers: seq<Consumer>, steps: seq<Step>, c: nat, id: Id)
    requires AllNew(consumers)
    ensures var s := Run(Next, Init(rows, consumers), steps);
            && c < |s.consumers| && s.consumers[c].pc.Idle? && !s.consumers[c].cut && !s.consumers[c].failed
            && id in s.consumers[c].due && id in s.rows
            ==> id in s.copies && s.copies[id] >= s.consumers[c].foundAt
  {
    var inv := (s: State) => Inv(s) && AllIdleOk(s);
    forall s, t | inv(s) ensures inv(Next(s, t)) {
      NextKeepsInv(s, t);
      NextKeepsIdle(s, t);
    }
    RunKeepsInv(rows, consumers, []);
    InvariantHolds(Next, inv, Init(rows, consumers), steps);
    var s := Run(Next, Init(rows, consumers), steps);
    if c < |s.consumers| { assert IdleOk(s.consumers[c], s.rows, s.copies); }
  }

  // ------------------------------------------------------------------ one signal drains the table

  /** The signal came once, before everything else. */
  predicate WokenOnce(steps: seq<Step>) {
    steps != [] && steps[0] == Wake(0) && forall i :: 1 <= i < |steps| ==> !steps[i].Wake?
  }

  /** A listener with one slot whose goroutines have all returned. */
  function Resting(procs: seq<L.Proc>): L.State {
    L.State(L.AckOnly, L.Direct(L.A.Spec(1, {}, 1, false)), L.AwaitToken, procs, false)
  }

  /** And with one more goroutine at work, on the next copy. */
  function Working(procs: seq<L.Proc>, x: L.Proc): L.State {
    L.State(L.AckOnly, L.Direct(L.A.Spec(1, {|procs|}, 0, false)), L.AwaitToken, procs + [x], false)
  }

  function Job(n: nat, pc: L.Pc, rounds: seq<seq<bool>>): L.Proc {
    L.Proc(n, L.Handle(1), pc, rounds, [])
  }

  function DoneJob(n: nat): L.Proc {
    L.Proc(n, L.Handle(1), L.Returned(true), [[true]], [true])
  }

  /** A consumer with batches of one message, a resting listener and nothing in process. */
  predicate Rested(x: Consumer) {
    && x.size == 1 && x.processing == {} && x.processedCount == 0 && x.acking == map[] && !x.failed
    && x.l == Resting(x.l.procs) && |x.l.procs| == |x.ids|
  }

  /** The lock is taken and one message found. */
  lemma Query(z: State, steps0: seq<Step>, s0: State, x: Consumer, now: Time, found: seq<Id>)
      returns (steps: seq<Step>, s: State)
    requires s0 == Run(Next, z, steps0) && WokenOnce(steps0) && s0.consumers == [x] && s0.lock.None?
    requires x.pc.Locking? && x.processing == {} && IsFound(s0.rows, {}, now, x.size, found)
    ensures s == Run(Next, z, steps) && WokenOnce(steps)
    ensures s == s0.(lock := Some(0),
                     consumers := [Found(x.(pc := Finding({})), s0.rows, s0.stores, now, found)])
  {
    steps, s := T.Then(z, steps0, s0, Lock(0, true));
    assert s == s0.(lock := Some(0), consumers := [x.(pc := Excluding)]) by {
      assert NextConsumer(s0, Lock(0, true), 0) == x.(pc := Excluding);
      assert s0.consumers[0 := x.(pc := Excluding)] == [x.(pc := Excluding)];
    }
    steps, s := T.ThenOwn(z, steps, s, Exclude(0), x.(pc := Finding({})));
    steps, s := ThenFind(z, steps, s, x.(pc := Finding({})), now, found);
  }

  lemma ThenFind(z: State, steps0: seq<Step>, s0: State, x: Consumer, now: Time, found: seq<Id>)
      returns (steps: seq<Step>, s: State)
    requires s0 == Run(Next, z, steps0) && WokenOnce(steps0) && s0.consumers == [x]
    requires x.pc == Finding({}) && IsFound(s0.rows, {}, now, x.size, found)
    ensures s == Run(Next, z, steps) && WokenOnce(steps)
    ensures s == s0.(consumers := [Found(x, s0.rows, s0.stores, now, found)])
  {
    var y := Found(x, s0.rows, s0.stores, now, found);
    assert NextConsumer(s0, Find(0, true, now, found), 0) == y;
    assert s0.consumers[0 := y] == [y];
    steps, s := T.Then(z, steps0, s0, Find(0, true, now, found));
  }

  /** The consumer after its message was handed over and added, waiting. */
  function Handed(x: Consumer, id: Id): Consumer {
    x.(pc := Checking, sent := 1, ids := x.ids + [id], processing := {id}, processedCount := 1,
       l := Working(x.l.procs, L.Proc(|x.ids|, L.Skip, L.Deciding, [], [])))
  }

  lemma TakesAndAdds(procs: seq<L.Proc>)
    ensures var n := |procs|;
            var l := Resting(procs).(queue := L.Direct(L.A.Spec(1, {}, 0, false)), worker := L.AwaitMessage);
            && L.Next(Resting(procs), L.TakeToken) == l
            && L.Next(l.(worker := L.Worker.Adding(n)), L.AddProcessing)
               == Working(procs, L.Proc(n, L.Skip, L.Deciding, [], []))
  {
    assert {} + {|procs|} == {|procs|};
  }

  lemma HandOver(z: State, steps0: seq<Step>, s0: State, x: Consumer, id: Id) returns (steps: seq<Step>, s: State)
    requires s0 == Run(Next, z, steps0) && WokenOnce(steps0) && s0.consumers == [x]
    requires Rested(x) && x.pc.Sending? && x.sent == 0 && x.batch == [id]
    ensures s == Run(Next, z, steps) && WokenOnce(steps) && s == s0.(consumers := [Handed(x, id)])
  {
    TakesAndAdds(x.l.procs);
    var l := x.l.(queue := L.Direct(L.A.Spec(1, {}, 0, false)), worker := L.AwaitMessage);
    steps, s := T.ThenListen(z, steps0, s0, L.TakeToken, l);
    var y := Sent(x.(l := l));
    steps, s := T.ThenOwn(z, steps, s, Send(0), y);
    var l' := Handed(x, id).l;
    steps, s := T.ThenListen(z, steps, s, L.AddProcessing, l');
    steps, s := AddAndWait(z, steps, s, y.(l := l'), id);
    assert s.consumers[0] == Handed(x, id);
  }

  lemma AddAndWait(z: State, steps0: seq<Step>, s0: State, x: Consumer, id: Id) returns (steps: seq<Step>, s: State)
    requires s0 == Run(Next, z, steps0) && WokenOnce(steps0) && s0.consumers == [x]
    requires x.pc.Adding? && x.sent == 0 && x.batch == [id] && x.processing == {} && x.acking == map[]
    ensures s == Run(Next, z, steps) && WokenOnce(steps)
    ensures s == s0.(consumers := [x.(pc := Checking, sent := 1, processing := {id}, processedCount := 1)])
  {
    assert {} + {id} == {id};
    var y := x.(pc := Sending, sent := 1, processing := {id}, processedCount := 1);
    steps, s := T.ThenOwn(z, steps0, s0, AddToProcessing(0), y);
    steps, s := T.ThenOwn(z, steps, s, EnterWait(0), y.(pc := Checking));
  }

  lemma Rounds(procs: seq<L.Proc>)
    ensures var n := |procs|;
            && L.Next(Working(procs, L.Proc(n, L.Skip, L.Deciding, [], [])), L.Decide(n, L.Handle(1)))
               == Working(procs, Job(n, L.Looping, []))
            && L.Next(Working(procs, Job(n, L.Looping, [])), L.Enter(n)) == Working(procs, Job(n, L.Handling, []))
            && L.Next(Working(procs, Job(n, L.Handling, [])), L.FinishRound(n, [true]))
               == Working(procs, Job(n, L.Acking(true), [[true]]))
  {
    SetLast(procs, L.Proc(|procs|, L.Skip, L.Deciding, [], []), Job(|procs|, L.Looping, []));
    SetLast(procs, Job(|procs|, L.Looping, []), Job(|procs|, L.Handling, []));
    SetLast(procs, Job(|procs|, L.Handling, []), Job(|procs|, L.Acking(true), [[true]]));
    var none: seq<seq<bool>> := [];
    assert none + [[true]] == [[true]];
  }

  lemma SetLast(procs: seq<L.Proc>, x: L.Proc, y: L.Proc)
    ensures L.SetProc(Working(procs, x), |procs|, y) == Working(procs, y)
  {
    assert (procs + [x])[|procs| := y] == procs + [y];
  }

  /** All handlers of the message return nil. */
  lemma HandleIt(z: State, steps0: seq<Step>, s0: State, x: Consumer, procs: seq<L.Proc>)
      returns (steps: seq<Step>, s: State)
    requires s0 == Run(Next, z, steps0) && WokenOnce(steps0) && s0.consumers == [x] && x.acking == map[]
    requires x.l == Working(procs, L.Proc(|procs|, L.Skip, L.Deciding, [], []))
    ensures s == Run(Next, z, steps) && WokenOnce(steps)
    ensures s == s0.(consumers := [x.(l := Working(procs, Job(|procs|, L.Acking(true), [[true]])))])
  {
    var n := |procs|;
    Rounds(procs);
    steps, s := T.ThenListen(z, steps0, s0, L.Decide(n, L.Handle(1)), Working(procs, Job(n, L.Looping, [])));
    steps, s := T.ThenListen(z, steps, s, L.Enter(n), Working(procs, Job(n, L.Handling, [])));
    steps, s := T.ThenListen(z, steps, s, L.FinishRound(n, [true]),
                           Working(procs, Job(n, L.Acking(true), [[true]])));
  }

  /** Its row is deleted. */
  lemma DeleteRowOf(z: State, steps0: seq<Step>, s0: State, x: Consumer, p: nat)
      returns (steps: seq<Step>, s: State)
    requires s0 == Run(Next, z, steps0) && WokenOnce(steps0) && s0.consumers == [x] && CanDelete(x, p)
    ensures s == Run(Next, z, steps) && WokenOnce(steps)
    ensures s.rows == s0.rows - {x.ids[p]} && s.lock == s0.lock && s.consumers == [Confirm(x, p, s0.stores)]
  {
    var y := Confirm(x, p, s0.stores);
    assert NextConsumer(s0, Delete(0, p, true, true), 0) == y;
    assert s0.consumers[0 := y] == [y];
    steps, s := T.Then(z, steps0, s0, Delete(0, p, true, true));
  }

  lemma Releases(procs: seq<L.Proc>)
    ensures var n := |procs|;
            && L.Next(Working(procs, Job(n, L.Acking(true), [[true]])), L.BrokerAnswer(n, true))
               == Working(procs, Job(n, L.Releasing(true), [[true]]))
            && L.Next(Working(procs, Job(n, L.Releasing(true), [[true]])), L.Release(n))
               == Resting(procs + [DoneJob(n)])
  {
    var n := |procs|;
    SetLast(procs, Job(n, L.Acking(true), [[true]]), Job(n, L.Releasing(true), [[true]]));
    SetLast(procs, Job(n, L.Releasing(true), [[true]]), DoneJob(n));
    assert {n} - {n} == {};
    var none: seq<bool> := [];
    assert none + [true] == [true];
  }

  /** Its id is removed, the batch woken and the listener's slot given back. */
  lemma Finishes(z: State, steps0: seq<Step>, s0: State, x: Consumer, procs: seq<L.Proc>)
      returns (steps: seq<Step>, s: State)
    requires s0 == Run(Next, z, steps0) && WokenOnce(steps0) && s0.consumers == [x] && x.pc.Checking?
    requires |x.ids| == |procs| + 1 && x.acking == map[|procs| := ToRemove] && x.processing == {x.ids[|procs|]}
    requires x.l == Working(procs, Job(|procs|, L.Acking(true), [[true]]))
    ensures s == Run(Next, z, steps) && WokenOnce(steps)
    ensures s == s0.(consumers := [x.(processing := {}, processedCount := 0, acking := map[],
                                      l := Resting(procs + [DoneJob(|procs|)]))])
  {
    var n := |procs|;
    var y := x.(processing := {}, processedCount := 0, acking := map[n := ToSignal]);
    RemovesLast(x, n);
    steps, s := T.ThenOwn(z, steps0, s0, Remove(0, n), y);
    steps, s := SignalAndRelease(z, steps, s, y, procs);
  }

  lemma RemovesLast(x: Consumer, n: nat)
    requires n < |x.ids| && x.acking == map[n := ToRemove] && x.processing == {x.ids[n]}
    ensures NextOwn(x, Remove(0, n)) == x.(processing := {}, processedCount := 0, acking := map[n := ToSignal])
  {
    assert x.processing - {x.ids[n]} == {};
    assert x.acking[n := ToSignal] == map[n := ToSignal];
  }

  lemma SignalAndRelease(z: State, steps0: seq<Step>, s0: State, x: Consumer, procs: seq<L.Proc>)
      returns (steps: seq<Step>, s: State)
    requires s0 == Run(Next, z, steps0) && WokenOnce(steps0) && s0.consumers == [x] && x.pc.Checking?
    requires x.acking == map[|procs| := ToSignal]
    requires x.l == Working(procs, Job(|procs|, L.Acking(true), [[true]]))
    ensures s == Run(Next, z, steps) && WokenOnce(steps)
    ensures s == s0.(consumers := [x.(acking := map[], l := Resting(procs + [DoneJob(|procs|)]))])
  {
    var n := |procs|;
    Releases(procs);
    assert x.acking - {n} == map[];
    var w := x.(acking := map[], l := Working(procs, Job(n, L.Releasing(true), [[true]])));
    assert Signalled(x, n) == w;
    steps, s := T.ThenOwn(z, steps0, s0, Signal(0, n), w);
    steps, s := T.ThenListen(z, steps, s, L.Release(n), Resting(procs + [DoneJob(n)]));
  }

  /** The batch passes its wait and the lock is released; the batch was full, so the loop goes round again. */
  lemma PassAndUnlock(z: State, steps0: seq<Step>, s0: State, x: Consumer) returns (steps: seq<Step>, s: State)
    requires s0 == Run(Next, z, steps0) && WokenOnce(steps0) && s0.consumers == [x]
    requires x.pc.Checking? && x.processedCount == 0 && |x.batch| == x.size && !x.failed
    ensures s == Run(Next, z, steps) && WokenOnce(steps)
    ensures s == s0.(consumers := [x.(pc := Locking, leftover := false)], lock := None, passes := s0.passes + 1)
  {
    var y := x.(pc := Unlocking(Passed(true)), leftover := false);
    assert NextConsumer(s0, Check(0), 0) == y;
    assert s0.consumers[0 := y] == [y];
    steps, s := T.Then(z, steps0, s0, Check(0));
    steps, s := ThenUnlock(z, steps, s, y, y.(pc := Locking));
  }

  lemma ThenUnlock(z: State, steps0: seq<Step>, s0: State, x: Consumer, y: Consumer)
      returns (steps: seq<Step>, s: State)
    requires s0 == Run(Next, z, steps0) && WokenOnce(steps0) && s0.consumers == [x]
    requires x.pc.Unlocking? && NextLocking(x, Unlock(0, true, true), s0.lock.None?) == y
    ensures s == Run(Next, z, steps) && WokenOnce(steps) && s == s0.(consumers := [y], lock := None)
  {
    assert s0.consumers[0 := y] == [y];
    steps, s := T.Then(z, steps0, s0, Unlock(0, true, true));
  }

  /** One turn of the loop takes one row off the table. */
  lemma OneTurn(z: State, steps0: seq<Step>, s0: State, x: Consumer, now: Time, id: Id)
      returns (steps: seq<Step>, s: State)
    requires s0 == Run(Next, z, steps0) && WokenOnce(steps0) && s0.consumers == [x] && s0.lock.None?
    requires Rested(x) && x.pc.Locking? && IsFound(s0.rows, {}, now, 1, [id])
    ensures s == Run(Next, z, steps) && WokenOnce(steps) && s.rows == s0.rows - {id} && s.lock.None?
    ensures |s.consumers| == 1 && Rested(s.consumers[0]) && s.consumers[0].pc.Locking?
    ensures s.consumers[0].ids == x.ids + [id]
  {
    steps, s := Query(z, steps0, s0, x, now, [id]);
    var y := s.consumers[0];
    steps, s := HandOver(z, steps, s, y, id);
    steps, s := HandleIt(z, steps, s, s.consumers[0], y.l.procs);
    steps, s := DeleteRowOf(z, steps, s, s.consumers[0], |y.ids|);
    steps, s := Finishes(z, steps, s, s.consumers[0], y.l.procs);
    steps, s := PassAndUnlock(z, steps, s, s.consumers[0]);
  }

  /** With nothing left the worker leaves its loop. */
  lemma LastTurn(z: State, steps0: seq<Step>, s0: State, x: Consumer, now: Time)
      returns (steps: seq<Step>, s: State)
    requires s0 == Run(Next, z, steps0) && WokenOnce(steps0) && s0.consumers == [x] && s0.lock.None?
    requires Rested(x) && x.pc.Locking? && s0.rows == map[]
    ensures s == Run(Next, z, steps) && WokenOnce(steps) && s.rows == map[] && s.lock.None?
    ensures |s.consumers| == 1 && Rested(s.consumers[0]) && s.consumers[0].pc.Idle? && s.consumers[0].ids == x.ids
  {
    steps, s := Query(z, steps0, s0, x, now, []);
    var y := s.consumers[0];
    steps, s := ThenUnlock(z, steps, s, y, y.(pc := Idle));
  }

  predicate AllDue(rows: map<Id, Time>, now: Time) {
    forall id :: id in rows ==> rows[id] <= now
  }

  /** The worker is about to take the lock, with nothing in process. */
  predicate AtTurn(s: State) {
    |s.consumers| == 1 && s.lock.None? && Rested(s.consumers[0]) && s.consumers[0].pc.Locking?
  }

  lemma SomeTurn(z: State, steps0: seq<Step>, s0: State, now: Time) returns (steps: seq<Step>, s: State)
    requires s0 == Run(Next, z, steps0) && WokenOnce(steps0) && AtTurn(s0) && AllDue(s0.rows, now) && s0.rows != map[]
    ensures s == Run(Next, z, steps) && WokenOnce(steps) && AtTurn(s) && AllDue(s.rows, now)
    ensures |s.rows| == |s0.rows| - 1 && |s.consumers[0].ids| == |s0.consumers[0].ids| + 1
  {
    var id := FirstRow(s0.rows, now);
    OneRowLess(s0.rows, now, id);
    OnlyOne(s0.consumers);
    steps, s := OneTurn(z, steps0, s0, s0.consumers[0], now, id);
  }

  lemma OnlyOne(consumers: seq<Consumer>)
    ensures |consumers| == 1 ==> consumers == [consumers[0]]
  {
  }

  lemma {:induction false} TurnsDrain(z: State, steps0: seq<Step>, s0: State, now: Time)
      returns (steps: seq<Step>, s: State)
    requires s0 == Run(Next, z, steps0) && WokenOnce(steps0) && AtTurn(s0) && AllDue(s0.rows, now)
    ensures s == Run(Next, z, steps) && WokenOnce(steps) && s.rows == map[] && s.lock.None?
    ensures |s.consumers| == 1 && s.consumers[0].pc.Idle? && !s.consumers[0].failed
    ensures |s.consumers[0].ids| == |s0.consumers[0].ids| + |s0.rows|
    decreases |s0.rows|
  {
    if s0.rows == map[] {
      OnlyOne(s0.consumers);
      steps, s := LastTurn(z, steps0, s0, s0.consumers[0], now);
    } else {
      steps, s := SomeTurn(z, steps0, s0, now);
      steps, s := TurnsDrain(z, steps, s, now);
    }
  }

  lemma OneRowLess(rows: map<Id, Time>, now: Time, id: Id)
    requires AllDue(rows, now) && IsFound(rows, {}, now, 1, [id])
    ensures |rows - {id}| == |rows| - 1 && AllDue(rows - {id}, now)
  {
    assert Eligible(rows, {}, now, [id][0]);
    assert (rows - {id}).Keys == rows.Keys - {id};
    assert |rows| == |rows.Keys| && |rows - {id}| == |(rows - {id}).Keys|;
  }

  lemma FirstRow(rows: map<Id, Time>, now: Time) returns (id: Id)
    requires rows != map[] && AllDue(rows, now)
    ensures IsFound(rows, {}, now, 1, [id])
  {
    id := EarliestOf(rows, rows.Keys);
  }

  lemma {:induction false} EarliestOf(rows: map<Id, Time>, keys: set<Id>) returns (id: Id)
    requires keys != {} && keys <= rows.Keys
    ensures id in keys && forall k :: k in keys ==> rows[id] <= rows[k]
    decreases |keys|
  {
    var k :| k in keys;
    if keys == {k} {
      id := k;
    } else {
      assert keys - {k} != {};
      id := EarliestOf(rows, keys - {k});
      if rows[k] < rows[id] { id := k; }
    }
  }

  /**
  One signal is enough. For any table whose rows are all due, a consumer with batches of one message, woken once,
  has a run that delivers every row, once each, and ends with its worker back at its signal, without an error
  and with the table empty: a full batch does not end the loop.
  */
  lemma OneSignalDrainsTable(rows: map<Id, Time>, now: Time) returns (steps: seq<Step>)
    requires forall id :: id in rows ==> rows[id] <= now
    ensures WokenOnce(steps)
    ensures var s := Run(Next, Init(rows, [NewConsumer(1, 1)]), steps);
            && s.rows == map[] && s.lock.None? && |s.consumers| == 1
            && s.consumers[0].pc.Idle? && !s.consumers[0].failed && |s.consumers[0].ids| == |rows|
  {
    var z, x := Init(rows, [NewConsumer(1, 1)]), NewConsumer(1, 1).(pc := Locking);
    var s;
    steps, s := T.ThenOwn(z, [], z, Wake(0), x);
    steps, s := TurnsDrain(z, steps, s, now);
  }
}
