/**
Concrete runs of the storage consumer: one in which a batch passes its wait, and two in which it waits
forever although everything it delivered is done.
*/
module StorageConsumerTraces {
  import opened Options
  import opened Runs
  import opened MessageStorage
  import opened StorageConsumer
  import opened StorageConsumerWaits
  import L = Listener

  /** One more step at the end of a run. */
  lemma Then(s0: State, steps: seq<Step>, s: State, t: Step) returns (steps': seq<Step>, s': State)
    requires s == Run(Next, s0, steps)
    ensures steps' == steps + [t] && s' == Next(s, t) && s' == Run(Next, s0, steps')
  {
    steps', s' := steps + [t], Next(s, t);
    RunOneMore(Next, s0, steps, t);
  }

  /** One consumer with batches of one message and a listener with one slot; message 7 is due at time 0. */
  function Start(): State {
    Init(map[7 := 0], [NewConsumer(1, 1)])
  }

  /** A step of the only consumer that involves neither table nor lock. */
  lemma ThenOwn(s0: State, steps: seq<Step>, s: State, t: Step, x: Consumer)
      returns (steps': seq<Step>, s': State)
    requires s == Run(Next, s0, steps) && |s.consumers| == 1
    requires !t.Store? && t.c == 0 && !t.Crash? && !t.Find? && !t.Delete? && !t.Lock? && !t.CutShort? && !t.Check? &&
             !t.Unlock?
    requires NextOwn(s.consumers[0], t) == x
    ensures steps' == steps + [t] && s' == Run(Next, s0, steps') && s' == s.(consumers := [x])
  {
    steps', s' := Then(s0, steps, s, t);
    assert s.consumers[0 := x] == [x];
  }

  /** The consumer has locked the topic and found message 7. */
  function Found7(): Consumer {
    NewConsumer(1, 1).(pc := Sending, batch := [7], due := {7}, foundAt := 1)
  }

  lemma Ready() returns (steps: seq<Step>, s: State)
    ensures s == Run(Next, Start(), steps)
    ensures s == Start().(lock := Some(0), consumers := [Found7()])
  {
    var x := NewConsumer(1, 1);
    steps, s := [], Start();
    steps, s := ThenOwn(Start(), steps, s, Wake(0), x.(pc := Locking));
    steps, s := Then(Start(), steps, s, Lock(0, true));
    assert s == Start().(lock := Some(0), consumers := [x.(pc := Excluding)]);
    steps, s := ThenOwn(Start(), steps, s, Exclude(0), x.(pc := Finding({})));
    Finds7(s, x);
    steps, s := Then(Start(), steps, s, Find(0, true, 0, [7]));
  }

  lemma Finds7(s: State, x: Consumer)
    requires x == NewConsumer(1, 1) && s == Start().(lock := Some(0), consumers := [x.(pc := Finding({}))])
    ensures Next(s, Find(0, true, 0, [7])) == Start().(lock := Some(0), consumers := [Found7()])
  {
    assert IsFound(s.rows, {}, 0, 1, [7]);
    assert (set id | id in s.rows && s.rows[id] <= 0) == {7};
    assert NextConsumer(s, Find(0, true, 0, [7]), 0) == Found7();
    assert s.consumers[0 := Found7()] == [Found7()];
  }

  /** The listener with one goroutine, on copy 0, at this point of its work. */
  function Serving(pc: L.Pc, rounds: seq<seq<bool>>): L.State {
    L.State(L.AckOnly, L.Direct(L.A.Spec(1, {0}, 0, false)), L.AwaitToken, [L.Proc(0, L.Handle(1), pc, rounds, [])],
        false)
  }

  /** The listener after that goroutine has returned. */
  function Served(): L.State {
    L.State(L.AckOnly, L.Direct(L.A.Spec(1, {}, 1, false)), L.AwaitToken,
            [L.Proc(0, L.Handle(1), L.Returned(true), [[true]], [true])], false)
  }

  /** Message 7 was handed over and handled; its id is not yet added, its goroutine is about to acknowledge. */
  function Handled7(): Consumer {
    Found7().(pc := Adding, ids := [7], l := Serving(L.Acking(true), [[true]]))
  }

  lemma HandedOver() returns (steps: seq<Step>, s: State)
    ensures s == Run(Next, Start(), steps)
    ensures s == Start().(lock := Some(0),
            consumers := [Found7().(pc := Adding, ids := [7],
                l := Serving(L.Deciding, []).(procs := [L.Proc(0, L.Skip, L.Deciding, [], [])]))])
  {
    var x := Found7();
    steps, s := Ready();
    var l := x.l.(queue := L.Direct(L.A.Spec(1, {}, 0, false)), worker := L.AwaitMessage);
    assert L.Next(x.l, L.TakeToken) == l;
    steps, s := ThenOwn(Start(), steps, s, Listen(0, L.TakeToken), x.(l := l));
    var y := x.(pc := Adding, ids := [7], l := l.(worker := L.Worker.Adding(0)));
    assert Sent(x.(l := l)) == y;
    steps, s := ThenOwn(Start(), steps, s, Send(0), y);
    var l' := Serving(L.Deciding, []).(procs := [L.Proc(0, L.Skip, L.Deciding, [], [])]);
    assert {} + {0} == {0};
    assert L.Next(y.l, L.AddProcessing) == l';
    steps, s := ThenOwn(Start(), steps, s, Listen(0, L.AddProcessing), y.(l := l'));
  }

  lemma Worked() returns (steps: seq<Step>, s: State)
    ensures s == Run(Next, Start(), steps)
    ensures s == Start().(lock := Some(0), consumers := [Handled7()])
  {
    steps, s := HandedOver();
    Rounds();
    steps, s := ThenListen(Start(), steps, s, L.Decide(0, L.Handle(1)), Serving(L.Looping, []));
    steps, s := ThenListen(Start(), steps, s, L.Enter(0), Serving(L.Handling, []));
    steps, s := ThenListen(Start(), steps, s, L.FinishRound(0, [true]), Serving(L.Acking(true), [[true]]));
  }

  lemma ThenListen(s0: State, steps: seq<Step>, s: State, t: L.Step, l: L.State)
      returns (steps': seq<Step>, s': State)
    requires s == Run(Next, s0, steps) && |s.consumers| == 1 && Free(s.consumers[0], t)
    requires L.Next(s.consumers[0].l, t) == l
    ensures steps' == steps + [Listen(0, t)] && s' == Run(Next, s0, steps') &&
            s' == s.(consumers := [s.consumers[0].(l := l)])
  {
    steps', s' := ThenOwn(s0, steps, s, Listen(0, t), s.consumers[0].(l := l));
  }

  lemma Rounds()
    ensures L.Next(Serving(L.Deciding, []).(procs := [L.Proc(0, L.Skip, L.Deciding, [], [])]),
            L.Decide(0, L.Handle(1))) == Serving(L.Looping, [])
    ensures L.Next(Serving(L.Looping, []), L.Enter(0)) == Serving(L.Handling, [])
    ensures L.Next(Serving(L.Handling, []), L.FinishRound(0, [true])) == Serving(L.Acking(true), [[true]])
  {
    assert L.All([true]);
    var none: seq<seq<bool>> := [];
    assert none + [[true]] == [[true]];
  }

  /** The goroutine acknowledges: the row is deleted, then the id is removed, if it is there. */
  lemma Acknowledge(steps0: seq<Step>, s0: State, x: Consumer) returns (steps: seq<Step>, s: State)
    requires s0 == Run(Next, Start(), steps0)
    requires s0 == Start().(lock := Some(0), consumers := [x])
    requires x.l == Serving(L.Acking(true), [[true]]) && x.ids == [7] && x.acking == map[] && x.processing <= {7}
    ensures s == Run(Next, Start(), steps)
    ensures s.rows == map[] && s.passes == 0
    ensures s.consumers == [Confirm(x, 0, 1).(processing := {}, processedCount := 0, acking := map[0 := ToSignal])]
  {
    var y := Confirm(x, 0, 1);
    steps, s := DeleteRow(steps0, s0, x);
    RemoveLast(y);
    steps, s := ThenOwn(Start(), steps, s, Remove(0, 0),
        y.(processing := {}, processedCount := 0, acking := map[0 := ToSignal]));
  }

  lemma RemoveLast(y: Consumer)
    requires y.ids == [7] && y.acking == map[0 := ToRemove] && y.processing <= {7}
    ensures NextOwn(y, Remove(0, 0)) == y.(processing := {}, processedCount := 0, acking := map[0 := ToSignal])
  {
    assert y.processing - {7} == {};
  }

  lemma DeleteRow(steps0: seq<Step>, s0: State, x: Consumer) returns (steps: seq<Step>, s: State)
    requires s0 == Run(Next, Start(), steps0)
    requires s0 == Start().(lock := Some(0), consumers := [x])
    requires x.l == Serving(L.Acking(true), [[true]]) && x.ids == [7] && x.acking == map[]
    ensures s == Run(Next, Start(), steps) && s.rows == map[] && s.consumers == [Confirm(x, 0, 1)] && s.passes == 0
  {
    assert NextConsumer(s0, Delete(0, 0, true, true), 0) == Confirm(x, 0, 1);
    steps, s := Then(Start(), steps0, s0, Delete(0, 0, true, true));
  }

  /** It signals, and its queue takes the message out and returns the token. */
  lemma Finish(steps0: seq<Step>, s0: State, x: Consumer) returns (steps: seq<Step>, s: State)
    requires s0 == Run(Next, Start(), steps0) && s0.consumers == [x] && !x.pc.Asleep?
    requires x.l == Serving(L.Acking(true), [[true]]) && x.acking == map[0 := ToSignal]
    ensures s == Run(Next, Start(), steps)
    ensures s == s0.(consumers := [x.(l := Served(), acking := map[])])
  {
    assert L.Next(x.l, L.BrokerAnswer(0, true)) == Serving(L.Releasing(true), [[true]]);
    assert x.acking - {0} == map[];
    steps, s := ThenOwn(Start(), steps0, s0, Signal(0, 0),
        x.(l := Serving(L.Releasing(true), [[true]]), acking := map[]));
    Releases();
    steps, s := ThenListen(Start(), steps, s, L.Release(0), Served());
  }

  lemma Releases()
    ensures L.Next(Serving(L.Releasing(true), [[true]]), L.Release(0)) == Served()
  {
    assert {0} - {0} == {};
    var none: seq<bool> := [];
    assert none + [true] == [true];
  }

  /**
  The acknowledgement runs between the hand-over and addToProcessing, so the id is added after it was
  removed: storage is empty, nothing is in flight, and the batch waits, doomed, for an id nobody
  will remove.
  */
  lemma EarlyAckDoomsTheBatch() returns (steps: seq<Step>)
    ensures var s := Run(Next, Start(), steps);
            s.rows == map[] && |s.consumers| == 1 && s.consumers[0].processing == {7} && Doomed(s.consumers[0])
  {
    var s;
    steps, s := Worked();
    steps, s := Acknowledge(steps, s, Handled7());
    steps, s := Finish(steps, s, s.consumers[0]);
    steps, s := EnterWaitWith7(steps, s, s.consumers[0]);
    assert Stale(s.consumers[0], 7);
  }

  /** When nothing is overtaken the batch goes through: the message is handled, its row deleted, and the wait passed. */
  lemma BatchGoesThrough() returns (steps: seq<Step>)
    ensures var s := Run(Next, Start(), steps);
            && s.rows == map[] && s.passes == 1 && |s.consumers| == 1
            && s.consumers[0].pc == Unlocking(Passed(true)) && s.consumers[0].processing == {}
  {
    var s;
    steps, s := Worked();
    steps, s := EnterWaitWith7(steps, s, Handled7());
    steps, s := Acknowledge(steps, s, s.consumers[0]);
    steps, s := Finish(steps, s, s.consumers[0]);
    PassesCheck(s, s.consumers[0]);
    steps, s := Then(Start(), steps, s, Check(0));
  }

  lemma PassesCheck(s: State, x: Consumer)
    requires s.consumers == [x] && x.pc.Checking? && x.processedCount == 0 && x.size == 1 && |x.batch| == 1
    ensures Next(s, Check(0))
            == s.(consumers := [x.(pc := Unlocking(Passed(true)), leftover := false)], passes := s.passes + 1)
  {
    assert NextConsumer(s, Check(0), 0) == x.(pc := Unlocking(Passed(true)), leftover := false);
    assert s.consumers[0 := x.(pc := Unlocking(Passed(true)), leftover := false)]
           == [x.(pc := Unlocking(Passed(true)), leftover := false)];
  }

  /** The id is added and the batch begins to wait. */
  lemma EnterWaitWith7(steps0: seq<Step>, s0: State, x: Consumer) returns (steps: seq<Step>, s: State)
    requires s0 == Run(Next, Start(), steps0) && s0.consumers == [x]
    requires x.pc.Adding? && x.sent == 0 && x.batch == [7] && x.processing == {} && x.acking == map[]
    ensures s == Run(Next, Start(), steps)
    ensures s == s0.(consumers := [x.(pc := Checking, sent := 1, processing := {7}, processedCount := 1)])
  {
    assert {} + {7} == {7};
    var y := x.(pc := Sending, sent := 1, processing := {7}, processedCount := 1);
    steps, s := ThenOwn(Start(), steps0, s0, AddToProcessing(0), y);
    steps, s := ThenOwn(Start(), steps, s, EnterWait(0), y.(pc := Checking));
  }

  /**
  The signal is sent between the test of the count and the registration with the condition variable,
  which the mutex around the count does not prevent: everything is done and the batch sleeps forever.
  */
  lemma LostSignalDoomsTheBatch() returns (steps: seq<Step>)
    ensures var s := Run(Next, Start(), steps);
            s.rows == map[] && |s.consumers| == 1 && s.consumers[0].processing == {} && Doomed(s.consumers[0])
  {
    var s;
    steps, s := Worked();
    steps, s := EnterWaitWith7(steps, s, Handled7());
    var y := s.consumers[0];
    assert NextConsumer(s, Check(0), 0) == y.(pc := Dozing);
    steps, s := Then(Start(), steps, s, Check(0));
    assert s == Start().(lock := Some(0), consumers := [y.(pc := Dozing)]);
    steps, s := FallAsleep(steps, s, y.(pc := Dozing));
    assert Missed(s.consumers[0]);
  }

  lemma FallAsleep(steps0: seq<Step>, s0: State, x: Consumer) returns (steps: seq<Step>, s: State)
    requires s0 == Run(Next, Start(), steps0)
    requires s0 == Start().(lock := Some(0), consumers := [x]) && x.pc.Dozing?
    requires x.l == Serving(L.Acking(true), [[true]]) && x.ids == [7] && x.acking == map[] && x.processing == {7}
    ensures s == Run(Next, Start(), steps) && s.rows == map[] && |s.consumers| == 1
    ensures var y := s.consumers[0];
            y.pc.Asleep? && y.processing == {} && y.acking == map[] && y.ids == [7] && y.l == Served()
  {
    steps, s := Acknowledge(steps0, s0, x);
    steps, s := Finish(steps, s, s.consumers[0]);
    steps, s := ThenOwn(Start(), steps, s, Sleep(0), s.consumers[0].(pc := Asleep));
  }
}
