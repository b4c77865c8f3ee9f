/**
What cancellation in the middle of a batch leads to: for any two messages of a topic there is a run in
which the handlers of one of them are at work in two consumers at once.
*/
module StorageConsumerOverlap {
  import opened Options
  import opened Runs
  import opened MessageStorage
  import opened StorageConsumer
  import L = Listener

  /** Two messages, the first scheduled no later than the second. */
  datatype Two = Two(a: Id, b: Id, ta: Time, tb: Time)

  predicate Proper(w: Two) {
    w.a != w.b && w.ta <= w.tb
  }

  function Rows(w: Two): map<Id, Time> {
    map[w.a := w.ta, w.b := w.tb]
  }

  /** A consumer with batches of two messages and a listener with one slot. */
  function Fresh(): Consumer {
    NewConsumer(2, 1)
  }

  function Start(w: Two): State {
    Init(Rows(w), [Fresh(), Fresh()])
  }

  // ---- what a consumer goes through

  function FoundBoth(w: Two): Consumer {
    Fresh().(pc := Sending, batch := [w.a, w.b], due := {w.a, w.b}, foundAt := 1)
  }

  function Receiving(): L.State {
    L.State(L.AckOnly, L.Direct(L.A.Spec(1, {}, 0, false)), L.Worker.Adding(0), [], false)
  }

  /** The first message has been handed over. */
  function Handed(w: Two): Consumer {
    FoundBoth(w).(pc := Adding, ids := [w.a], l := Receiving())
  }

  /** Its goroutine is at this point. */
  function At(w: Two, plan: L.Plan, pc: L.Pc): Consumer {
    var procs := [L.Proc(0, plan, pc, [], [])];
    Handed(w).(l := L.State(L.AckOnly, L.Direct(L.A.Spec(1, {0}, 0, false)), L.AwaitToken, procs, false))
  }

  /** Its handler runs. */
  function Busy(w: Two): Consumer {
    At(w, L.Handle(1), L.Handling)
  }

  function Marked(w: Two): Consumer {
    Busy(w).(pc := Sending, sent := 1, processing := {w.a}, processedCount := 1)
  }

  function Cancelled(w: Two): Consumer {
    Marked(w).(l := Busy(w).l.(cancelled := true))
  }

  /** The consumer has left its batch, before the second message was handed over. */
  function Cut(w: Two): Consumer {
    Cancelled(w).(pc := Idle, cut := true, leftover := true, failed := true)
  }

  // ---- the steps of the run

  /** A step of consumer c that leaves the table alone. */
  lemma Then(w: Two, steps: seq<Step>, s: State, t: Step, c: nat, x: Consumer, lock: Option<nat>)
    returns (steps': seq<Step>, s': State)
    requires s == Run(Next, Start(w), steps) && c < |s.consumers|
    requires !t.Store? && !t.Delete? && !t.Check? && !t.CutShort? && t.c == c
    requires NextConsumer(s, t, c) == x && NextLock(s, t, c) == lock
    ensures s' == Run(Next, Start(w), steps') && s' == s.(consumers := s.consumers[c := x], lock := lock)
  {
    steps', s' := steps + [t], Next(s, t);
    RunOneMore(Next, Start(w), steps, t);
  }

  /** A step of the listener of consumer c. */
  lemma ThenListen(w: Two, steps: seq<Step>, s: State, u: L.Step, c: nat, x: Consumer)
    returns (steps': seq<Step>, s': State)
    requires s == Run(Next, Start(w), steps) && c < |s.consumers| && NextOwn(s.consumers[c], Listen(c, u)) == x
    ensures s' == Run(Next, Start(w), steps') && s' == s.(consumers := s.consumers[c := x])
  {
    steps', s' := Then(w, steps, s, Listen(c, u), c, x, s.lock);
  }

  lemma TakeLock(w: Two, steps0: seq<Step>, s0: State, c: nat) returns (steps: seq<Step>, s: State)
    requires s0 == Run(Next, Start(w), steps0) && c < |s0.consumers| && s0.consumers[c] == Fresh() && s0.lock.None?
    ensures s == Run(Next, Start(w), steps)
    ensures s == s0.(consumers := s0.consumers[c := Fresh().(pc := Finding({}))], lock := Some(c))
  {
    var x := Fresh();
    steps, s := Then(w, steps0, s0, Wake(c), c, x.(pc := Locking), None);
    steps, s := Then(w, steps, s, Lock(c, true), c, x.(pc := Excluding), Some(c));
    steps, s := Then(w, steps, s, Exclude(c), c, x.(pc := Finding({})), Some(c));
    assert s.consumers == s0.consumers[c := x.(pc := Finding({}))];
  }

  lemma BothAreFound(w: Two)
    requires Proper(w)
    ensures IsFound(Rows(w), {}, w.tb, 2, [w.a, w.b])
    ensures Found(Fresh().(pc := Finding({})), Rows(w), 1, w.tb, [w.a, w.b]) == FoundBoth(w)
  {
    var rows := Rows(w);
    assert (set id | id in rows && rows[id] <= w.tb) == {w.a, w.b};
  }

  lemma FindBoth(w: Two, steps0: seq<Step>, s0: State, c: nat) returns (steps: seq<Step>, s: State)
    requires Proper(w) && s0 == Run(Next, Start(w), steps0)
    requires c < |s0.consumers| && s0.consumers[c] == Fresh().(pc := Finding({})) && s0.rows == Rows(w) &&
             s0.stores == 1
    ensures s == Run(Next, Start(w), steps) && s == s0.(consumers := s0.consumers[c := FoundBoth(w)])
  {
    BothAreFound(w);
    steps, s := Then(w, steps0, s0, Find(c, true, w.tb, [w.a, w.b]), c, FoundBoth(w), s0.lock);
  }

  lemma HandingSteps(w: Two, c: nat)
    ensures var y := FoundBoth(w).(l := Receiving().(worker := L.AwaitMessage));
            NextOwn(FoundBoth(w), Listen(c, L.TakeToken)) == y && NextOwn(y, Send(c)) == Handed(w)
  {
  }

  lemma WorkingSteps(w: Two, c: nat)
    ensures NextOwn(Handed(w), Listen(c, L.AddProcessing)) == At(w, L.Skip, L.Deciding)
    ensures NextOwn(At(w, L.Skip, L.Deciding), Listen(c, L.Decide(0, L.Handle(1)))) == At(w, L.Handle(1), L.Looping)
    ensures NextOwn(At(w, L.Handle(1), L.Looping), Listen(c, L.Enter(0))) == Busy(w)
  {
    assert {} + {0} == {0};
  }

  lemma Hand(w: Two, steps0: seq<Step>, s0: State, c: nat) returns (steps: seq<Step>, s: State)
    requires s0 == Run(Next, Start(w), steps0) && c < |s0.consumers| && s0.consumers[c] == FoundBoth(w)
    ensures s == Run(Next, Start(w), steps) && s == s0.(consumers := s0.consumers[c := Handed(w)])
  {
    HandingSteps(w, c);
    var y := FoundBoth(w).(l := Receiving().(worker := L.AwaitMessage));
    steps, s := ThenListen(w, steps0, s0, L.TakeToken, c, y);
    steps, s := Then(w, steps, s, Send(c), c, Handed(w), s0.lock);
    assert s.consumers == s0.consumers[c := Handed(w)];
  }

  lemma Work(w: Two, steps0: seq<Step>, s0: State, c: nat) returns (steps: seq<Step>, s: State)
    requires s0 == Run(Next, Start(w), steps0) && c < |s0.consumers| && s0.consumers[c] == Handed(w)
    ensures s == Run(Next, Start(w), steps) && s == s0.(consumers := s0.consumers[c := Busy(w)])
  {
    WorkingSteps(w, c);
    steps, s := ThenListen(w, steps0, s0, L.AddProcessing, c, At(w, L.Skip, L.Deciding));
    steps, s := ThenListen(w, steps, s, L.Decide(0, L.Handle(1)), c, At(w, L.Handle(1), L.Looping));
    steps, s := ThenListen(w, steps, s, L.Enter(0), c, Busy(w));
    assert s.consumers == s0.consumers[c := Busy(w)];
  }

  /** A new consumer locks the topic, finds both messages, hands over the first one, and its handler begins. */
  lemma BeginBatch(w: Two, steps0: seq<Step>, s0: State, c: nat) returns (steps: seq<Step>, s: State)
    requires Proper(w) && s0 == Run(Next, Start(w), steps0) && c < |s0.consumers| && s0.consumers[c] == Fresh()
    requires s0.rows == Rows(w) && s0.stores == 1 && s0.lock.None?
    ensures s == Run(Next, Start(w), steps)
    ensures s == s0.(consumers := s0.consumers[c := Busy(w)], lock := Some(c))
  {
    steps, s := TakeLock(w, steps0, s0, c);
    steps, s := FindBoth(w, steps, s, c);
    steps, s := Hand(w, steps, s, c);
    steps, s := Work(w, steps, s, c);
    assert s.consumers == s0.consumers[c := Busy(w)];
  }

  lemma CancelSteps(w: Two)
    ensures NextOwn(Busy(w), AddToProcessing(0)) == Marked(w)
    ensures NextOwn(Marked(w), Listen(0, L.Cancel)) == Cancelled(w)
  {
    assert {} + {w.a} == {w.a};
  }

  /** The consumer adds the id of the first message and is cancelled before it can send the second. */
  lemma Cancel(w: Two, steps0: seq<Step>, s0: State) returns (steps: seq<Step>, s: State)
    requires s0 == Run(Next, Start(w), steps0) && |s0.consumers| > 0 && s0.consumers[0] == Busy(w)
    ensures s == Run(Next, Start(w), steps) && s == s0.(consumers := s0.consumers[0 := Cancelled(w)])
  {
    CancelSteps(w);
    steps, s := Then(w, steps0, s0, AddToProcessing(0), 0, Marked(w), s0.lock);
    steps, s := ThenListen(w, steps, s, L.Cancel, 0, Cancelled(w));
    assert s.consumers == s0.consumers[0 := Cancelled(w)];
  }

  lemma LeaveBatch(w: Two, s: State)
    requires |s.consumers| > 0 && s.consumers[0] == Cancelled(w)
    ensures Next(s, CutShort(0)) == s.(consumers := s.consumers[0 := Cut(w).(pc := Unlocking(Failed))], anyCut := true)
  {
    assert NextConsumer(s, CutShort(0), 0) == Cut(w).(pc := Unlocking(Failed));
  }

  /** It leaves the batch and releases the lock, with the handler of the first message still at work. */
  lemma CutOff(w: Two, steps0: seq<Step>, s0: State) returns (steps: seq<Step>, s: State)
    requires s0 == Run(Next, Start(w), steps0) && |s0.consumers| > 0 && s0.consumers[0] == Busy(w) && s0.lock == Some(0)
    ensures s == Run(Next, Start(w), steps)
    ensures s == s0.(consumers := s0.consumers[0 := Cut(w)], lock := None, anyCut := true)
  {
    steps, s := Cancel(w, steps0, s0);
    LeaveBatch(w, s);
    RunOneMore(Next, Start(w), steps, CutShort(0));
    steps, s := steps + [CutShort(0)], Next(s, CutShort(0));
    steps, s := Then(w, steps, s, Unlock(0, true, true), 0, Cut(w), None);
    assert s.consumers == s0.consumers[0 := Cut(w)];
  }

  /**
  After a batch was cut short, the handlers of a message can be at work in two consumers at once, both
  free to succeed: for any two messages, the one scheduled first.
  */
  lemma HandledTwiceAfterCut(w: Two) returns (steps: seq<Step>)
    requires Proper(w)
    ensures var s := Run(Next, Start(w), steps);
            && |s.consumers| == 2 && s.consumers[0].leftover && !s.consumers[1].cut
            && forall c :: 0 <= c < 2 ==>
                 && Flying(s.consumers[c], 0) && s.consumers[c].ids == [w.a]
                 && s.consumers[c].l.procs != [] && s.consumers[c].l.procs[0].pc.Handling?
  {
    var s;
    steps, s := BeginBatch(w, [], Start(w), 0);
    steps, s := CutOff(w, steps, s);
    steps, s := BeginBatch(w, steps, s, 1);
  }
}
