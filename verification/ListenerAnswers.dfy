/**
What the listener answers for a message: in every run, the answer goes by the rounds of handlers and by
nothing else, and a goroutine that nothing gets in the way of does answer.
*/
module ListenerAnswers {
  import opened Runs
  import opened Listener
  import C = CommitOffsetQueue
  import A = AckNackQueue

  // ------------------------------------------------------------------ every run

  /** Round k ran all handlers, and one of them failed. */
  predicate FailedRound(x: Proc, k: nat) {
    x.plan.Handle? && k < |x.rounds| && |x.rounds[k]| == x.plan.handlers && !All(x.rounds[k])
  }

  predicate LastRoundFailed(x: Proc) {
    |x.rounds| > 0 && FailedRound(x, |x.rounds| - 1)
  }

  /** The message may be acknowledged positively. */
  predicate Fine(x: Proc) {
    x.plan.Skip? || Handled(x)
  }

  /** The answer is what the goroutine's work says. */
  predicate AnswerFits(x: Proc, positive: bool) {
    if positive then Fine(x) else LastRoundFailed(x)
  }

  ghost predicate FirstRoundsFailed(x: Proc, n: nat) {
    forall k: nat :: k < n ==> FailedRound(x, k)
  }

  /** The goroutine runs a round of handlers, or is about to. */
  predicate BeforeRound(cancelled: bool, x: Proc) {
    x.pc.Handling? || (x.pc.Looping? && !cancelled)
  }

  ghost predicate AnswerOk(kind: Kind, cancelled: bool, x: Proc) {
    && (x.pc.Deciding? || x.plan.Skip? ==> x.rounds == [])
    && (x.pc.Handling? ==> x.plan.Handle?)
    && (x.pc.Acking? || x.pc.Releasing? ==> AnswerFits(x, x.pc.positive))
    && |x.acks| == (if x.pc == Returned(true) then 1 else 0)
    && (x.acks != [] ==> AnswerFits(x, x.acks[0]))
    && (x.pc == Returned(false) ==> cancelled)
    && (|x.rounds| > 0 ==> FirstRoundsFailed(x, |x.rounds| - 1))
    && (BeforeRound(cancelled, x) ==> FirstRoundsFailed(x, |x.rounds|))
    && (kind.AckNack? ==> |x.rounds| <= if BeforeRound(cancelled, x) then 0 else 1)
    && (!kind.AckNack? ==> x.pc != Releasing(false) && (x.acks != [] ==> x.acks[0]))
  }

  ghost predicate AnswersOk(s: State) {
    forall p :: 0 <= p < |s.procs| ==> AnswerOk(s.kind, s.cancelled, s.procs[p])
  }

  lemma RoundKeepsAnswer(s: State, p: nat, results: seq<bool>)
    requires p < |s.procs| && AnswerOk(s.kind, s.cancelled, s.procs[p])
    ensures AnswerOk(s.kind, s.cancelled, NextProc(s, FinishRound(p, results), p).procs[p])
  {
    var x, y := s.procs[p], NextProc(s, FinishRound(p, results), p).procs[p];
    if y != x {
      assert y.rounds == x.rounds + [results];
      forall k: nat | k < |x.rounds| ensures FailedRound(y, k) { assert FailedRound(x, k); }
    }
  }

  lemma {:induction false} SameWorkKeepsFailed(x: Proc, y: Proc, n: nat)
    requires FirstRoundsFailed(x, n) && y.plan == x.plan && y.rounds == x.rounds
    ensures FirstRoundsFailed(y, n)
  {
    forall k: nat | k < n ensures FailedRound(y, k) { assert FailedRound(x, k); }
  }

  lemma ProcKeepsAnswer(s: State, t: Step, p: nat)
    requires p < |s.procs| && AnswerOk(s.kind, s.cancelled, s.procs[p])
    ensures AnswerOk(s.kind, s.cancelled, NextProc(s, t, p).procs[p])
  {
    var x, y := s.procs[p], NextProc(s, t, p).procs[p];
    if t.FinishRound? {
      RoundKeepsAnswer(s, p, t.results);
    } else if !t.Decide? {
      assert y.plan == x.plan && y.rounds == x.rounds;
      if FirstRoundsFailed(x, |x.rounds|) { SameWorkKeepsFailed(x, y, |x.rounds|); }
      if |x.rounds| > 0 { SameWorkKeepsFailed(x, y, |x.rounds| - 1); }
    }
  }

  lemma CancelKeepsAnswer(kind: Kind, x: Proc)
    requires AnswerOk(kind, false, x)
    ensures AnswerOk(kind, true, x)
  {
  }

  lemma NextKeepsAnswers(s: State, t: Step)
    requires AnswersOk(s)
    ensures AnswersOk(Next(s, t))
  {
    var s' := Next(s, t);
    if t.TakeToken? || t.Receive? || t.AddProcessing? || t.StopWorker? || t.Cancel? {
      forall p | 0 <= p < |s'.procs| ensures AnswerOk(s'.kind, s'.cancelled, s'.procs[p]) {
        if p < |s.procs| && !s.cancelled { CancelKeepsAnswer(s.kind, s.procs[p]); }
      }
    } else if t.p < |s.procs| {
      ProcKeepsAnswer(s, t, t.p);
      ProcStepShape(s, t, t.p);
    }
  }

  lemma RunKeepsAnswers(kind: Kind, maxSize: int, steps: seq<Step>)
    ensures var s := Run(Next, Init(kind, maxSize), steps); AnswersOk(s) && s.kind == kind
  {
    forall s, t | AnswersOk(s) ensures AnswersOk(Next(s, t)) { NextKeepsAnswers(s, t); }
    InvariantHolds(Next, AnswersOk, Init(kind, maxSize), steps);
    RunKeepsKind(kind, maxSize, steps);
  }

  /**
  For every queue and in every run, what a goroutine answers, or is about to answer, is positive if and
  only if its message was skipped or all handlers of the last round returned nil, and negative if and only
  if a handler of the last round failed. Only the ack/nack queue accepts a negative answer.
  */
  lemma AcknowledgedMeansHandled(kind: Kind, maxSize: int, steps: seq<Step>, p: nat)
    requires p < |Run(Next, Init(kind, maxSize), steps).procs|
    ensures var x := Run(Next, Init(kind, maxSize), steps).procs[p];
            && |x.acks| <= 1
            && (x.acks != [] ==>
                && (x.acks[0] <==> x.plan.Skip? || Handled(x))
                && (!x.acks[0] <==> LastRoundFailed(x))
                && (!x.acks[0] ==> kind.AckNack?))
            && (x.pc.Acking? || x.pc.Releasing? ==>
                && (x.pc.positive <==> x.plan.Skip? || Handled(x))
                && (!x.pc.positive <==> LastRoundFailed(x)))
  {
    RunKeepsAnswers(kind, maxSize, steps);
    var s := Run(Next, Init(kind, maxSize), steps);
    assert AnswerOk(s.kind, s.cancelled, s.procs[p]);
  }

  /**
  Rounds are repeated only after a failure, and with the ack/nack queue never; a goroutine returns without
  an acknowledgement only when the listener was cancelled.
  */
  lemma RoundsAreRetries(kind: Kind, maxSize: int, steps: seq<Step>, p: nat)
    requires p < |Run(Next, Init(kind, maxSize), steps).procs|
    ensures var s := Run(Next, Init(kind, maxSize), steps);
            var x := s.procs[p];
            && (forall k: nat :: k + 1 < |x.rounds| ==> FailedRound(x, k))
            && (x.plan.Skip? ==> x.rounds == [])
            && (kind.AckNack? ==> |x.rounds| <= 1)
            && (x.pc.Returned? ==> |x.acks| == (if x.pc.acked then 1 else 0) && (!x.pc.acked ==> s.cancelled))
  {
    RunKeepsAnswers(kind, maxSize, steps);
    var s := Run(Next, Init(kind, maxSize), steps);
    assert AnswerOk(s.kind, s.cancelled, s.procs[p]);
  }

  // ------------------------------------------------------------------ the goroutines ask the queues

  /** The queue refuses a negative result for the message for good. */
  predicate NackRefused(kind: Kind, q: Queue, m: Msg)
    requires q.Commit? ==> C.Wf(q.c)
  {
    match q
    case Commit(c) => C.AckSpec(c, m, false, true).1.NackUnsupported?
    case Direct(a) => A.AckSpec(a, m, kind.AckNack?, false, true).1.NackUnsupported?
  }

  /**
  A goroutine with a failed round goes back to its loop exactly when the queue answers that it takes
  no negative result.
  */
  lemma RefusedIffUnsupported(s: State, p: nat)
    requires Inv(s) && p < |s.procs| && s.procs[p].pc == Acking(false)
    ensures NextProc(s, Refuse(p), p) == if NackRefused(s.kind, s.queue, s.procs[p].msg) then Goto(s, p, Looping) else s
  {
  }

  lemma AcceptedThenReleased(s: State, p: nat)
    requires Inv(s) && s.queue.Direct? && p < |s.procs| && s.procs[p].pc.Acking?
    requires s.procs[p].pc.positive || s.kind.AckNack?
    ensures var x := s.procs[p];
            var (a, r) := A.ReleaseSpec(s.queue.a, x.msg);
            && r.Done?
            && Next(Next(s, BrokerAnswer(p, true)), Release(p)) == Accept(s.(queue := Direct(a)), p, x.pc.positive)
  {
    var x := s.procs[p];
    var s1 := Goto(s, p, Releasing(x.pc.positive));
    assert Next(s, BrokerAnswer(p, true)) == s1;
    A.ReleaseConservesExactlyForMembers(s.queue.a, x.msg, Held(s.worker));
    assert s1.procs[p := Accepted(s1.procs[p], x.pc.positive)] == s.procs[p := Accepted(x, x.pc.positive)];
  }

  /**
  The two halves of an acknowledgement to the ack and ack/nack queues make up the queue's own operation: it
  is accepted exactly when the queue says so, and otherwise changes nothing.
  */
  lemma HalvesMakeAcknowledgement(s: State, p: nat, ok: bool)
    requires Inv(s) && s.queue.Direct? && p < |s.procs| && s.procs[p].pc.Acking?
    ensures var x := s.procs[p];
            var (a, r) := A.AckSpec(s.queue.a, x.msg, s.kind.AckNack?, x.pc.positive, ok);
            && (r.Done? <==> ok && (x.pc.positive || s.kind.AckNack?))
            && Run(Next, s, [BrokerAnswer(p, ok), Release(p)])
               == if r.Done? then Accept(s.(queue := Direct(a)), p, x.pc.positive) else s
  {
    RunTwo(s, BrokerAnswer(p, ok), Release(p));
    if ok && (s.procs[p].pc.positive || s.kind.AckNack?) {
      AcceptedThenReleased(s, p);
    }
  }

  // ------------------------------------------------------------------ undisturbed goroutines

  lemma RunTwo(s: State, t: Step, u: Step)
    ensures Run(Next, s, [t, u]) == Next(Next(s, t), u)
  {
    assert [t, u][1..] == [u] && [u][1..] == [];
    assert Run(Next, s, [t, u]) == Run(Next, Next(s, t), [u]);
    assert Run(Next, Next(s, t), [u]) == Run(Next, Next(Next(s, t), u), []);
  }

  lemma RunOne(s: State, t: Step)
    ensures Run(Next, s, [t]) == Next(s, t)
  {
    assert Run(Next, s, [t]) == Run(Next, Next(s, t), [t][1..]);
  }

  /** The steps of an acknowledgement that the broker accepts. */
  function Acknowledge(kind: Kind, p: nat): seq<Step> {
    if kind.CommitOffset? then [CommitAck(p, true)] else [BrokerAnswer(p, true), Release(p)]
  }

  lemma AcknowledgementWorks(s: State, p: nat)
    requires Inv(s) && p < |s.procs| && s.procs[p].pc.Acking? && (s.procs[p].pc.positive || s.kind.AckNack?)
    ensures Run(Next, s, Acknowledge(s.kind, p)).procs
         == s.procs[p := s.procs[p].(pc := Returned(true), acks := [s.procs[p].pc.positive])]
  {
    assert ProcOk(s.kind, s.procs[p]);
    assert s.procs[p].acks + [s.procs[p].pc.positive] == [s.procs[p].pc.positive];
    if s.queue.Commit? {
      RunOne(s, CommitAck(p, true));
      CommitIsAccepted(s, p);
    } else {
      HalvesMakeAcknowledgement(s, p, true);
    }
  }

  /** A skipped message is acknowledged positively, whatever the queue. */
  lemma SkippedIsAcknowledged(s: State, p: nat)
    requires Inv(s) && !s.cancelled && p < |s.procs| && s.procs[p].pc.Deciding?
    ensures Run(Next, s, [Decide(p, Skip), Enter(p)] + Acknowledge(s.kind, p)).procs
         == s.procs[p := s.procs[p].(plan := Skip, pc := Returned(true), acks := [true])]
  {
    var x := s.procs[p];
    var y := x.(plan := Skip, pc := Acking(true));
    assert ProcOk(s.kind, x);
    RunConcat(Next, s, [Decide(p, Skip), Enter(p)], Acknowledge(s.kind, p));
    SkipIsEntered(s, p);
    MoveKeepsInv(s, p, y);
    AcknowledgementWorks(SetProc(s, p, y), p);
    var z := y.(pc := Returned(true), acks := [true]);
    assert s.procs[p := y][p := z] == s.procs[p := z];
  }

  lemma SkipIsEntered(s: State, p: nat)
    requires !s.cancelled && p < |s.procs| && s.procs[p].pc.Deciding?
    ensures Run(Next, s, [Decide(p, Skip), Enter(p)]) == SetProc(s, p, s.procs[p].(plan := Skip, pc := Acking(true)))
  {
    var s1 := SetProc(s, p, s.procs[p].(plan := Skip, pc := Looping));
    RunTwo(s, Decide(p, Skip), Enter(p));
    assert Next(s, Decide(p, Skip)) == s1;
    assert Next(s1, Enter(p)) == Goto(s1, p, Acking(true));
  }

  /** The goroutine has run one more round and is about to answer. */
  function AfterRound(s: State, p: nat, results: seq<bool>): State
    requires p < |s.procs|
  {
    SetProc(s, p, s.procs[p].(pc := Acking(All(results)), rounds := s.procs[p].rounds + [results]))
  }

  predicate AtLoop(s: State, p: nat, results: seq<bool>) {
    && !s.cancelled && p < |s.procs| && s.procs[p].pc.Looping?
    && s.procs[p].plan.Handle? && |results| == s.procs[p].plan.handlers
  }

  lemma RoundRuns(s: State, p: nat, results: seq<bool>)
    requires Inv(s) && AtLoop(s, p, results)
    ensures Run(Next, s, [Enter(p), FinishRound(p, results)]) == AfterRound(s, p, results)
    ensures Inv(AfterRound(s, p, results))
  {
    assert ProcOk(s.kind, s.procs[p]);
    RunTwo(s, Enter(p), FinishRound(p, results));
    var s1 := NextProc(s, Enter(p), p);
    assert s1 == Goto(s, p, Handling);
    assert NextProc(s1, FinishRound(p, results), p) == AfterRound(s, p, results);
    NextKeepsInv(s, Enter(p));
    NextKeepsInv(s1, FinishRound(p, results));
  }

  /**
  A goroutine that runs a round with nothing in its way answers by its result: acknowledged positively if
  no handler failed, whatever the queue; negatively with the ack/nack queue if one did.
  */
  lemma RoundIsAnswered(s: State, p: nat, results: seq<bool>)
    requires Inv(s) && AtLoop(s, p, results) && (All(results) || s.kind.AckNack?)
    ensures Run(Next, s, [Enter(p), FinishRound(p, results)] + Acknowledge(s.kind, p)).procs
         == s.procs[p := s.procs[p].(pc := Returned(true), rounds := s.procs[p].rounds + [results],
                                     acks := [All(results)])]
  {
    RunConcat(Next, s, [Enter(p), FinishRound(p, results)], Acknowledge(s.kind, p));
    RoundRuns(s, p, results);
    AcknowledgementWorks(AfterRound(s, p, results), p);
    var y := AfterRound(s, p, results).procs[p];
    var z := y.(pc := Returned(true), acks := [All(results)]);
    assert s.procs[p := y][p := z] == s.procs[p := z];
  }

  /**
  With the other queues a round with a failed handler is answered by nothing, and the goroutine is
  back at its loop.
  */
  lemma FailedRoundIsRepeated(s: State, p: nat, results: seq<bool>)
    requires Inv(s) && AtLoop(s, p, results) && !All(results) && !s.kind.AckNack?
    ensures Run(Next, s, [Enter(p), FinishRound(p, results)] + [Refuse(p)])
         == SetProc(s, p, s.procs[p].(rounds := s.procs[p].rounds + [results]))
  {
    RunConcat(Next, s, [Enter(p), FinishRound(p, results)], [Refuse(p)]);
    RoundRuns(s, p, results);
    RunOne(AfterRound(s, p, results), Refuse(p));
  }

  // ------------------------------------------------------------------ the worker

  /**
  A worker with a token to take that receives a message gives it a goroutine of its own and goes back to
  its loop; only a message that is already being processed stops it.
  */
  lemma WorkerDelivers(s: State, m: Msg)
    requires Inv(s) && s.worker.AwaitToken? && Tokens(s.queue) > 0
    ensures var s' := Run(Next, s, [TakeToken] + [Receive(m), AddProcessing]);
            if s.queue.Direct? && m in s.queue.a.queued
            then s'.worker == Stopped(true) && s'.procs == s.procs
            else s'.worker.AwaitToken? && s'.procs == s.procs + [Proc(m, Skip, Deciding, [], [])]
  {
    var s1 := Next(s, TakeToken);
    RunOne(s, TakeToken);
    RunTwo(s1, Receive(m), AddProcessing);
    RunConcat(Next, s, [TakeToken], [Receive(m), AddProcessing]);
    NextKeepsInv(s, TakeToken);
    AddIsBalanced(s1.queue, m);
  }

  /** The message was received at two places of the run. */
  ghost predicate ReceivedTwice(steps: seq<Step>, m: Msg) {
    exists i, j :: 0 <= i < j < |steps| && steps[i] == Receive(m) && steps[j] == Receive(m)
  }

  ghost predicate SomeReceivedTwice(steps: seq<Step>) {
    exists m: Msg :: ReceivedTwice(steps, m)
  }

  /** What the worker and the goroutines say of the messages received so far. */
  ghost predicate WorkerOk(s: State, steps: seq<Step>) {
    && (forall p :: 0 <= p < |s.procs| ==> Receive(s.procs[p].msg) in steps)
    && (s.worker.Adding? ==> Receive(s.worker.msg) in steps)
    && (forall p :: 0 <= p < |s.procs| && s.worker.Adding? && s.procs[p].msg == s.worker.msg ==>
          ReceivedTwice(steps, s.worker.msg))
    && (s.worker.Stopped? ==>
          s.cancelled || StopWorker(true) in steps || (!s.kind.CommitOffset? && SomeReceivedTwice(steps)))
  }

  lemma MoreStepsKeepTwice(steps: seq<Step>, t: Step)
    ensures forall m: Msg :: ReceivedTwice(steps, m) ==> ReceivedTwice(steps + [t], m)
    ensures SomeReceivedTwice(steps) ==> SomeReceivedTwice(steps + [t])
  {
    forall m: Msg | ReceivedTwice(steps, m) ensures ReceivedTwice(steps + [t], m) {
      var i, j :| 0 <= i < j < |steps| && steps[i] == Receive(m) && steps[j] == Receive(m);
      assert (steps + [t])[i] == Receive(m) && (steps + [t])[j] == Receive(m);
    }
  }

  lemma AddKeepsWorker(s: State, steps: seq<Step>)
    requires Inv(s) && WorkerOk(s, steps) && s.worker.Adding?
    ensures WorkerOk(NextWorker(s, AddProcessing), steps)
  {
    if AddTo(s.queue, s.worker.msg).1.Added? {
      assert NextWorker(s, AddProcessing) == AddedState(s, AddTo(s.queue, s.worker.msg).0, s.worker.msg);
    } else {
      RefusedMeansTwice(s, steps);
      assert NextWorker(s, AddProcessing) == s.(worker := Stopped(true));
    }
  }

  lemma RefusedMeansTwice(s: State, steps: seq<Step>)
    requires Inv(s) && WorkerOk(s, steps) && s.worker.Adding? && !AddTo(s.queue, s.worker.msg).1.Added?
    ensures !s.kind.CommitOffset? && SomeReceivedTwice(steps)
  {
    var m := s.worker.msg;
    AddIsBalanced(s.queue, m);
    var p :| 0 <= p < |s.procs| && Live(s.procs[p]) && s.procs[p].msg == m;
    assert ReceivedTwice(steps, m);
  }

  lemma ReceiveKeepsWorker(s: State, steps: seq<Step>, m: Msg)
    requires WorkerOk(s, steps)
    ensures WorkerOk(NextWorker(s, Receive(m)), steps + [Receive(m)])
  {
    var more := steps + [Receive(m)];
    MoreStepsKeepTwice(steps, Receive(m));
    assert more[|steps|] == Receive(m);
    forall p | 0 <= p < |s.procs| && s.procs[p].msg == m ensures ReceivedTwice(more, m) {
      var i :| 0 <= i < |steps| && steps[i] == Receive(m);
      assert more[i] == Receive(m);
    }
  }

  lemma NextKeepsWorker(s: State, steps: seq<Step>, t: Step)
    requires Inv(s) && WorkerOk(s, steps)
    ensures WorkerOk(Next(s, t), steps + [t])
  {
    MoreStepsKeepTwice(steps, t);
    if t.AddProcessing? {
      if s.worker.Adding? { AddKeepsWorker(s, steps); }
    } else if t.Receive? {
      ReceiveKeepsWorker(s, steps, t.m);
    } else if t.StopWorker? || t.TakeToken? || t.Cancel? {
      assert (steps + [t])[|steps|] == t;
    } else {
      ProcKeepsWorker(s, steps, t);
    }
  }

  lemma ProcKeepsWorker(s: State, steps: seq<Step>, t: Step)
    requires WorkerOk(s, steps)
    requires !t.AddProcessing? && !t.Receive? && !t.StopWorker? && !t.TakeToken? && !t.Cancel?
    ensures WorkerOk(Next(s, t), steps + [t])
  {
    MoreStepsKeepTwice(steps, t);
    if t.p < |s.procs| { ProcStepShape(s, t, t.p); }
  }

  /**
  The worker of a listener goes on: in every run it has stopped only if the listener was cancelled or the
  consumer closed its channel, or, with the ack and ack/nack queues, delivered a message twice.
  */
  lemma {:induction false} WorkerStopsOnlyIf(kind: Kind, maxSize: int, steps: seq<Step>)
    ensures var s := Run(Next, Init(kind, maxSize), steps);
            s.worker.Stopped? ==>
              s.cancelled || StopWorker(true) in steps || (!kind.CommitOffset? && SomeReceivedTwice(steps))
  {
    RunKeepsWorker(kind, maxSize, steps);
    RunKeepsKind(kind, maxSize, steps);
  }

  lemma {:induction false} RunKeepsWorker(kind: Kind, maxSize: int, steps: seq<Step>)
    ensures WorkerOk(Run(Next, Init(kind, maxSize), steps), steps)
    decreases |steps|
  {
    if steps != [] {
      var n := |steps| - 1;
      RunKeepsWorker(kind, maxSize, steps[..n]);
      RunKeepsInv(kind, maxSize, steps[..n]);
      NextKeepsWorker(Run(Next, Init(kind, maxSize), steps[..n]), steps[..n], steps[n]);
      RunOneMore(Next, Init(kind, maxSize), steps[..n], steps[n]);
      assert steps == steps[..n] + [steps[n]];
    }
  }
}
