/**
The listener protocol: one worker that takes a token, receives a message, puts it into the
processing queue and starts a goroutine for it, and any number of those goroutines, each of which
runs handler rounds and acknowledges with retries, all interleaved step by step.
*/
module Listener {
  import opened Runs
  import C = CommitOffsetQueue
  import A = AckNackQueue

  type Msg = nat

  datatype Kind = CommitOffset | AckNack | AckOnly

  datatype Queue = Commit(c: C.Spec) | Direct(a: A.Spec)

  datatype Worker =
    | AwaitToken
    | AwaitMessage             // holds a token
    | Adding(msg: Msg)         // holds a token and a received message
    | Stopped(token: bool)     // has returned, with or without an unspent token

  /** What a goroutine does with its message: skip it, or run this many handlers. */
  datatype Plan = Skip | Handle(handlers: nat)

  datatype Pc =
    | Deciding                      // before the message is decoded
    | Looping                       // at the head of its loop, before the check of the context
    | Handling                      // a round of handlers is running
    | Acking(positive: bool)        // inside the retried acknowledgement
    | Releasing(positive: bool)     // the broker has accepted, the mutex section is to come
    | Returned(acked: bool)

  datatype Proc = Proc(
    msg: Msg,
    plan: Plan,                     // meaningful after Deciding
    pc: Pc,
    rounds: seq<seq<bool>>,         // for each finished round, whether each handler returned nil
    acks: seq<bool>)                // the acknowledgements of this goroutine that returned nil: positive or negative

  datatype State = State(kind: Kind, queue: Queue, worker: Worker, procs: seq<Proc>, cancelled: bool)

  datatype Step =
    | TakeToken
    | Receive(m: Msg)
    | AddProcessing
    | StopWorker(closed: bool)            // the context is done, or the consumer closed its channel
    | Cancel
    | Decide(p: nat, plan: Plan)
    | Enter(p: nat)                       // the context is not done: run a round, or acknowledge a skipped message
    | GiveUp(p: nat)                      // the context is done
    | FinishRound(p: nat, results: seq<bool>)
    | Refuse(p: nat)                      // a negative result is permanently refused by the queue
    | CommitAck(p: nat, brokerOk: bool)   // commit-offset queue: the whole acknowledgement under the mutex
    | BrokerAnswer(p: nat, ok: bool)      // ack and ack/nack queues: the call outside the mutex
    | Release(p: nat)                     // ack and ack/nack queues: the mutex section
    | Abandon(p: nat)                     // the retry of the acknowledgement ends because the context is done

  function Init(kind: Kind, maxSize: int): State {
    State(kind, if kind.CommitOffset? then Commit(C.New(maxSize)) else Direct(A.New(maxSize)), AwaitToken, [], false)
  }

  function Tokens(q: Queue): nat {
    match q case Commit(c) => c.tokens case Direct(a) => a.tokens
  }

  function Cap(q: Queue): nat {
    match q case Commit(c) => c.cap case Direct(a) => a.cap
  }

  predicate Hung(q: Queue) {
    match q case Commit(c) => c.hung case Direct(a) => a.hung
  }

  /** The number of messages in the queue. */
  function Queued(q: Queue): int {
    match q case Commit(c) => |c.delivered| - c.committed case Direct(a) => |a.queued|
  }

  function Taken(q: Queue): (Queue, bool) {
    match q
    case Commit(c) => var (c', ok) := C.TakeTokenSpec(c); (Commit(c'), ok)
    case Direct(a) => var (a', ok) := A.TakeTokenSpec(a); (Direct(a'), ok)
  }

  datatype Adding = Added | QueueFull | Refused

  function AddTo(q: Queue, m: Msg): (Queue, Adding) {
    match q
    case Commit(c) =>
      var (c', r) := C.AddSpec(c, m);
      (Commit(c'), match r case Done => Added case Full => QueueFull case _ => Refused)
    case Direct(a) =>
      var (a', r) := A.AddSpec(a, m);
      (Direct(a'), match r case Done => Added case Full => QueueFull case _ => Refused)
  }

  function All(results: seq<bool>): bool {
    forall k :: 0 <= k < |results| ==> results[k]
  }

  function SetProc(s: State, p: nat, x: Proc): State
    requires p < |s.procs|
  {
    s.(procs := s.procs[p := x])
  }

  function Goto(s: State, p: nat, pc: Pc): State
    requires p < |s.procs|
  {
    SetProc(s, p, s.procs[p].(pc := pc))
  }

  function Accepted(x: Proc, positive: bool): Proc {
    x.(pc := Returned(true), acks := x.acks + [positive])
  }

  function Accept(s: State, p: nat, positive: bool): State
    requires p < |s.procs|
  {
    SetProc(s, p, Accepted(s.procs[p], positive))
  }

  function NextWorker(s: State, t: Step): State {
    match t
    case TakeToken =>
      if s.worker.AwaitToken? && Taken(s.queue).1 then s.(queue := Taken(s.queue).0, worker := AwaitMessage) else s
    case Receive(m) =>
      if s.worker.AwaitMessage? then s.(worker := Adding(m)) else s
    case AddProcessing =>
      if !s.worker.Adding? then s
      else
        var (q, r) := AddTo(s.queue, s.worker.msg);
        if r.Added? then
          s.(queue := q, worker := AwaitToken, procs := s.procs + [Proc(s.worker.msg, Skip, Deciding, [], [])])
        else
          s.(worker := Stopped(true))
    case StopWorker(closed) =>
      if s.worker.AwaitToken? && s.cancelled then s.(worker := Stopped(false))
      else if s.worker.AwaitMessage? && (s.cancelled || closed) then s.(worker := Stopped(true))
      else s
    case Cancel => s.(cancelled := true)
    case _ => s
  }

  function NextProc(s: State, t: Step, p: nat): State
    requires p < |s.procs|
  {
    var x := s.procs[p];
    match t
    case Decide(_, plan) =>
      if x.pc.Deciding? then SetProc(s, p, x.(plan := plan, pc := Looping)) else s
    case Enter(_) =>
      if x.pc.Looping? && !s.cancelled then Goto(s, p, if x.plan.Skip? then Acking(true) else Handling) else s
    case GiveUp(_) =>
      if x.pc.Looping? && s.cancelled then Goto(s, p, Returned(false)) else s
    case FinishRound(_, results) =>
      if x.pc.Handling? && x.plan.Handle? && |results| == x.plan.handlers
      then SetProc(s, p, x.(pc := Acking(All(results)), rounds := x.rounds + [results]))
      else s
    case Refuse(_) =>
      if x.pc.Acking? && !x.pc.positive && !s.kind.AckNack? then Goto(s, p, Looping) else s
    case CommitAck(_, brokerOk) =>
      if x.pc.Acking? && x.pc.positive && s.queue.Commit? && C.Wf(s.queue.c) then
        var (c, r) := C.AckSpec(s.queue.c, x.msg, true, brokerOk);
        if r.Done? then Accept(s.(queue := Commit(c)), p, true) else s.(queue := Commit(c))
      else s
    case BrokerAnswer(_, ok) =>
      if x.pc.Acking? && s.queue.Direct? && (x.pc.positive || s.kind.AckNack?) && ok
          then Goto(s, p, Releasing(x.pc.positive)) else s
    case Release(_) =>
      if x.pc.Releasing? && s.queue.Direct? then
        var (a, r) := A.ReleaseSpec(s.queue.a, x.msg);
        if r.Done? then Accept(s.(queue := Direct(a)), p, x.pc.positive) else s.(queue := Direct(a))
      else s
    case Abandon(_) =>
      if x.pc.Acking? && s.cancelled then Goto(s, p, Looping) else s
    case _ => s
  }

  function Next(s: State, t: Step): State {
    match t
    case TakeToken | Receive(_) | AddProcessing | StopWorker(_) | Cancel => NextWorker(s, t)
    case _ => if t.p < |s.procs| then NextProc(s, t, t.p) else s
  }

  // ------------------------------------------------------------------ what every step keeps

  /** The tokens the worker has taken from the channel and not yet turned into a queued message. */
  function Held(w: Worker): nat {
    match w
    case AwaitToken => 0
    case AwaitMessage | Adding(_) => 1
    case Stopped(token) => if token then 1 else 0
  }

  /** A goroutine whose message is still to be acknowledged. */
  predicate Live(x: Proc) {
    x.pc != Returned(true)
  }

  /** The last round of handlers was complete: every handler returned nil. */
  predicate Handled(x: Proc) {
    && x.plan.Handle?
    && x.rounds != []
    && |x.rounds[|x.rounds| - 1]| == x.plan.handlers
    && All(x.rounds[|x.rounds| - 1])
  }

  ghost predicate ProcOk(kind: Kind, x: Proc) {
    && |x.acks| == (if Live(x) then 0 else 1)
    && (x.pc.Deciding? ==> x.rounds == [])
    && (x.pc.Handling? ==> x.plan.Handle?)
    && (x.pc.Releasing? ==> !kind.CommitOffset?)
    && (x.pc.Acking? && x.pc.positive ==> x.plan.Skip? || Handled(x))
    && (x.pc == Releasing(true) || true in x.acks ==> x.plan.Skip? || Handled(x))
    && (!kind.AckNack? ==> x.pc != Releasing(false) && false !in x.acks)
  }

  /** The queue holds exactly the messages of live goroutines, one goroutine each. */
  ghost predicate Matched(queued: set<Msg>, procs: seq<Proc>) {
    && (forall p :: 0 <= p < |procs| && Live(procs[p]) ==> procs[p].msg in queued)
    && (forall m :: m in queued ==> exists p :: 0 <= p < |procs| && Live(procs[p]) && procs[p].msg == m)
    && (forall p, r :: 0 <= p < r < |procs| && Live(procs[p]) && Live(procs[r]) ==> procs[p].msg != procs[r].msg)
  }

  ghost predicate Inv(s: State) {
    && (s.kind.CommitOffset? <==> s.queue.Commit?)
    && !Hung(s.queue)
    && Tokens(s.queue) + Held(s.worker) + Queued(s.queue) == Cap(s.queue)
    && (s.queue.Commit? ==> C.Wf(s.queue.c))
    && (s.queue.Direct? ==> Matched(s.queue.a.queued, s.procs))
    && (forall p :: 0 <= p < |s.procs| ==> ProcOk(s.kind, s.procs[p]))
  }

  /** What the token balance says of a message the worker is about to add. */
  lemma AddIsBalanced(q: Queue, m: Msg)
    requires !Hung(q) && Tokens(q) + 1 + Queued(q) == Cap(q) && (q.Commit? ==> C.Wf(q.c))
    ensures var (q', r) := AddTo(q, m);
            && r != QueueFull && !Hung(q') && Cap(q') == Cap(q) && Tokens(q') == Tokens(q)
            && (q.Commit? <==> q'.Commit?) && (q'.Commit? ==> C.Wf(q'.c))
            && (r.Added? ==> Queued(q') == Queued(q) + 1) && (!r.Added? ==> q' == q)
            && (r.Added? && q.Direct? ==> m !in q.a.queued && q'.a.queued == q.a.queued + {m})
  {
  }

  /** The worker's message is in the queue and has its goroutine. */
  function AddedState(s: State, q: Queue, m: Msg): State {
    s.(queue := q, worker := AwaitToken, procs := s.procs + [Proc(m, Skip, Deciding, [], [])])
  }

  lemma AddedKeepsInv(s: State, q: Queue, m: Msg)
    requires Inv(s) && Held(s.worker) == 1 && !Hung(q) && Cap(q) == Cap(s.queue) && Tokens(q) == Tokens(s.queue)
    requires Queued(q) == Queued(s.queue) + 1 && (q.Commit? <==> s.queue.Commit?) && (q.Commit? ==> C.Wf(q.c))
    requires q.Direct? ==> m !in s.queue.a.queued && q.a.queued == s.queue.a.queued + {m}
    ensures Inv(AddedState(s, q, m))
  {
    if q.Direct? { MatchedAfterAdd(s.queue.a.queued, s.procs, m, Proc(m, Skip, Deciding, [], [])); }
  }

  lemma AddKeepsInv(s: State)
    requires Inv(s) && s.worker.Adding?
    ensures Inv(NextWorker(s, AddProcessing))
  {
    var (q, r) := AddTo(s.queue, s.worker.msg);
    AddIsBalanced(s.queue, s.worker.msg);
    if r.Added? {
      AddedKeepsInv(s, q, s.worker.msg);
      assert NextWorker(s, AddProcessing) == AddedState(s, q, s.worker.msg);
    } else {
      assert NextWorker(s, AddProcessing) == s.(worker := Stopped(true));
    }
  }

  lemma WorkerStepKeepsInv(s: State, t: Step)
    requires Inv(s)
    ensures Inv(NextWorker(s, t))
  {
    if t.AddProcessing? {
      if s.worker.Adding? { AddKeepsInv(s); }
    } else {
      assert NextWorker(s, t).procs == s.procs;
    }
  }

  lemma MatchedAfterAdd(queued: set<Msg>, procs: seq<Proc>, m: Msg, x: Proc)
    requires Matched(queued, procs) && m !in queued && x.msg == m && Live(x)
    ensures Matched(queued + {m}, procs + [x])
  {
    var procs' := procs + [x];
    forall k | k in queued + {m} ensures exists p :: 0 <= p < |procs'| && Live(procs'[p]) && procs'[p].msg == k {
      if k in queued {
        var p :| 0 <= p < |procs| && Live(procs[p]) && procs[p].msg == k;
        assert procs'[p] == procs[p];
      } else {
        assert procs'[|procs|] == x;
      }
    }
  }

  /** Only the last step of an accepted acknowledgement takes a goroutine's message out of the match. */
  lemma MatchedAfterAccept(queued: set<Msg>, procs: seq<Proc>, p: nat, x: Proc)
    requires Matched(queued, procs) && p < |procs| && Live(procs[p]) && x.msg == procs[p].msg && !Live(x)
    ensures Matched(queued - {x.msg}, procs[p := x])
  {
    var procs' := procs[p := x];
    forall k | k in queued - {x.msg} ensures exists r :: 0 <= r < |procs'| && Live(procs'[r]) && procs'[r].msg == k {
      var r :| 0 <= r < |procs| && Live(procs[r]) && procs[r].msg == k;
      assert procs'[r] == procs[r];
    }
  }

  lemma MatchedAfterMove(queued: set<Msg>, procs: seq<Proc>, p: nat, x: Proc)
    requires Matched(queued, procs) && p < |procs| && Live(procs[p]) && x.msg == procs[p].msg && Live(x)
    ensures Matched(queued, procs[p := x])
  {
    var procs' := procs[p := x];
    forall k | k in queued ensures exists r :: 0 <= r < |procs'| && Live(procs'[r]) && procs'[r].msg == k {
      var r :| 0 <= r < |procs| && Live(procs[r]) && procs[r].msg == k;
      assert procs'[r].msg == k && Live(procs'[r]);
    }
  }

  lemma MoveKeepsInv(s: State, p: nat, x: Proc)
    requires Inv(s) && p < |s.procs| && x.msg == s.procs[p].msg && Live(s.procs[p]) && Live(x) && ProcOk(s.kind, x)
    ensures Inv(SetProc(s, p, x))
  {
    if s.queue.Direct? { MatchedAfterMove(s.queue.a.queued, s.procs, p, x); }
  }

  lemma ReleaseKeepsInv(s: State, p: nat)
    requires Inv(s) && p < |s.procs| && s.procs[p].pc.Releasing?
    ensures Inv(NextProc(s, Release(p), p))
  {
    var a, x := s.queue.a, s.procs[p];
    A.ReleaseConservesExactlyForMembers(a, x.msg, Held(s.worker));
    MatchedAfterAccept(a.queued, s.procs, p, Accepted(x, x.pc.positive));
  }

  lemma CommitAckKeepsInv(s: State, p: nat, brokerOk: bool)
    requires Inv(s) && p < |s.procs| && s.queue.Commit? && s.procs[p].pc.Acking?
    ensures Inv(NextProc(s, CommitAck(p, brokerOk), p))
  {
    C.TokensConserved(s.queue.c, C.Ack(s.procs[p].msg, true, brokerOk), Held(s.worker));
    C.AckKeepsWf(s.queue.c, s.procs[p].msg, true, brokerOk);
  }

  lemma ProcStepKeepsInv(s: State, t: Step, p: nat)
    requires Inv(s) && p < |s.procs|
    ensures Inv(NextProc(s, t, p))
  {
    var x, s' := s.procs[p], NextProc(s, t, p);
    if t.Release? {
      if x.pc.Releasing? {
        ReleaseKeepsInv(s, p);
        assert s' == NextProc(s, Release(p), p);
      }
    } else if t.CommitAck? {
      if x.pc.Acking? && s.queue.Commit? {
        CommitAckKeepsInv(s, p, t.brokerOk);
        assert s' == NextProc(s, CommitAck(p, t.brokerOk), p);
      }
    } else if s' != s {
      assert s' == SetProc(s, p, s'.procs[p]);
      MoveKeepsInv(s, p, s'.procs[p]);
    }
  }

  lemma NextKeepsInv(s: State, t: Step)
    requires Inv(s)
    ensures Inv(Next(s, t))
  {
    match t
    case TakeToken | Receive(_) | AddProcessing | StopWorker(_) | Cancel => WorkerStepKeepsInv(s, t);
    case _ => if t.p < |s.procs| { ProcStepKeepsInv(s, t, t.p); }
  }

  lemma RunKeepsInv(kind: Kind, maxSize: int, steps: seq<Step>)
    ensures Inv(Run(Next, Init(kind, maxSize), steps))
  {
    forall s, t | Inv(s) ensures Inv(Next(s, t)) { NextKeepsInv(s, t); }
    InvariantHolds(Next, Inv, Init(kind, maxSize), steps);
  }

  /** A goroutine's step touches only that goroutine, never its message, and does not undo an acceptance. */
  lemma ProcStepShape(s: State, t: Step, p: nat)
    requires p < |s.procs|
    ensures var s' := NextProc(s, t, p);
            && s'.worker == s.worker && s'.kind == s.kind && s'.cancelled == s.cancelled
            && s'.procs == s.procs[p := s'.procs[p]]
            && s'.procs[p].msg == s.procs[p].msg
            && (s.procs[p].pc.Returned? ==> s'.procs[p].pc == s.procs[p].pc)
            && (s.procs[p].pc.Releasing? ==> s'.procs[p].pc.Releasing? || s'.procs[p].pc.Returned?)
  {
    var s' := NextProc(s, t, p);
    assert s'.procs == s.procs || s'.procs == s.procs[p := s'.procs[p]];
  }

  // ------------------------------------------------------------------ results over all runs

  /**
  In every run, for every queue, tokens in the channel, the token in the worker's hands and queued
  messages add up to the queue's size. Hence a message the worker has received is never refused
  because the queue is full, and the token send under the mutex never blocks.
  */
  lemma TokensAreConserved(kind: Kind, maxSize: int, steps: seq<Step>)
    ensures var s := Run(Next, Init(kind, maxSize), steps);
            && Tokens(s.queue) + Held(s.worker) + Queued(s.queue) == Cap(s.queue)
            && !Hung(s.queue)
            && (s.worker.Adding? ==> AddTo(s.queue, s.worker.msg).1 != QueueFull)
            && (forall p :: 0 <= p < |s.procs| && s.procs[p].pc.Releasing? ==> Tokens(s.queue) < Cap(s.queue))
            && (forall p :: 0 <= p < |s.procs| ==> |s.procs[p].acks| <= 1)
  {
    RunKeepsInv(kind, maxSize, steps);
    var s := Run(Next, Init(kind, maxSize), steps);
    forall p | 0 <= p < |s.procs| && s.procs[p].pc.Releasing? ensures Tokens(s.queue) < Cap(s.queue) {
      assert s.procs[p].msg in s.queue.a.queued;
      assert |s.queue.a.queued| > 0;
    }
  }

  // ---- the commit-offset queue follows the goroutines

  /** A goroutine has marked its message but is still to acknowledge it: its commit failed. */
  predicate Retries(q: C.Spec, procs: seq<Proc>, p: nat) {
    p < |procs| && Live(procs[p]) && p in q.processed
  }

  /**
  Goroutine p has the message at position p, which is flagged once it has acknowledged; and the
  commit point is behind the flags only while some goroutine has a failed commit to repeat.
  */
  ghost predicate Followed(q: C.Spec, procs: seq<Proc>) {
    && C.Wf(q) && |procs| == |q.delivered|
    && (forall p :: 0 <= p < |procs| ==> q.delivered[p] == procs[p].msg)
    && (forall p :: 0 <= p < |procs| && !Live(procs[p]) ==> p in q.processed)
    && (C.Frontier(q.processed, q.committed, |q.delivered|) == q.committed || exists p: nat :: Retries(q, procs, p))
  }

  lemma FollowedAfterAdd(q: C.Spec, procs: seq<Proc>, x: Proc)
    requires Followed(q, procs) && Live(x)
    ensures Followed(q.(delivered := q.delivered + [x.msg]), procs + [x]) || |q.delivered| == q.committed + q.cap
  {
    var q' := q.(delivered := q.delivered + [x.msg]);
    if p: nat :| Retries(q, procs, p) { assert Retries(q', procs + [x], p); }
  }

  lemma FollowedAfterMove(q: C.Spec, procs: seq<Proc>, p: nat, x: Proc)
    requires Followed(q, procs) && p < |procs| && Live(procs[p]) && Live(x) && x.msg == procs[p].msg
    ensures Followed(q, procs[p := x])
  {
    if r: nat :| Retries(q, procs, r) { assert Retries(q, procs[p := x], r); }
  }

  lemma FollowedAfterAck(q: C.Spec, procs: seq<Proc>, p: nat, x: Proc, brokerOk: bool)
    requires Followed(q, procs) && p < |procs| && Live(procs[p]) && x.msg == procs[p].msg
    requires p !in q.processed ==> q.committed <= p
    requires var (_, r) := C.AckSpec(q, x.msg, true, brokerOk); (if r.Done? then !Live(x) else x == procs[p])
    ensures Followed(C.AckSpec(q, x.msg, true, brokerOk).0, procs[p := x]) ||
            C.AckSpec(q, x.msg, true, brokerOk).1.Hung?
  {
    var (q', r) := C.AckSpec(q, x.msg, true, brokerOk);
    C.AckKeepsWf(q, x.msg, true, brokerOk);
    if !r.Hung? {
      assert p in q'.processed;
      assert r.Done? ==> C.Frontier(q'.processed, q'.committed, |q'.delivered|) == q'.committed;
      if !r.Done? { assert Retries(q', procs[p := x], p); }
    }
  }

  ghost predicate CommitInv(s: State) {
    Inv(s) && (s.queue.Commit? ==> Followed(s.queue.c, s.procs))
  }

  lemma NextKeepsCommitInv(s: State, t: Step)
    requires CommitInv(s)
    ensures CommitInv(Next(s, t))
  {
    NextKeepsInv(s, t);
    if s.queue.Commit? {
      if t.TakeToken? || t.Receive? || t.AddProcessing? || t.StopWorker? || t.Cancel? {
        WorkerKeepsFollowed(s, t);
      } else if t.p < |s.procs| {
        ProcKeepsFollowed(s, t, t.p);
      }
    }
  }

  lemma WorkerKeepsFollowed(s: State, t: Step)
    requires CommitInv(s) && s.queue.Commit?
    ensures var s' := NextWorker(s, t); s'.queue.Commit? ==> Followed(s'.queue.c, s'.procs)
  {
    var s' := NextWorker(s, t);
    if |s'.procs| > |s.procs| {
      FollowedAfterAdd(s.queue.c, s.procs, s'.procs[|s.procs|]);
    } else if t.TakeToken? {
      SameButTokens(s.queue.c, C.TakeTokenSpec(s.queue.c).0, s.procs);
    }
  }

  lemma SameButTokens(q: C.Spec, q': C.Spec, procs: seq<Proc>)
    requires Followed(q, procs) && q' == q.(tokens := q'.tokens) && q'.tokens <= q.cap
    ensures Followed(q', procs)
  {
    if p: nat :| Retries(q, procs, p) { assert Retries(q', procs, p); }
  }

  lemma ProcKeepsFollowed(s: State, t: Step, p: nat)
    requires CommitInv(s) && s.queue.Commit? && p < |s.procs|
    ensures var s' := NextProc(s, t, p); s'.queue.Commit? ==> Followed(s'.queue.c, s'.procs)
  {
    var x, s' := s.procs[p], NextProc(s, t, p);
    if t.CommitAck? {
      if x.pc.Acking? && x.pc.positive {
        C.TokensConserved(s.queue.c, C.Ack(x.msg, true, t.brokerOk), Held(s.worker));
        FollowedAfterAck(s.queue.c, s.procs, p, s'.procs[p], t.brokerOk);
        assert s'.procs == s.procs[p := s'.procs[p]];
      }
    } else if s' != s {
      assert s' == SetProc(s, p, s'.procs[p]);
      FollowedAfterMove(s.queue.c, s.procs, p, s'.procs[p]);
    }
  }

  /**
  When every goroutine has acknowledged its message and the worker holds nothing, all tokens are back,
  for every queue.
  */
  lemma AllTokensReturn(kind: Kind, maxSize: int, steps: seq<Step>)
    ensures var s := Run(Next, Init(kind, maxSize), steps);
            (forall p :: 0 <= p < |s.procs| ==> !Live(s.procs[p])) && Held(s.worker) == 0 ==>
                Tokens(s.queue) == Cap(s.queue)
  {
    forall s, t | CommitInv(s) ensures CommitInv(Next(s, t)) { NextKeepsCommitInv(s, t); }
    InvariantHolds(Next, CommitInv, Init(kind, maxSize), steps);
    var s := Run(Next, Init(kind, maxSize), steps);
    if forall p :: 0 <= p < |s.procs| ==> !Live(s.procs[p]) {
      if s.queue.Direct? {
        assert s.queue.a.queued == {};
      } else {
        assert !exists p: nat :: Retries(s.queue.c, s.procs, p);
      }
    }
  }

  /** The worker is kept waiting for a token only by goroutines that are still to acknowledge, never by lost tokens. */
  lemma WorkerWaitsOnlyForGoroutines(kind: Kind, maxSize: int, steps: seq<Step>)
    ensures var s := Run(Next, Init(kind, maxSize), steps);
            s.worker.AwaitToken? && Tokens(s.queue) == 0 ==> exists p :: 0 <= p < |s.procs| && Live(s.procs[p])
  {
    AllTokensReturn(kind, maxSize, steps);
    SomeSlot(kind, maxSize, steps);
  }

  lemma SomeSlot(kind: Kind, maxSize: int, steps: seq<Step>)
    ensures Cap(Run(Next, Init(kind, maxSize), steps).queue) > 0
  {
    InvariantHolds(Next, (s: State) => Cap(s.queue) > 0, Init(kind, maxSize), steps);
  }

  /** No goroutine is ever stuck: until it has returned it can move, if the broker answers. */
  lemma GoroutinesNeverStuck(kind: Kind, maxSize: int, steps: seq<Step>, p: nat) returns (t: Step)
    requires var s := Run(Next, Init(kind, maxSize), steps); p < |s.procs| && !s.procs[p].pc.Returned?
    ensures var s := Run(Next, Init(kind, maxSize), steps);
            p < |Next(s, t).procs| && Next(s, t).procs[p].pc != s.procs[p].pc
  {
    RunKeepsInv(kind, maxSize, steps);
    t := CanMove(Run(Next, Init(kind, maxSize), steps), p);
  }

  lemma CanMove(s: State, p: nat) returns (t: Step)
    requires Inv(s) && p < |s.procs| && !s.procs[p].pc.Returned?
    ensures p < |Next(s, t).procs| && Next(s, t).procs[p].pc != s.procs[p].pc
  {
    var x := s.procs[p];
    assert ProcOk(s.kind, x);
    match x.pc
    case Deciding => t := Decide(p, Skip);
    case Looping => t := if s.cancelled then GiveUp(p) else Enter(p);
    case Handling => t := FinishRound(p, seq(x.plan.handlers, _ => true));
    case Acking(positive) =>
      if !positive && !s.kind.AckNack? {
        t := Refuse(p);
      } else if s.queue.Direct? {
        t := BrokerAnswer(p, true);
      } else {
        t := CommitAck(p, true);
        CommitIsAccepted(s, p);
      }
    case Releasing(_) =>
      t := Release(p);
      ReleaseIsAccepted(s, p);
  }

  lemma ReleaseIsAccepted(s: State, p: nat)
    requires Inv(s) && p < |s.procs| && s.procs[p].pc.Releasing?
    ensures NextProc(s, Release(p), p).procs[p].pc == Returned(true)
  {
    A.ReleaseConservesExactlyForMembers(s.queue.a, s.procs[p].msg, Held(s.worker));
  }

  /** An acknowledgement to the offset queue with a broker that accepts is accepted. */
  lemma CommitIsAccepted(s: State, p: nat)
    requires Inv(s) && s.queue.Commit? && p < |s.procs| && s.procs[p].pc == Acking(true)
    ensures NextProc(s, CommitAck(p, true), p).procs[p].pc == Returned(true)
  {
    C.TokensConserved(s.queue.c, C.Ack(s.procs[p].msg, true, true), Held(s.worker));
  }

  // ---- what a committed offset means

  predicate CompleteRound(x: Proc, k: nat) {
    x.plan.Handle? && k < |x.rounds| && |x.rounds[k]| == x.plan.handlers && All(x.rounds[k])
  }

  /** The message was skipped, or all its handlers returned nil in one round. */
  predicate Finished(x: Proc) {
    !x.pc.Deciding? && (x.plan.Skip? || exists k: nat :: k < |x.rounds| && CompleteRound(x, k))
  }

  predicate FinishedFor(procs: seq<Proc>, m: Msg, p: nat) {
    p < |procs| && procs[p].msg == m && Finished(procs[p])
  }

  ghost predicate Earned(q: C.Spec, procs: seq<Proc>) {
    forall i :: i in q.processed && i < |q.delivered| ==> exists p: nat :: FinishedFor(procs, q.delivered[i], p)
  }

  lemma FinishedStays(s: State, t: Step, p: nat)
    requires p < |s.procs| && Finished(s.procs[p])
    ensures Finished(NextProc(s, t, p).procs[p])
  {
    var x, y := s.procs[p], NextProc(s, t, p).procs[p];
    if x.plan.Handle? {
      var k: nat :| k < |x.rounds| && CompleteRound(x, k);
      assert CompleteRound(y, k);
    }
  }

  lemma EarnedStays(q: C.Spec, procs: seq<Proc>, q': C.Spec, procs': seq<Proc>)
    requires Earned(q, procs) && q.delivered <= q'.delivered && |procs| <= |procs'|
    requires forall r: nat :: r < |procs| ==>
             procs'[r].msg == procs[r].msg && (Finished(procs[r]) ==> Finished(procs'[r]))
    requires forall i :: i in q'.processed && i < |q'.delivered| ==>
               (i in q.processed && i < |q.delivered|) || exists p: nat :: FinishedFor(procs', q'.delivered[i], p)
    ensures Earned(q', procs')
  {
    forall i | i in q'.processed && i < |q'.delivered|
        ensures exists p: nat :: FinishedFor(procs', q'.delivered[i], p) {
      if i in q.processed && i < |q.delivered| {
        var p: nat :| FinishedFor(procs, q.delivered[i], p);
        assert FinishedFor(procs', q'.delivered[i], p);
      }
    }
  }

  ghost predicate EarnedInv(s: State) {
    Inv(s) && (s.queue.Commit? ==> Earned(s.queue.c, s.procs))
  }

  lemma ProcKeepsEarned(s: State, t: Step, p: nat)
    requires EarnedInv(s) && s.queue.Commit? && p < |s.procs|
    ensures var s' := NextProc(s, t, p); s'.queue.Commit? ==> Earned(s'.queue.c, s'.procs)
  {
    var x, s' := s.procs[p], NextProc(s, t, p);
    ProcStepShape(s, t, p);
    if Finished(x) { FinishedStays(s, t, p); }
    if t.CommitAck? && x.pc.Acking? && x.pc.positive {
      if x.plan.Handle? { assert CompleteRound(x, |x.rounds| - 1); }
      FinishedStays(s, t, p);
      AckEarns(s.queue.c, s.procs, s'.procs, p, t.brokerOk);
    } else {
      EarnedStays(s.queue.c, s.procs, s.queue.c, s'.procs);
    }
  }

  lemma AckEarns(q: C.Spec, procs: seq<Proc>, procs': seq<Proc>, p: nat, brokerOk: bool)
    requires C.Wf(q) && Earned(q, procs) && p < |procs| && Finished(procs[p]) && |procs'| == |procs|
    requires forall r: nat :: r < |procs| ==>
             procs'[r].msg == procs[r].msg && (Finished(procs[r]) ==> Finished(procs'[r]))
    ensures Earned(C.AckSpec(q, procs[p].msg, true, brokerOk).0, procs')
  {
    var q' := C.AckSpec(q, procs[p].msg, true, brokerOk).0;
    assert FinishedFor(procs', procs[p].msg, p);
    EarnedStays(q, procs, q', procs');
  }

  lemma NextKeepsEarned(s: State, t: Step)
    requires EarnedInv(s)
    ensures EarnedInv(Next(s, t))
  {
    NextKeepsInv(s, t);
    if s.queue.Commit? {
      if t.TakeToken? || t.Receive? || t.AddProcessing? || t.StopWorker? || t.Cancel? {
        EarnedStays(s.queue.c, s.procs, Next(s, t).queue.c, Next(s, t).procs);
      } else if t.p < |s.procs| {
        ProcKeepsEarned(s, t, t.p);
      }
    }
  }

  /** No committed offset covers a message that was neither skipped nor completely handled in one round. */
  lemma CommittedMeansHandled(maxSize: int, steps: seq<Step>, i: nat) returns (p: nat)
    requires var s := Run(Next, Init(CommitOffset, maxSize), steps); s.queue.Commit? && i < s.queue.c.committed
    ensures var s := Run(Next, Init(CommitOffset, maxSize), steps);
            i < |s.queue.c.delivered| && FinishedFor(s.procs, s.queue.c.delivered[i], p)
  {
    forall s, t | EarnedInv(s) ensures EarnedInv(Next(s, t)) { NextKeepsEarned(s, t); }
    InvariantHolds(Next, EarnedInv, Init(CommitOffset, maxSize), steps);
    var s := Run(Next, Init(CommitOffset, maxSize), steps);
    p :| FinishedFor(s.procs, s.queue.c.delivered[i], p);
  }

  lemma RunKeepsKind(kind: Kind, maxSize: int, steps: seq<Step>)
    ensures Run(Next, Init(kind, maxSize), steps).kind == kind
  {
    InvariantHolds(Next, (s: State) => s.kind == kind, Init(kind, maxSize), steps);
  }
}
