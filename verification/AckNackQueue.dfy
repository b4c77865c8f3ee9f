/**
The processing queues of listeners whose broker acknowledges single messages: `ackNackQueue`, and
`ackQueue`, which wraps it and refuses negative results.

An acknowledgement is two steps: the broker is called first, without the mutex, and only after it
accepts is the message removed and a token returned, under the mutex. The second step does not
check that the message is in the queue.
*/
module AckNackQueue {
  import opened Runs

  /** The identity of a delivered message (a pointer in the source). */
  type Msg = nat

  datatype Outcome =
    | Done
    | Full             // the queue has no room for another message
    | AlreadyQueued    // the message is being processed
    | NackUnsupported  // a negative result cannot be acknowledged
    | BrokerFailed     // the broker refused the acknowledgement
    | Hung             // the call never returns: it waits for a token slot or for the mutex of a call that does

  datatype Spec = Spec(cap: nat, queued: set<Msg>, tokens: nat, hung: bool)

  function Capacity(maxSize: int): nat {
    if maxSize < 1 then 1 else maxSize
  }

  function New(maxSize: int): Spec {
    Spec(Capacity(maxSize), {}, Capacity(maxSize), false)
  }

  function TakeTokenSpec(q: Spec): (Spec, bool) {
    if q.tokens > 0 then (q.(tokens := q.tokens - 1), true) else (q, false)
  }

  function AddSpec(q: Spec, m: Msg): (Spec, Outcome) {
    if q.hung then (q, Hung)
    else if |q.queued| == q.cap then (q, Full)
    else if m in q.queued then (q, AlreadyQueued)
    else (q.(queued := q.queued + {m}), Done)
  }

  /** The part of an acknowledgement that runs under the mutex. */
  function ReleaseSpec(q: Spec, m: Msg): (Spec, Outcome) {
    if q.hung then (q, Hung)
    else if q.tokens < q.cap then (q.(queued := q.queued - {m}, tokens := q.tokens + 1), Done)
    else (q.(queued := q.queued - {m}, hung := true), Hung)
  }

  /** A whole acknowledgement; `nackable` tells `ackNackQueue` from `ackQueue`. */
  function AckSpec(q: Spec, m: Msg, nackable: bool, positive: bool, brokerOk: bool): (Spec, Outcome) {
    if !positive && !nackable then (q, NackUnsupported)
    else if !brokerOk then (q, BrokerFailed)
    else ReleaseSpec(q, m)
  }

  // ------------------------------------------------------------------ histories of operations

  datatype Op =
    | TakeToken
    | Add(msg: Msg)
    | Ack(msg: Msg, positive: bool, brokerOk: bool)

  function Next(nackable: bool, q: Spec, op: Op): Spec {
    match op
    case TakeToken => TakeTokenSpec(q).0
    case Add(m) => AddSpec(q, m).0
    case Ack(m, positive, brokerOk) => AckSpec(q, m, nackable, positive, brokerOk).0
  }

  /** The state after a history of operations on a new queue. */
  function After(nackable: bool, maxSize: int, ops: seq<Op>): Spec {
    Run((q, op) => Next(nackable, q, op), New(maxSize), ops)
  }

  class Queue {
    const nackable: bool
    const maxSize: nat
    var processingQueue: set<Msg>
    var tokens: nat
    var hung: bool
    var answered: seq<(Msg, bool)>  // what the broker has accepted: acks (true) and nacks (false), in order
    ghost const size: int           // the size that was asked for
    ghost var ops: seq<Op>          // the operations so far

    /** The queue is what its history makes of it. */
    ghost predicate Valid()
      reads this
    {
      tokens <= maxSize && View() == After(nackable, size, ops)
    }

    ghost function View(): Spec
      reads this
    {
      Spec(maxSize, processingQueue, tokens, hung)
    }

    constructor (nackable: bool, maxSize: int)
      ensures Valid() && View() == New(maxSize) && this.nackable == nackable && answered == [] && ops == [] &&
              size == maxSize
    {
      this.nackable := nackable;
      this.maxSize := if maxSize < 1 then 1 else maxSize;
      processingQueue := {};
      tokens := if maxSize < 1 then 1 else maxSize;
      hung := false;
      answered := [];
      size := maxSize;
      ops := [];
    }

    method TakeToken() returns (ok: bool)
      requires Valid()
      modifies this
      ensures Valid() && ops == old(ops) + [Op.TakeToken] && answered == old(answered)
      ensures ok <==> old(tokens) > 0
    {
      AfterLast(nackable, size, ops, Op.TakeToken);
      ops := ops + [Op.TakeToken];
      ok := tokens > 0;
      if ok {
        tokens := tokens - 1;
      }
    }

    method AddProcessing(m: Msg) returns (r: Outcome)
      requires Valid()
      modifies this
      ensures Valid() && ops == old(ops) + [Add(m)] && answered == old(answered)
      ensures r == AddSpec(old(View()), m).1
    {
      AfterLast(nackable, size, ops, Add(m));
      ops := ops + [Add(m)];
      if hung {
        return Hung;
      }
      if |processingQueue| == maxSize {
        return Full;
      }
      if m in processingQueue {
        return AlreadyQueued;
      }
      processingQueue := processingQueue + {m};
      return Done;
    }

    method AcknowledgeResult(m: Msg, positive: bool, brokerOk: bool) returns (r: Outcome)
      requires Valid()
      modifies this
      ensures Valid() && ops == old(ops) + [Ack(m, positive, brokerOk)]
      ensures r == AckSpec(old(View()), m, nackable, positive, brokerOk).1
      ensures answered == old(answered) + if brokerOk && (positive || nackable) then [(m, positive)] else []
    {
      AfterLast(nackable, size, ops, Ack(m, positive, brokerOk));
      ops := ops + [Ack(m, positive, brokerOk)];
      if !positive && !nackable {
        return NackUnsupported;
      }
      if !brokerOk {
        return BrokerFailed;
      }
      answered := answered + [(m, positive)];
      if hung {
        return Hung;
      }
      processingQueue := processingQueue - {m};
      if tokens == maxSize {
        hung := true;
        return Hung;
      }
      tokens := tokens + 1;
      return Done;
    }
  }

  lemma AfterLast(nackable: bool, maxSize: int, ops: seq<Op>, op: Op)
    ensures After(nackable, maxSize, ops + [op]) == Next(nackable, After(nackable, maxSize, ops), op)
  {
    var next := (q, op) => Next(nackable, q, op);
    RunConcat(next, New(maxSize), ops, [op]);
    var q := After(nackable, maxSize, ops);
    assert Run(next, q, [op]) == Run(next, next(q, op), [op][1..]);
  }

  // ------------------------------------------------------------------ every history of operations

  /** In this state the operation puts the message into the queue. */
  predicate Adds(q: Spec, op: Op, m: Msg) {
    op == Add(m) && AddSpec(q, m).1.Done?
  }

  /** In this state the operation is an acknowledgement of the message that the broker accepts. */
  predicate Releases(nackable: bool, q: Spec, op: Op, m: Msg) {
    op.Ack? && op.msg == m && op.brokerOk && (op.positive || nackable) && !q.hung
  }

  ghost predicate ReleasedAt(nackable: bool, maxSize: int, ops: seq<Op>, j: nat, m: Msg)
    requires j < |ops|
  {
    Releases(nackable, After(nackable, maxSize, ops[..j]), ops[j], m)
  }

  /** The message was added by operation k and not released since. */
  ghost predicate AddedAt(nackable: bool, maxSize: int, ops: seq<Op>, k: nat, m: Msg) {
    && k < |ops| && Adds(After(nackable, maxSize, ops[..k]), ops[k], m)
    && forall j: nat :: k < j < |ops| ==> !ReleasedAt(nackable, maxSize, ops, j, m)
  }

  /** The queue holds exactly the messages that were added and not released since. */
  lemma {:induction false} QueuedIsAddedAndNotReleased(nackable: bool, maxSize: int, ops: seq<Op>, m: Msg)
    ensures m in After(nackable, maxSize, ops).queued <==> exists k: nat :: AddedAt(nackable, maxSize, ops, k, m)
    decreases |ops|
  {
    if ops != [] {
      var n := |ops| - 1;
      var front := ops[..n];
      assert ops == front + [ops[n]];
      AfterLast(nackable, maxSize, front, ops[n]);
      QueuedIsAddedAndNotReleased(nackable, maxSize, front, m);
      AddedOneMore(nackable, maxSize, ops, m);
    }
  }

  lemma AddedOneMore(nackable: bool, maxSize: int, ops: seq<Op>, m: Msg)
    requires ops != []
    ensures var n := |ops| - 1;
            var q := After(nackable, maxSize, ops[..n]);
            (exists k: nat :: AddedAt(nackable, maxSize, ops, k, m)) <==>
              Adds(q, ops[n], m) ||
                  ((exists k: nat :: AddedAt(nackable, maxSize, ops[..n], k, m)) && !Releases(nackable, q, ops[n], m))
  {
    var n := |ops| - 1;
    var front := ops[..n];
    forall j: nat | j < n
        ensures ReleasedAt(nackable, maxSize, ops, j, m) <==> ReleasedAt(nackable, maxSize, front, j, m) {
      assert front[..j] == ops[..j];
    }
    if Adds(After(nackable, maxSize, front), ops[n], m) {
      assert AddedAt(nackable, maxSize, ops, n, m);
    }
    if k: nat :| AddedAt(nackable, maxSize, ops, k, m) {
      if k < n {
        assert front[..k] == ops[..k];
        assert ReleasedAt(nackable, maxSize, ops, n, m) <==>
               Releases(nackable, After(nackable, maxSize, front), ops[n], m);
        assert AddedAt(nackable, maxSize, front, k, m);
      }
    }
    if k: nat :| AddedAt(nackable, maxSize, front, k, m) {
      assert front[..k] == ops[..k];
      if !Releases(nackable, After(nackable, maxSize, front), ops[n], m) {
        assert !ReleasedAt(nackable, maxSize, ops, n, m);
        assert AddedAt(nackable, maxSize, ops, k, m);
      }
    }
  }

  /** How many operations of a history took a token. */
  function Takes(nackable: bool, maxSize: int, ops: seq<Op>): nat {
    if ops == [] then 0
    else
      var n := |ops| - 1;
      Takes(nackable, maxSize, ops[..n])
          + if ops[n].TakeToken? && After(nackable, maxSize, ops[..n]).tokens > 0 then 1 else 0
  }

  /** How many acknowledgements of a history returned nil. */
  function Acknowledged(nackable: bool, maxSize: int, ops: seq<Op>): nat {
    if ops == [] then 0
    else
      var n, op := |ops| - 1, ops[|ops| - 1];
      Acknowledged(nackable, maxSize, ops[..n])
      + if op.Ack? && AckSpec(After(nackable, maxSize, ops[..n]), op.msg, nackable, op.positive, op.brokerOk).1.Done?
          then 1 else 0
  }

  /**
  The channel holds the tokens it began with, less those taken, and one for each acknowledgement that
  returned nil.
  */
  lemma {:induction false} TokensAreTakenAndReturned(nackable: bool, maxSize: int, ops: seq<Op>)
    ensures var q := After(nackable, maxSize, ops);
            q.cap == Capacity(maxSize) &&
                q.tokens == q.cap - Takes(nackable, maxSize, ops) + Acknowledged(nackable, maxSize, ops)
    decreases |ops|
  {
    if ops != [] {
      var n := |ops| - 1;
      assert ops == ops[..n] + [ops[n]];
      AfterLast(nackable, maxSize, ops[..n], ops[n]);
      TokensAreTakenAndReturned(nackable, maxSize, ops[..n]);
      TokensStep(nackable, After(nackable, maxSize, ops[..n]), ops[n]);
    }
  }

  lemma TokensStep(nackable: bool, q: Spec, op: Op)
    ensures var q' := Next(nackable, q, op);
            && q'.cap == q.cap
            && q'.tokens == q.tokens - (if op.TakeToken? && q.tokens > 0 then 1 else 0)
                          + (if op.Ack? && AckSpec(q, op.msg, nackable, op.positive, op.brokerOk).1.Done? then 1 else 0)
  {
  }

  /**
  What the queue needs from its users. With `held` tokens taken and not yet spent, tokens are
  conserved by an accepted acknowledgement exactly when the message was in the queue; otherwise one
  token too many is returned, and the call hangs as soon as no token is outstanding.
  */
  lemma ReleaseConservesExactlyForMembers(q: Spec, m: Msg, held: nat)
    requires !q.hung && q.tokens + held + |q.queued| == q.cap
    ensures var (q', r) := ReleaseSpec(q, m);
            && (m in q.queued <==> r == Done && q'.tokens + held + |q'.queued| == q'.cap)
            && (m !in q.queued && held == 0 && q.queued == {} ==> r == Hung)
  {
    if m in q.queued {
      assert |q.queued - {m}| == |q.queued| - 1;
    } else {
      assert q.queued - {m} == q.queued;
    }
  }

  /**
  The queue alone does not protect itself against a second acknowledgement of a message: it hangs
  exactly when no token is outstanding then, and otherwise leaves one token too many.
  */
  lemma SecondAcknowledgementHangs(q: Spec, m: Msg, held: nat)
    requires !q.hung && q.tokens + held + |q.queued| == q.cap && m in q.queued
    ensures var (q1, r1) := ReleaseSpec(q, m);
            var (q2, r2) := ReleaseSpec(q1, m);
            && r1 == Done
            && (r2 == Hung <==> held == 0 && q.queued == {m})
            && (r2 != Hung ==> q2.tokens + held + |q2.queued| == q2.cap + 1)
  {
    var (q1, r1) := ReleaseSpec(q, m);
    ReleaseConservesExactlyForMembers(q, m, held);
    assert |q1.queued| == 0 <==> q1.queued == {};
    assert q.queued == q1.queued + {m};
    assert q1.queued - {m} == q1.queued;
  }
}
