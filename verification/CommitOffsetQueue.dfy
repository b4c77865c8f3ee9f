/**
The processing queue of a listener whose broker commits offsets.

`Spec` is the abstract view: the sequence of messages delivered so far, the positions of that
sequence that have been acknowledged, and the length of the prefix whose offset has been committed.
`Queue` is the queue itself: an array of flagged entries that is shifted in place after a commit,
and a bounded channel of tokens. Its methods are proved to be the operations of `Spec`.
*/
module CommitOffsetQueue {
  import opened Runs

  /** The identity of a delivered message (a pointer in the source; the same one may be added again). */
  type Msg = nat

  datatype Outcome =
    | Done
    | Full             // the queue has no room for another message
    | NackUnsupported  // a negative result cannot be acknowledged
    | CommitFailed     // the broker refused the offset
    | Hung             // the call never returns: it waits for a token slot or for the mutex of a call that does

  datatype Spec = Spec(
    cap: nat,              // capacity of the queue and of the token channel
    delivered: seq<Msg>,
    processed: set<nat>,   // positions in `delivered`
    committed: nat,        // length of the committed prefix
    commits: seq<nat>,     // the committed prefix after each successful commit
    tokens: nat,           // tokens lying in the channel
    hung: bool)

  datatype Op =
    | TakeToken
    | Add(msg: Msg)
    | Ack(msg: Msg, positive: bool, brokerOk: bool)

  function Capacity(maxSize: int): nat {
    if maxSize < 1 then 1 else maxSize
  }

  function New(maxSize: int): Spec {
    Spec(Capacity(maxSize), [], {}, 0, [], Capacity(maxSize), false)
  }

  predicate Wf(q: Spec) {
    && q.committed <= |q.delivered| <= q.committed + q.cap
    && q.tokens <= q.cap
    && (forall i :: i in q.processed ==> i < |q.delivered|)
    && (forall i :: 0 <= i < q.committed ==> i in q.processed)
  }

  function TakeTokenSpec(q: Spec): (Spec, bool) {
    if q.tokens > 0 then (q.(tokens := q.tokens - 1), true) else (q, false)
  }

  function AddSpec(q: Spec, m: Msg): (Spec, Outcome) {
    if q.hung then (q, Hung)
    else if |q.delivered| == q.committed + q.cap then (q, Full)
    else (q.(delivered := q.delivered + [m]), Done)
  }

  /** The positions still queued that hold message m. */
  function Occurrences(q: Spec, m: Msg): (r: set<nat>)
    ensures forall i :: i in r <==> q.committed <= i < |q.delivered| && q.delivered[i] == m
  {
    set i: nat | q.committed <= i < |q.delivered| && q.delivered[i] == m
  }

  /** The end of the longest run of processed positions that starts at `lo`. */
  function Frontier(processed: set<nat>, lo: nat, hi: nat): (f: nat)
    requires lo <= hi
    ensures lo <= f <= hi
    ensures forall i :: lo <= i < f ==> i in processed
    ensures f == hi || f !in processed
    decreases hi - lo
  {
    if lo < hi && lo in processed then Frontier(processed, lo + 1, hi) else lo
  }

  function AckSpec(q: Spec, m: Msg, positive: bool, brokerOk: bool): (Spec, Outcome)
    requires Wf(q)
  {
    if !positive then (q, NackUnsupported)
    else if q.hung then (q, Hung)
    else
      var marked := q.(processed := q.processed + Occurrences(q, m));
      var f := Frontier(marked.processed, q.committed, |q.delivered|);
      if f == q.committed then (marked, Done)
      else if !brokerOk then (marked, CommitFailed)
      else CommitSpec(marked, f)
  }

  /** The offset of position f - 1 is committed: the prefix grows to f and its slots become tokens. */
  function CommitSpec(q: Spec, f: nat): (Spec, Outcome)
    requires q.committed <= f
  {
    var freed := q.tokens + (f - q.committed);
    (q.(committed := f, commits := q.commits + [f],
        tokens := if freed <= q.cap then freed else q.cap, hung := freed > q.cap),
     if freed <= q.cap then Done else Hung)
  }

  function Next(q: Spec, op: Op): Spec {
    if !Wf(q) then q else  // never taken from a new queue: AfterIsWf
    match op
    case TakeToken => TakeTokenSpec(q).0
    case Add(m) => AddSpec(q, m).0
    case Ack(m, positive, brokerOk) => AckSpec(q, m, positive, brokerOk).0
  }

  function Result(q: Spec, op: Op): Outcome
    requires Wf(q)
  {
    match op
    case TakeToken => Done
    case Add(m) => AddSpec(q, m).1
    case Ack(m, positive, brokerOk) => AckSpec(q, m, positive, brokerOk).1
  }

  /** The state after a history of operations on a new queue. */
  function After(maxSize: int, ops: seq<Op>): Spec {
    Run(Next, New(maxSize), ops)
  }

  // ------------------------------------------------------------------ the queue itself

  datatype Entry = Entry(msg: Msg, processed: bool)

  class Queue {
    const entries: array<Entry>  // the queue is entries[..len]
    var len: nat
    var tokens: nat
    var hung: bool
    var offsets: seq<Msg>        // the messages whose offset the broker has accepted
    ghost var spec: Spec

    ghost predicate Represents(s: Spec)
      reads this, entries
    {
      && s.cap == entries.Length
      && s.tokens == tokens
      && s.hung == hung
      && len <= entries.Length
      && |s.delivered| == s.committed + len
      && (forall i :: 0 <= i < len ==>
            entries[i] == Entry(s.delivered[s.committed + i], s.committed + i in s.processed))
      && |offsets| == |s.commits|
      && (forall k :: 0 <= k < |s.commits| ==>
            0 < s.commits[k] <= |s.delivered| && offsets[k] == s.delivered[s.commits[k] - 1])
    }

    ghost predicate Valid()
      reads this, entries
    {
      Wf(spec) && Represents(spec)
    }

    constructor (maxSize: int)
      ensures Valid() && fresh(entries) && spec == New(maxSize)
    {
      var size := if maxSize < 1 then 1 else maxSize;
      entries := new Entry[size](_ => Entry(0, false));
      len := 0;
      tokens := size;
      hung := false;
      offsets := [];
      spec := New(maxSize);
    }

    method TakeToken() returns (ok: bool)
      requires Valid()
      modifies this
      ensures Valid() && (spec, ok) == TakeTokenSpec(old(spec))
    {
      spec := TakeTokenSpec(spec).0;
      ok := tokens > 0;
      if ok {
        tokens := tokens - 1;
      }
    }

    method AddProcessing(m: Msg) returns (r: Outcome)
      requires Valid()
      modifies this, entries
      ensures Valid() && (spec, r) == AddSpec(old(spec), m)
    {
      spec := AddSpec(spec, m).0;
      if hung {
        return Hung;
      }
      if len == entries.Length {
        return Full;
      }
      entries[len] := Entry(m, false);
      len := len + 1;
      return Done;
    }

    /** Sets the flag of every entry that holds m. */
    method MarkProcessed(m: Msg)
      requires Valid()
      modifies this`spec, entries
      ensures Valid() && spec == old(spec).(processed := old(spec).processed + Occurrences(old(spec), m))
    {
      ghost var was := entries[..];
      for i := 0 to len
        modifies entries
        invariant forall k :: i <= k < len ==> entries[k] == was[k]
        invariant forall k :: 0 <= k < i ==> entries[k] == Entry(was[k].msg, was[k].processed || was[k].msg == m)
      {
        if entries[i].msg == m {
          entries[i] := Entry(m, true);
        }
      }
      spec := spec.(processed := spec.processed + Occurrences(spec, m));
    }

    /** The number of processed entries at the head of the queue. */
    method ProcessedPrefix() returns (count: nat)
      requires Valid()
      ensures spec.committed + count == Frontier(spec.processed, spec.committed, |spec.delivered|)
    {
      count := 0;
      while count < len && entries[count].processed
        invariant count <= len
        invariant Frontier(spec.processed, spec.committed + count, |spec.delivered|)
               == Frontier(spec.processed, spec.committed, |spec.delivered|)
      {
        count := count + 1;
      }
    }

    /** Drops the first `count` entries by moving the rest to the front of the same array. */
    method Shift(count: nat)
      requires count <= len <= entries.Length
      modifies this`len, entries
      ensures len == old(len) - count
      ensures forall i :: 0 <= i < len ==> entries[i] == old(entries[i + count])
    {
      ghost var was := entries[..];
      for i := 0 to len - count
        modifies entries
        invariant forall k :: 0 <= k < i ==> entries[k] == was[k + count]
        invariant forall k :: i <= k < entries.Length ==> entries[k] == was[k]
      {
        entries[i] := entries[i + count];
      }
      len := len - count;
    }

    /** Sends `count` tokens; the send that finds the channel full never completes. */
    method ReturnTokens(count: nat) returns (blocked: bool)
      requires tokens <= entries.Length
      modifies this`tokens
      ensures blocked <==> old(tokens) + count > entries.Length
      ensures tokens == if blocked then entries.Length else old(tokens) + count
    {
      blocked := false;
      for i := 0 to count
        invariant tokens == old(tokens) + i <= entries.Length
      {
        if tokens == entries.Length {
          return true;
        }
        tokens := tokens + 1;
      }
    }

    method AcknowledgeResult(m: Msg, positive: bool, brokerOk: bool) returns (r: Outcome)
      requires Valid()
      modifies this, entries
      ensures Valid() && (spec, r) == AckSpec(old(spec), m, positive, brokerOk)
    {
      if !positive {
        return NackUnsupported;
      }
      if hung {
        return Hung;
      }
      MarkProcessed(m);
      var count := ProcessedPrefix();
      if count == 0 {
        return Done;
      }
      var last := entries[count - 1].msg;
      if !brokerOk {
        return CommitFailed;
      }
      r := CommitPrefix(count, last);
    }

    /** The rest of an acknowledgement once the broker has accepted the offset of the last of `count` entries. */
    method CommitPrefix(count: nat, last: Msg) returns (r: Outcome)
      requires Valid() && 0 < count <= len && last == entries[count - 1].msg
      requires spec.committed + count == Frontier(spec.processed, spec.committed, |spec.delivered|)
      modifies this, entries
      ensures Valid() && (spec, r) == CommitSpec(old(spec), old(spec).committed + count)
    {
      ghost var f := spec.committed + count;
      assert spec.delivered[f - 1] == last;
      offsets := offsets + [last];
      Shift(count);
      hung := ReturnTokens(count);
      spec := CommitSpec(spec, f).0;
      r := if hung then Hung else Done;
    }
  }

  // ------------------------------------------------------------------ every history of operations

  lemma AckKeepsWf(q: Spec, m: Msg, positive: bool, brokerOk: bool)
    requires Wf(q)
    ensures Wf(AckSpec(q, m, positive, brokerOk).0)
  {
    if positive && !q.hung {
      var marked := q.processed + Occurrences(q, m);
      var f := Frontier(marked, q.committed, |q.delivered|);
    }
  }

  lemma NextKeepsWf(q: Spec, op: Op)
    requires Wf(q)
    ensures Wf(Next(q, op))
  {
    if op.Ack? { AckKeepsWf(q, op.msg, op.positive, op.brokerOk); }
  }

  lemma AfterIsWf(maxSize: int, ops: seq<Op>)
    ensures Wf(After(maxSize, ops))
  {
    forall q, op | Wf(q) ensures Wf(Next(q, op)) { NextKeepsWf(q, op); }
    InvariantHolds(Next, Wf, New(maxSize), ops);
  }

  lemma AfterLast(maxSize: int, ops: seq<Op>)
    requires ops != []
    ensures var n := |ops| - 1;
            Wf(After(maxSize, ops[..n])) && After(maxSize, ops) == Next(After(maxSize, ops[..n]), ops[n])
  {
    var n := |ops| - 1;
    assert ops == ops[..n] + [ops[n]];
    AfterIsWf(maxSize, ops[..n]);
    RunConcat(Next, New(maxSize), ops[..n], [ops[n]]);
    var q := After(maxSize, ops[..n]);
    assert Run(Next, q, [ops[n]]) == Run(Next, Next(q, ops[n]), [ops[n]][1..]);
  }

  /**
  Position i has been acknowledged in a history when, at some point after the message of position i
  was added, that same message was acknowledged with a positive result.
  */
  ghost predicate AckedAt(maxSize: int, ops: seq<Op>, i: nat, k: nat) {
    && k < |ops|
    && ops[k].Ack? && ops[k].positive
    && var before := After(maxSize, ops[..k]);
       !before.hung && i < |before.delivered| && before.delivered[i] == ops[k].msg
  }

  ghost predicate Acked(maxSize: int, ops: seq<Op>, i: nat) {
    exists k: nat :: AckedAt(maxSize, ops, i, k)
  }

  lemma AckedOneMore(maxSize: int, ops: seq<Op>, i: nat)
    requires ops != []
    ensures var n := |ops| - 1;
            Acked(maxSize, ops, i) <==> Acked(maxSize, ops[..n], i) || AckedAt(maxSize, ops, i, n)
  {
    var n := |ops| - 1;
    forall k: nat | k < n ensures AckedAt(maxSize, ops, i, k) <==> AckedAt(maxSize, ops[..n], i, k) {
      assert ops[..n][..k] == ops[..k];
    }
    if Acked(maxSize, ops, i) {
      var k: nat :| AckedAt(maxSize, ops, i, k);
      assert k < n ==> AckedAt(maxSize, ops[..n], i, k);
    }
    if Acked(maxSize, ops[..n], i) {
      var k: nat :| AckedAt(maxSize, ops[..n], i, k);
      assert AckedAt(maxSize, ops, i, k);
    }
  }

  /** The flags of the queue agree with the history: a position is flagged exactly when it has been acknowledged. */
  lemma {:induction false} ProcessedIsAcked(maxSize: int, ops: seq<Op>, i: nat)
    ensures i in After(maxSize, ops).processed <==> Acked(maxSize, ops, i)
    decreases |ops|
  {
    if ops == [] {
    } else {
      var n := |ops| - 1;
      AfterLast(maxSize, ops);
      AfterIsWf(maxSize, ops);
      ProcessedIsAcked(maxSize, ops[..n], i);
      AckedOneMore(maxSize, ops, i);
    }
  }

  /**
  The committed prefix never contains an unacknowledged message, whatever was added, acknowledged,
  acknowledged again or refused by the broker.
  */
  lemma NeverPassesUnacknowledged(maxSize: int, ops: seq<Op>, i: nat)
    requires i < After(maxSize, ops).committed
    ensures i < |After(maxSize, ops).delivered| && Acked(maxSize, ops, i)
  {
    AfterIsWf(maxSize, ops);
    ProcessedIsAcked(maxSize, ops, i);
  }

  /**
  After an acknowledgement that returns without error, the commit point is exactly the longest
  prefix of the delivered sequence that has been acknowledged.
  */
  lemma CommitPointIsLongestAckedPrefix(maxSize: int, ops: seq<Op>, op: Op)
    requires op.Ack? && Wf(After(maxSize, ops)) && Result(After(maxSize, ops), op) == Done
    ensures var q := After(maxSize, ops + [op]);
            && (forall i: nat :: i < q.committed ==> Acked(maxSize, ops + [op], i))
            && (q.committed == |q.delivered| || !Acked(maxSize, ops + [op], q.committed))
  {
    var all := ops + [op];
    AfterLast(maxSize, all);
    assert all[..|all| - 1] == ops;
    var q := After(maxSize, all);
    AfterIsWf(maxSize, all);
    forall i: nat | i < q.committed ensures Acked(maxSize, all, i) { ProcessedIsAcked(maxSize, all, i); }
    ProcessedIsAcked(maxSize, all, q.committed);
  }

  ghost predicate CommitsAdvance(q: Spec) {
    && Wf(q)
    && (forall j, k :: 0 <= j < k < |q.commits| ==> q.commits[j] < q.commits[k])
    && (forall k :: 0 <= k < |q.commits| ==> 0 < q.commits[k] <= q.committed)
    && q.committed == (if q.commits == [] then 0 else q.commits[|q.commits| - 1])
  }

  /** Successful commits strictly advance, and the last one is where the queue begins. */
  lemma CommitsStrictlyAdvance(maxSize: int, ops: seq<Op>)
    ensures CommitsAdvance(After(maxSize, ops))
  {
    forall q, op | CommitsAdvance(q) ensures CommitsAdvance(Next(q, op)) { NextKeepsWf(q, op); }
    InvariantHolds(Next, CommitsAdvance, New(maxSize), ops);
  }

  /** The delivered sequence only grows, and the committed prefix is never taken back. */
  lemma HistoryOnlyGrows(maxSize: int, ops: seq<Op>, more: seq<Op>)
    ensures var a, b := After(maxSize, ops), After(maxSize, ops + more);
            a.delivered <= b.delivered && a.committed <= b.committed && a.processed <= b.processed &&
                a.commits <= b.commits
  {
    var rel := (a: Spec, b: Spec) =>
      a.delivered <= b.delivered && a.committed <= b.committed && a.processed <= b.processed && a.commits <= b.commits;
    AfterIsWf(maxSize, ops);
    forall q, op | Wf(q) ensures Wf(Next(q, op)) && rel(q, Next(q, op)) { NextKeepsWf(q, op); }
    RelationHolds(Next, Wf, rel, After(maxSize, ops), more);
    RunConcat(Next, New(maxSize), ops, more);
  }

  /**
  Tokens are conserved by the queue alone as long as every message added was paid for with a token:
  what the channel, the queue and the holders of unspent tokens have adds up to the capacity, and
  then no acknowledgement can hang and no message is refused for lack of room.
  */
  lemma TokensConserved(q: Spec, op: Op, held: nat)
    requires Wf(q) && !q.hung
    requires q.tokens + held + (|q.delivered| - q.committed) == q.cap
    requires op.Add? ==> held > 0
    ensures var q' := Next(q, op);
            var held' := match op case TakeToken => if q.tokens > 0 then held + 1 else held
                                  case Add(_) => held - 1
                                  case Ack(_, _, _) => held;
            && Result(q, op) !in {Hung, Full}
            && !q'.hung
            && q'.tokens + held' + (|q'.delivered| - q'.committed) == q'.cap
  {
    NextKeepsWf(q, op);
  }
}
