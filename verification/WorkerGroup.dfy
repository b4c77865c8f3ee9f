/**
A group of jobs: the first error goes into a channel with one slot, later ones are dropped, and the
first Wait after all jobs are done takes it out and remembers it.
*/
module WorkerGroup {
  import opened Options

  type Error = nat

  /** The first error among the results, in the order in which the jobs reported them. */
  function FirstError(results: seq<Option<Error>>): Option<Error> {
    if results == [] then None
    else
      var earlier := FirstError(results[..|results| - 1]);
      if earlier.Some? then earlier else results[|results| - 1]
  }

  class Group {
    var pending: nat                         // the wait group
    var errChan: Option<Error>               // the one-slot channel
    var closed: bool                         // the once of Wait has run
    var errResult: Option<Error>
    var cancelled: bool
    ghost var results: seq<Option<Error>>    // what jobs have reported, in order
    ghost var waited: nat                    // how many of them before the first Wait

    /** The context is cancelled exactly when a job has failed or a Wait has returned. */
    ghost predicate Valid()
      reads this
    {
      && (!closed ==> errResult.None? && errChan == FirstError(results))
      && (closed ==> waited <= |results| && errResult == FirstError(results[..waited]))
      && (cancelled <==> closed || FirstError(results).Some?)
    }

    constructor ()
      ensures Valid() && pending == 0 && results == [] && !closed && !cancelled
    {
      pending, errChan, closed, errResult, cancelled := 0, None, false, None, false;
      results, waited := [], 0;
    }

    /** Submits a job. */
    method Do()
      requires Valid()
      modifies this`pending
      ensures Valid() && pending == old(pending) + 1
    {
      pending := pending + 1;
    }

    /** A job returns: its error, if any, is offered to the channel, and the group is told that it is done. */
    method JobDone(result: Option<Error>)
      requires Valid() && pending > 0
      modifies this`pending, this`errChan, this`cancelled, this`results
      ensures Valid() && pending == old(pending) - 1
      ensures results == old(results) + [result]
      ensures cancelled <==> old(cancelled) || (result.Some? && old(errChan).None?)
    {
      assert (results + [result])[..|results|] == results;
      assert closed ==> (results + [result])[..waited] == results[..waited];
      if result.Some? && errChan.None? {
        errChan := result;
        cancelled := true;
      }
      results := results + [result];
      pending := pending - 1;
    }

    /** Returns once no job is pending; it is not called before. */
    method Wait() returns (err: Option<Error>)
      requires Valid() && pending == 0
      modifies this`errChan, this`closed, this`errResult, this`cancelled, this`waited
      ensures Valid() && closed && waited == if old(closed) then old(waited) else |results|
      ensures err == FirstError(results[..waited])
    {
      if !closed {
        closed := true;
        cancelled := true;
        waited := |results|;
        assert results[..waited] == results;
        if errChan.Some? {
          errResult := errChan;
          errChan := None;
        }
      }
      err := errResult;
    }
  }

  /**
  The first error is nil exactly when every job returned nil; otherwise it is the error of some job,
  and of no later one than any other.
  */
  lemma {:induction false} FirstErrorIsFirst(results: seq<Option<Error>>)
    ensures FirstError(results).None? <==> forall i :: 0 <= i < |results| ==> results[i].None?
    ensures FirstError(results).Some? ==>
              exists i :: 0 <= i < |results| && results[i] == FirstError(results) && forall j :: 0 <= j < i ==>
                  results[j].None?
    decreases |results|
  {
    if results != [] {
      var n := |results| - 1;
      var front := results[..n];
      FirstErrorIsFirst(front);
      assert forall i :: 0 <= i < n ==> front[i] == results[i];
      if FirstError(front).Some? {
        var i :| 0 <= i < |front| && front[i] == FirstError(front) && forall j :: 0 <= j < i ==> front[j].None?;
        assert results[i] == FirstError(results) && forall j :: 0 <= j < i ==> results[j].None?;
      }
    }
  }

  // ------------------------------------------------------------------ every history of a group

  /**
  What happens to a group: a job is submitted, a pending job reports, a call of Wait returns, which it
  can once no job is pending.
  */
  datatype Op = Submit | Report(result: Option<Error>) | WaitReturns

  function Pending(ops: seq<Op>): nat {
    if ops == [] then 0
    else
      var before, op := Pending(ops[..|ops| - 1]), ops[|ops| - 1];
      if op.Submit? then before + 1 else if op.Report? && before > 0 then before - 1 else before
  }

  /** What the jobs have reported, in order. */
  function Reports(ops: seq<Op>): seq<Option<Error>> {
    if ops == [] then []
    else
      var front, op := ops[..|ops| - 1], ops[|ops| - 1];
      Reports(front) + if op.Report? && Pending(front) > 0 then [op.result] else []
  }

  predicate Returns(ops: seq<Op>, i: nat) {
    i < |ops| && ops[i].WaitReturns? && Pending(ops[..i]) == 0
  }

  /** What the jobs had reported when Wait returned for the first time. */
  function AtFirstWait(ops: seq<Op>): Option<seq<Option<Error>>> {
    if ops == [] then None
    else
      var front, op := ops[..|ops| - 1], ops[|ops| - 1];
      if AtFirstWait(front).Some? then AtFirstWait(front)
      else if op.WaitReturns? && Pending(front) == 0 then Some(Reports(front))
      else None
  }

  /** The answer of the Wait that returns at i, in terms of the history. */
  ghost predicate Answers(ops: seq<Op>, i: nat, answer: Option<Error>)
    requires i < |ops|
  {
    AtFirstWait(ops[..i + 1]).Some? && answer == FirstError(AtFirstWait(ops[..i + 1]).value)
  }

  /** The group is what its history makes of it. */
  ghost predicate Follows(g: Group, ops: seq<Op>)
    reads g
  {
    && g.Valid() && g.pending == Pending(ops) && g.results == Reports(ops)
    && (g.closed <==> AtFirstWait(ops).Some?)
    && (g.closed ==> g.results[..g.waited] == AtFirstWait(ops).value)
  }

  method Apply(g: Group, ops: seq<Op>, i: nat) returns (answer: Option<Option<Error>>)
    requires i < |ops| && Follows(g, ops[..i])
    modifies g
    ensures Follows(g, ops[..i + 1])
    ensures answer.Some? <==> Returns(ops, i)
    ensures answer.Some? ==> Answers(ops, i, answer.value)
  {
    assert ops[..i + 1][..i] == ops[..i];
    answer := None;
    ghost var was := g.results;
    match ops[i]
    case Submit => g.Do();
    case Report(result) =>
      if g.pending > 0 {
        g.JobDone(result);
        assert g.closed ==> g.results[..g.waited] == was[..g.waited];
      }
    case WaitReturns =>
      if g.pending == 0 {
        ghost var closed := g.closed;
        var e := g.Wait();
        assert !closed ==> g.results[..g.waited] == was;
        answer := Some(e);
      }
  }

  /**
  The life of a group: submissions, reports and Waits in any order. Each Wait answers with the first
  error reported before the first Wait returned.
  */
  method Live(ops: seq<Op>) returns (answers: map<nat, Option<Error>>)
    ensures forall i: nat :: i in answers <==> Returns(ops, i)
    ensures forall i: nat :: Returns(ops, i) ==> Answers(ops, i, answers[i])
  {
    var g := new Group();
    answers := map[];
    for i := 0 to |ops|
      invariant Follows(g, ops[..i])
      invariant forall k: nat :: k in answers <==> k < i && Returns(ops, k)
      invariant forall k: nat :: k < i && Returns(ops, k) ==> Answers(ops, k, answers[k])
    {
      var answer := Apply(g, ops, i);
      if answer.Some? {
        answers := answers[i := answer.value];
      }
    }
  }

  lemma {:induction false} FirstWaitIsBefore(ops: seq<Op>)
    ensures AtFirstWait(ops).Some? ==> AtFirstWait(ops).value <= Reports(ops)
    decreases |ops|
  {
    if ops != [] { FirstWaitIsBefore(ops[..|ops| - 1]); }
  }

  lemma {:induction false} FirstErrorOfPrefix(a: seq<Option<Error>>, b: seq<Option<Error>>)
    requires a <= b
    ensures FirstError(a).Some? ==> FirstError(b) == FirstError(a)
    ensures FirstError(a).None? ==> (FirstError(b).None? <==> forall k :: |a| <= k < |b| ==> b[k].None?)
    decreases |b|
  {
    if a != b {
      var n := |b| - 1;
      FirstErrorOfPrefix(a, b[..n]);
      assert forall k :: |a| <= k < n ==> b[..n][k] == b[k];
    }
  }

  /**
  A Wait answers with the first error of everything reported so far if and only if a job had failed
  when Wait first returned, or none has failed since. In particular it is right for every group that
  submits all its jobs before its first Wait.
  */
  lemma WaitIsRightIff(ops: seq<Op>, i: nat, answer: Option<Error>)
    requires Returns(ops, i) && Answers(ops, i, answer)
    ensures var first, all := AtFirstWait(ops[..i + 1]).value, Reports(ops[..i + 1]);
            && first <= all
            && (answer == FirstError(all) <==>
                FirstError(first).Some? || forall k :: |first| <= k < |all| ==> all[k].None?)
  {
    FirstWaitIsBefore(ops[..i + 1]);
    FirstErrorOfPrefix(AtFirstWait(ops[..i + 1]).value, Reports(ops[..i + 1]));
  }

  /** An error of a job submitted after the first Wait is never reported: Wait goes on answering as it did. */
  method LateErrorIsLost(e: Error) returns (answer: Option<Error>)
    ensures answer.None?
  {
    var g := new Group();
    var first := g.Wait();
    g.Do();
    g.JobDone(Some(e));
    answer := g.Wait();
  }
}
