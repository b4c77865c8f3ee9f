/**
The transactional outbox: batches of due messages are produced to the broker in schedule order, and
each is deleted from the table after it was produced.

Every call to the environment may fail, a bounded but unknown number of times (`faults`); which
calls fail, and what the clock says, is left open, so the contracts hold for every pattern of
failures. A process that stops between a send and its delete is a delete that failed without effect.
*/
module Outbox {
  import opened MessageStorage

  datatype Key = Key(id: nat, topic: nat)

  datatype Event =
    | LockFailed
    | ReleaseFailed
    | FindFailed
    | Sent(key: Key)
    | SendFailed(key: Key)
    | Deleted(key: Key)
    | DeleteFailed(key: Key, removed: bool)  // reported an error, with or without effect

  /** How often e happened. */
  function Count(log: seq<Event>, e: Event): nat {
    if log == [] then 0 else Count(log[..|log| - 1], e) + if log[|log| - 1] == e then 1 else 0
  }

  function FailedDeletes(log: seq<Event>, k: Key): nat {
    Count(log, DeleteFailed(k, true)) + Count(log, DeleteFailed(k, false))
  }

  predicate IsFailure(e: Event) {
    !e.Sent? && !e.Deleted?
  }

  /** How many calls failed. */
  function Failures(log: seq<Event>): nat {
    if log == [] then 0 else Failures(log[..|log| - 1]) + if IsFailure(log[|log| - 1]) then 1 else 0
  }

  /** The keys of the successful sends, in order. */
  function Sends(log: seq<Event>): seq<Key> {
    if log == [] then []
    else
      var e := log[|log| - 1];
      Sends(log[..|log| - 1]) + if e.Sent? then [e.key] else []
  }

  function KeySet(keys: seq<Key>): set<Key> {
    set k | k in keys
  }

  predicate IsLockError(e: Event) {
    e.LockFailed? || e.ReleaseFailed?
  }

  /** How often taking or releasing the lock failed. */
  function LockErrors(log: seq<Event>): nat {
    if log == [] then 0 else LockErrors(log[..|log| - 1]) + if IsLockError(log[|log| - 1]) then 1 else 0
  }

  ghost predicate Removed(log: seq<Event>, k: Key) {
    Deleted(k) in log || DeleteFailed(k, true) in log
  }

  /** Sends go forward in schedule order, and nothing earlier than the last send is left. */
  ghost predicate InOrder(backlog: map<Key, Time>, rows: map<Key, Time>, log: seq<Event>) {
    && (forall i :: 0 <= i < |log| && log[i].Sent? ==> log[i].key in backlog)
    && (forall i, j :: 0 <= i < j < |log| && log[i].Sent? && log[j].Sent? ==>
        backlog[log[i].key] <= backlog[log[j].key])
    && (forall i, k :: 0 <= i < |log| && log[i].Sent? && k in rows ==> backlog[log[i].key] <= rows[k])
  }

  /** Every send of k but an open one was followed by its delete, successful or not, and k is deleted at most once. */
  ghost predicate Balanced(log: seq<Event>, k: Key, open: set<Key>) {
    && Count(log, Sent(k)) == Count(log, Deleted(k)) + FailedDeletes(log, k) + (if k in open then 1 else 0)
    && Count(log, Deleted(k)) <= 1
  }

  /** Each delete directly follows a send of the same message. */
  ghost predicate DeletesFollowSends(log: seq<Event>) {
    forall i :: 0 <= i < |log| && (log[i].Deleted? || log[i].DeleteFailed?) ==> 0 < i && log[i - 1] == Sent(log[i].key)
  }

  /** The table is the backlog without what the log says was removed. */
  ghost predicate RowsMatch(backlog: map<Key, Time>, rows: map<Key, Time>, log: seq<Event>) {
    && rows.Keys <= backlog.Keys
    && (forall k :: k in rows ==> rows[k] == backlog[k] && !Removed(log, k))
    && (forall k :: k in backlog && k !in rows ==> Removed(log, k))
  }

  /** What the table and the log of calls say of each other, for a backlog to which nothing is added. */
  ghost predicate Consistent(backlog: map<Key, Time>, rows: map<Key, Time>, log: seq<Event>, open: set<Key>) {
    && RowsMatch(backlog, rows, log)
    && InOrder(backlog, rows, log)
    && DeletesFollowSends(log)
    && (forall k :: Balanced(log, k, open))
  }

  // ---- one event

  lemma CountAppended(log: seq<Event>, e: Event, x: Event)
    ensures Count(log + [e], x) == Count(log, x) + if x == e then 1 else 0
  {
    assert (log + [e])[..|log|] == log;
  }

  lemma FailuresAppended(log: seq<Event>, e: Event)
    ensures Failures(log + [e]) == Failures(log) + if IsFailure(e) then 1 else 0
    ensures LockErrors(log + [e]) == LockErrors(log) + if IsLockError(e) then 1 else 0
  {
    assert (log + [e])[..|log|] == log;
  }

  lemma {:induction false} CountIsZero(log: seq<Event>, e: Event)
    requires e !in log
    ensures Count(log, e) == 0
    decreases |log|
  {
    if log != [] { CountIsZero(log[..|log| - 1], e); }
  }

  lemma OtherKeepsOrder(backlog: map<Key, Time>, rows: map<Key, Time>, rows': map<Key, Time>, log: seq<Event>, e: Event)
    requires InOrder(backlog, rows, log) && !e.Sent? && rows'.Keys <= rows.Keys && forall k :: k in rows' ==>
             rows'[k] == rows[k]
    ensures InOrder(backlog, rows', log + [e])
  {
    var log' := log + [e];
    assert forall i :: 0 <= i < |log'| && log'[i].Sent? ==> i < |log| && log'[i] == log[i];
  }

  lemma SentKeepsOrder(backlog: map<Key, Time>, rows: map<Key, Time>, log: seq<Event>, k: Key)
    requires InOrder(backlog, rows, log) && k in rows && k in backlog && rows[k] == backlog[k]
    requires forall r :: r in rows ==> rows[k] <= rows[r]
    ensures InOrder(backlog, rows, log + [Sent(k)])
  {
    var log' := log + [Sent(k)];
    assert forall i :: 0 <= i < |log| ==> log'[i] == log[i];
  }

  lemma DeletesStillFollow(log: seq<Event>, e: Event)
    requires DeletesFollowSends(log)
    requires e.Deleted? || e.DeleteFailed? ==> log != [] && log[|log| - 1] == Sent(e.key)
    ensures DeletesFollowSends(log + [e])
  {
    var log' := log + [e];
    assert forall i :: 0 <= i < |log| ==> log'[i] == log[i];
  }

  lemma RemovedAppended(log: seq<Event>, e: Event, k: Key)
    ensures Removed(log + [e], k) <==> Removed(log, k) || e == Deleted(k) || e == DeleteFailed(k, true)
  {
  }

  lemma RowsStillMatch(backlog: map<Key, Time>, rows: map<Key, Time>, log: seq<Event>, e: Event)
    requires RowsMatch(backlog, rows, log) && !e.Deleted? && !e.DeleteFailed?
    ensures RowsMatch(backlog, rows, log + [e])
  {
    forall k ensures Removed(log + [e], k) <==> Removed(log, k) { RemovedAppended(log, e, k); }
  }

  lemma BalancedAppended(log: seq<Event>, e: Event, k: Key, open: set<Key>)
    requires Balanced(log, k, open) && !e.Deleted? && !e.DeleteFailed? && (e.Sent? ==> e.key !in open)
    ensures Balanced(log + [e], k, if e.Sent? then open + {e.key} else open)
  {
    CountAppended(log, e, Sent(k));
    CountAppended(log, e, Deleted(k));
    CountAppended(log, e, DeleteFailed(k, true));
    CountAppended(log, e, DeleteFailed(k, false));
  }

  lemma AfterOther(backlog: map<Key, Time>, rows: map<Key, Time>, log: seq<Event>, e: Event)
    requires Consistent(backlog, rows, log, {}) && !e.Sent? && !e.Deleted? && !e.DeleteFailed?
    ensures Consistent(backlog, rows, log + [e], {})
  {
    OtherKeepsOrder(backlog, rows, rows, log, e);
    DeletesStillFollow(log, e);
    RowsStillMatch(backlog, rows, log, e);
    forall k ensures Balanced(log + [e], k, {}) { BalancedAppended(log, e, k, {}); }
  }

  predicate IsEarliest(rows: map<Key, Time>, k: Key) {
    k in rows && forall r :: r in rows ==> rows[k] <= rows[r]
  }

  lemma AfterSent(backlog: map<Key, Time>, rows: map<Key, Time>, log: seq<Event>, k: Key)
    requires Consistent(backlog, rows, log, {}) && IsEarliest(rows, k)
    ensures Consistent(backlog, rows, log + [Sent(k)], {k})
  {
    SentKeepsOrder(backlog, rows, log, k);
    DeletesStillFollow(log, Sent(k));
    RowsStillMatch(backlog, rows, log, Sent(k));
    forall r ensures Balanced(log + [Sent(k)], r, {k}) {
      BalancedAppended(log, Sent(k), r, {});
      assert {} + {k} == {k};
    }
  }

  lemma AfterDelete(backlog: map<Key, Time>, rows: map<Key, Time>, log: seq<Event>, k: Key, e: Event)
    requires Consistent(backlog, rows, log, {k}) && k in rows && log != [] && log[|log| - 1] == Sent(k)
    requires e == Deleted(k) || (e.DeleteFailed? && e.key == k)
    ensures Consistent(backlog, if e == DeleteFailed(k, false) then rows else rows - {k}, log + [e], {})
  {
    var rows' := if e == DeleteFailed(k, false) then rows else rows - {k};
    OtherKeepsOrder(backlog, rows, rows', log, e);
    DeletesStillFollow(log, e);
    RowsAfterDelete(backlog, rows, log, k, e);
    assert !Removed(log, k);
    CountIsZero(log, Deleted(k));
    forall r ensures Balanced(log + [e], r, {}) { BalancedAfterDelete(log, k, e, r); }
  }

  lemma RowsAfterDelete(backlog: map<Key, Time>, rows: map<Key, Time>, log: seq<Event>, k: Key, e: Event)
    requires RowsMatch(backlog, rows, log) && k in rows
    requires e == Deleted(k) || (e.DeleteFailed? && e.key == k)
    ensures RowsMatch(backlog, if e == DeleteFailed(k, false) then rows else rows - {k}, log + [e])
  {
    forall r ensures Removed(log + [e], r) <==> Removed(log, r) || e == Deleted(r) || e == DeleteFailed(r, true) {
      RemovedAppended(log, e, r);
    }
  }

  lemma BalancedAfterDelete(log: seq<Event>, k: Key, e: Event, r: Key)
    requires Balanced(log, r, {k}) && Count(log, Deleted(k)) == 0
    requires e == Deleted(k) || (e.DeleteFailed? && e.key == k)
    ensures Balanced(log + [e], r, {})
  {
    CountAppended(log, e, Sent(r));
    CountAppended(log, e, Deleted(r));
    CountAppended(log, e, DeleteFailed(r, true));
    CountAppended(log, e, DeleteFailed(r, false));
  }

  // ------------------------------------------------------------------ the outbox

  class Outbox {
    const batchSize: int
    ghost const backlog: map<Key, Time>
    ghost const budget: nat
    var rows: map<Key, Time>
    var log: seq<Event>
    var locked: bool     // this process holds the storage lock
    var clock: Time
    var lastFind: Time   // the clock at the last successful query
    var faults: nat      // how many more calls may fail

    ghost predicate Valid()
      reads this
    {
      Consistent(backlog, rows, log, {}) && Failures(log) + faults == budget
    }

    /** Nothing that was due at the last query is left. */
    ghost predicate Drained()
      reads this
    {
      forall k :: k in rows ==> rows[k] > lastFind
    }

    constructor (batchSize: int, rows: map<Key, Time>, clock: Time, faults: nat)
      ensures Valid() && this.rows == rows && log == [] && this.faults == faults && this.batchSize == batchSize
      ensures this.clock == clock && !locked
      ensures backlog == rows && budget == faults
    {
      this.batchSize := batchSize;
      this.backlog := rows;
      this.budget := faults;
      this.rows := rows;
      this.log := [];
      this.clock, this.lastFind, this.locked := clock, clock, false;
      this.faults := faults;
    }

    /** Whether the next call of the environment succeeds. */
    method Try() returns (ok: bool)
      modifies this`faults
      ensures faults == if ok then old(faults) else old(faults) - 1
      ensures old(faults) == 0 ==> ok
    {
      ok := true;
      if faults > 0 {
        ok := *;
        if !ok {
          faults := faults - 1;
        }
      }
    }

    /** Time passes. */
    method Tick()
      modifies this`clock
      ensures clock >= old(clock)
    {
      var now: Time := *;
      if now > clock {
        clock := now;
      }
    }

    /** Takes note of a failed call other than a delete. */
    method Note(e: Event)
      requires Consistent(backlog, rows, log, {}) && Failures(log) + faults + 1 == budget
      requires IsFailure(e) && !e.DeleteFailed?
      modifies this`log
      ensures Valid() && log == old(log) + [e]
      ensures LockErrors(log) == LockErrors(old(log)) + if IsLockError(e) then 1 else 0
    {
      AfterOther(backlog, rows, log, e);
      FailuresAppended(log, e);
      log := log + [e];
    }

    /** Produces one message and deletes it; false if either failed. */
    method SendAndDelete(k: Key) returns (ok: bool)
      requires locked && Valid() && IsEarliest(rows, k)
      modifies this`rows, this`log, this`faults
      ensures Valid() && old(log) <= log && faults <= old(faults)
      ensures ok ==> rows == old(rows) - {k} && faults == old(faults)
      ensures !ok ==> (rows == old(rows) || rows == old(rows) - {k}) && faults < old(faults)
      ensures LockErrors(log) == LockErrors(old(log))
    {
      ok := Try();
      if ok {
        ok := DeleteSent(k);
      } else {
        Note(SendFailed(k));
      }
    }

    /** A message that was just sent is noted and deleted. */
    method DeleteSent(k: Key) returns (ok: bool)
      requires locked && Valid() && IsEarliest(rows, k)
      modifies this`rows, this`log, this`faults
      ensures Valid() && old(log) <= log && LockErrors(log) == LockErrors(old(log))
      ensures ok ==> rows == old(rows) - {k} && faults == old(faults)
      ensures !ok ==> (rows == old(rows) || rows == old(rows) - {k}) && faults < old(faults)
    {
      NoteSent(k);
      ok := Delete(k);
    }

    /** Takes note of a send. */
    method NoteSent(k: Key)
      requires locked && Valid() && IsEarliest(rows, k)
      modifies this`log
      ensures Consistent(backlog, rows, log, {k}) && Failures(log) + faults == budget
      ensures log == old(log) + [Sent(k)] && LockErrors(log) == LockErrors(old(log))
    {
      AfterSent(backlog, rows, log, k);
      FailuresAppended(log, Sent(k));
      log := log + [Sent(k)];
    }

    /** Deletes a message that was just sent; a delete that fails may have removed the row. */
    method Delete(k: Key) returns (ok: bool)
      requires locked && Consistent(backlog, rows, log, {k}) && Failures(log) + faults == budget
      requires k in rows && log != [] && log[|log| - 1] == Sent(k)
      modifies this`rows, this`log, this`faults
      ensures Valid() && old(log) <= log && LockErrors(log) == LockErrors(old(log))
      ensures ok ==> rows == old(rows) - {k} && faults == old(faults)
      ensures !ok ==> (rows == old(rows) || rows == old(rows) - {k}) && faults < old(faults)
    {
      ok := Try();
      var removed: bool := *;
      var e := if ok then Deleted(k) else DeleteFailed(k, removed);
      AfterDelete(backlog, rows, log, k, e);
      FailuresAppended(log, e);
      log := log + [e];
      if ok || removed {
        rows := rows - {k};
      }
    }

    /** Sends and deletes the messages found, in order, up to the first failure. */
    method DeliverAll(now: Time, msgs: seq<Key>) returns (ok: bool)
      requires locked && Valid() && IsFound(rows, {}, now, batchSize, msgs)
      modifies this`rows, this`log, this`faults
      ensures Valid() && old(log) <= log && faults <= old(faults)
      ensures rows.Keys <= old(rows.Keys)
      ensures ok ==> rows == old(rows) - KeySet(msgs)
      ensures !ok ==> faults < old(faults)
      ensures LockErrors(log) == LockErrors(old(log))
    {
      for i := 0 to |msgs|
        invariant Valid() && old(log) <= log && faults <= old(faults)
        invariant rows == old(rows) - KeySet(msgs[..i])
        invariant LockErrors(log) == LockErrors(old(log))
      {
        NextIsEarliest(old(rows), now, batchSize, msgs, i, rows);
        ok := SendAndDelete(msgs[i]);
        if !ok {
          return false;
        }
      }
      assert msgs[..|msgs|] == msgs;
      return true;
    }

    /** Looks for what is due now. */
    method Query() returns (now: Time, msgs: seq<Key>)
      modifies this`clock, this`lastFind
      ensures old(clock) <= clock == lastFind == now && IsFound(rows, {}, now, batchSize, msgs)
    {
      Tick();
      now := clock;
      msgs := Find(rows, {}, now, batchSize);
      lastFind := now;
    }

    /** The part of a batch under the lock. */
    method Deliver() returns (allProcessed: bool)
      requires locked && Valid()
      modifies this`rows, this`log, this`clock, this`lastFind, this`faults
      ensures Valid() && old(log) <= log && faults <= old(faults) && clock >= old(clock)
      ensures rows.Keys <= old(rows.Keys)
      ensures allProcessed ==> Drained() && old(clock) <= lastFind <= clock
      ensures !allProcessed ==> faults < old(faults) || |rows| < |old(rows)|
      ensures LockErrors(log) == LockErrors(old(log))
    {
      var ok := Try();
      if !ok {
        Note(FindFailed);
        return false;
      }
      var now, msgs := Query();
      if |msgs| == 0 {
        NothingLeft(rows, now, batchSize, msgs);
        return true;
      }
      ok := DeliverAll(now, msgs);
      if !ok {
        return false;
      }
      allProcessed := |msgs| < batchSize;
      assert msgs[0] in old(rows);
      FewerKeys(rows, old(rows), msgs[0]);
      if allProcessed { NothingLeft(old(rows), now, batchSize, msgs); }
    }

    /**
    One batch. The error of the deferred release replaces whatever error the batch had, so a failed
    query, send or delete is reported as "not all processed" without an error.
    */
    method ProcessBatch() returns (allProcessed: bool, err: bool)
      requires !locked && Valid()
      modifies this`rows, this`log, this`locked, this`clock, this`lastFind, this`faults
      ensures !locked && Valid() && old(log) <= log && faults <= old(faults) && clock >= old(clock)
      ensures rows.Keys <= old(rows.Keys)
      ensures allProcessed ==> Drained() && old(clock) <= lastFind <= clock
      ensures LockErrors(log) == LockErrors(old(log)) + if err then 1 else 0
      ensures err ==> faults < old(faults)
      ensures !allProcessed ==> faults < old(faults) || |rows| < |old(rows)|
    {
      err := Lock();
      if err {
        return false, true;
      }
      allProcessed := Deliver();
      err := Unlock();
    }

    /** Takes the storage lock; a failure is noted. */
    method Lock() returns (err: bool)
      requires !locked && Valid()
      modifies this`log, this`locked, this`faults
      ensures Valid() && locked == !err
      ensures if err then log == old(log) + [LockFailed] && faults < old(faults)
              else log == old(log) && faults == old(faults)
      ensures LockErrors(log) == LockErrors(old(log)) + if err then 1 else 0
    {
      locked := Try();
      err := !locked;
      if err {
        Note(LockFailed);
      }
    }

    /** Releases it; after a failure, too, it is not held any more. */
    method Unlock() returns (err: bool)
      requires locked && Valid()
      modifies this`log, this`locked, this`faults
      ensures Valid() && !locked
      ensures if err then log == old(log) + [ReleaseFailed] && faults < old(faults)
              else log == old(log) && faults == old(faults)
      ensures LockErrors(log) == LockErrors(old(log)) + if err then 1 else 0
    {
      var ok := Try();
      err, locked := !ok, false;
      if err {
        Note(ReleaseFailed);
      }
    }

    /** The batch loop that is retried as a whole. */
    method ProcessBatches() returns (err: bool)
      requires !locked && Valid()
      modifies this`rows, this`log, this`locked, this`clock, this`lastFind, this`faults
      ensures !locked && Valid() && old(log) <= log && faults <= old(faults) && clock >= old(clock)
      ensures rows.Keys <= old(rows.Keys)
      ensures !err ==> Drained() && old(clock) <= lastFind <= clock
      ensures err ==> faults < old(faults)
      ensures LockErrors(log) == LockErrors(old(log)) + if err then 1 else 0
    {
      var allProcessed := false;
      err := false;
      while !allProcessed
        invariant !locked && Valid() && old(log) <= log && faults <= old(faults) && clock >= old(clock)
        invariant rows.Keys <= old(rows.Keys)
        invariant allProcessed ==> Drained() && old(clock) <= lastFind <= clock
        invariant !err && LockErrors(log) == LockErrors(old(log))
        decreases !allProcessed, faults, |rows|
      {
        allProcessed, err := ProcessBatch();
        if err {
          return;
        }
      }
    }

    /**
    Processing as the worker does it: retried until it succeeds, or gives up because the context was
    cancelled, which it sees after `patience` repetitions. It ends for every batch size, also zero and
    negative, and every finite number of failures. It fails exactly if taking or releasing the lock failed
    more than `patience` times; otherwise nothing that was due when it was called is left.
    */
    method Process(patience: nat) returns (done: bool)
      requires !locked && Valid()
      modifies this`rows, this`log, this`locked, this`clock, this`lastFind, this`faults
      ensures !locked && Valid() && old(log) <= log && faults <= old(faults) && clock >= old(clock)
      ensures rows.Keys <= old(rows.Keys)
      ensures done ==> Drained() && old(clock) <= lastFind <= clock
      ensures done ==> LockErrors(log) <= LockErrors(old(log)) + patience
      ensures !done ==> LockErrors(log) == LockErrors(old(log)) + patience + 1
      ensures old(faults) <= patience ==> done
    {
      done := false;
      var tried := 0;
      while !done
        invariant !locked && Valid() && old(log) <= log && faults + tried <= old(faults) && clock >= old(clock)
        invariant rows.Keys <= old(rows.Keys) && tried <= patience
        invariant done ==> Drained() && old(clock) <= lastFind <= clock
        invariant LockErrors(log) == LockErrors(old(log)) + tried
        decreases !done, faults
      {
        var err := ProcessBatches();
        done := !err;
        if err {
          if tried == patience {
            return;
          }
          tried := tried + 1;
        }
      }
    }
  }

  lemma HeadOfRest(found: map<Key, Time>, now: Time, limit: int, msgs: seq<Key>, i: nat, r: Key)
    requires IsFound(found, {}, now, limit, msgs) && i < |msgs| && r in found && r !in msgs[..i]
    ensures found[msgs[i]] <= found[r]
  {
    if r in msgs {
      var j :| 0 <= j < |msgs| && msgs[j] == r;
    } else {
      FoundIsHead(found, now, limit, msgs, r, i);
    }
  }

  lemma NextIsEarliest(found: map<Key, Time>, now: Time, limit: int, msgs: seq<Key>, i: nat, rows: map<Key, Time>)
    requires IsFound(found, {}, now, limit, msgs) && i < |msgs| && rows == found - KeySet(msgs[..i])
    ensures msgs[i] in rows && forall r :: r in rows ==> rows[msgs[i]] <= rows[r]
    ensures rows - {msgs[i]} == found - KeySet(msgs[..i + 1])
  {
    assert msgs[i] !in msgs[..i];
    assert msgs[..i + 1] == msgs[..i] + [msgs[i]];
    forall r | r in rows ensures rows[msgs[i]] <= rows[r] {
      HeadOfRest(found, now, limit, msgs, i, r);
    }
  }

  /** A query that found nothing, or less than its limit, found everything that was due. */
  lemma NothingLeft(found: map<Key, Time>, now: Time, limit: int, msgs: seq<Key>)
    requires IsFound(found, {}, now, limit, msgs) && (msgs == [] || |msgs| < limit)
    ensures forall k :: k in found && k !in KeySet(msgs) ==> found[k] > now
  {
    forall k | k in found && k !in KeySet(msgs) ensures found[k] > now {
      if msgs == [] {
        NothingFoundNothingDue(found, {}, now, limit, k);
      } else {
        ShortResultIsComplete(found, {}, now, limit, msgs, k);
      }
    }
  }

  lemma FewerKeys(a: map<Key, Time>, b: map<Key, Time>, k: Key)
    requires a.Keys <= b.Keys && k in b.Keys && k !in a.Keys
    ensures |a| < |b|
  {
    assert b.Keys == a.Keys + (b.Keys - a.Keys);
    assert |b.Keys - a.Keys| > 0;
  }

  // ------------------------------------------------------------------ what the log says

  lemma {:induction false} SendsAreInLog(log: seq<Event>, k: Key)
    ensures k in Sends(log) <==> Sent(k) in log
    decreases |log|
  {
    if log != [] {
      var n := |log| - 1;
      SendsAreInLog(log[..n], k);
      assert log == log[..n] + [log[n]];
    }
  }

  lemma {:induction false} SendsAreOrdered(backlog: map<Key, Time>, rows: map<Key, Time>, log: seq<Event>, i: nat,
      j: nat)
    requires InOrder(backlog, rows, log) && i < j < |Sends(log)|
    ensures Leq(backlog, Sends(log)[i], Sends(log)[j])
    decreases |log|
  {
    var n := |log| - 1;
    var front := log[..n];
    if j < |Sends(front)| {
      assert InOrder(backlog, rows, front);
      SendsAreOrdered(backlog, rows, front, i, j);
    } else {
      SendsAreInLog(front, Sends(front)[i]);
      var m :| 0 <= m < |front| && front[m] == Sent(Sends(front)[i]);
      assert log[m] == front[m] && log[n] == Sent(Sends(log)[j]);
    }
  }

  ghost predicate Leq(backlog: map<Key, Time>, a: Key, b: Key) {
    a in backlog && b in backlog && backlog[a] <= backlog[b]
  }

  ghost predicate Ordered(backlog: map<Key, Time>, keys: seq<Key>) {
    forall i, j :: 0 <= i < j < |keys| ==> Leq(backlog, keys[i], keys[j])
  }

  /**
  What an outbox that nothing is stored into does, whatever fails: successful sends never go back in
  schedule order; a message is sent at most once more than its deletes failed; it is deleted at most
  once, and each delete directly follows a send of the same message; and a message is in the table,
  or was sent before it was removed.
  */
  lemma OutboxGuarantees(backlog: map<Key, Time>, rows: map<Key, Time>, log: seq<Event>, k: Key)
    requires Consistent(backlog, rows, log, {})
    ensures Ordered(backlog, Sends(log))
    ensures Count(log, Sent(k)) <= 1 + FailedDeletes(log, k)
    ensures DeletesFollowSends(log) && Count(log, Deleted(k)) <= 1
    ensures k in backlog ==> k in rows || k in Sends(log)
  {
    forall i, j | 0 <= i < j < |Sends(log)| ensures Leq(backlog, Sends(log)[i], Sends(log)[j]) {
      SendsAreOrdered(backlog, rows, log, i, j);
    }
    SendsAreInLog(log, k);
    assert Balanced(log, k, {});
    if k in backlog && k !in rows {
      var i :| 0 <= i < |log| && (log[i] == Deleted(k) || log[i] == DeleteFailed(k, true));
      assert log[i - 1] == Sent(k);
    }
  }

  /** With distinct schedule times, repeated sends of a message are consecutive. */
  lemma DuplicatesAreConsecutive(backlog: map<Key, Time>, rows: map<Key, Time>, log: seq<Event>, i: nat, m: nat, j: nat)
    requires Consistent(backlog, rows, log, {})
    requires forall a, b :: a in backlog && b in backlog && a != b ==> backlog[a] != backlog[b]
    requires i < m < j < |Sends(log)| && Sends(log)[i] == Sends(log)[j]
    ensures Sends(log)[m] == Sends(log)[i]
  {
    SendsAreOrdered(backlog, rows, log, i, m);
    SendsAreOrdered(backlog, rows, log, m, j);
  }

  lemma {:induction false} FailedDeletesAreFailures(log: seq<Event>, k: Key)
    ensures FailedDeletes(log, k) <= Failures(log)
    decreases |log|
  {
    if log != [] { FailedDeletesAreFailures(log[..|log| - 1], k); }
  }

  ghost predicate DuplicatesTogether(keys: seq<Key>) {
    forall i, m, j :: 0 <= i < m < j < |keys| && keys[i] == keys[j] ==> keys[m] == keys[i]
  }

  /**
  A whole life of an outbox over a fixed backlog: the worker is signalled any number of times, run i is cancelled
  after `patience[i]` repetitions, and every call may fail. `start` is the clock at the beginning, `now` the clock
  at the last query. If the last run has the patience for the failures, everything that was due is sent and gone.
  */
  method Serve(batchSize: int, backlog: map<Key, Time>, faults: nat, patience: seq<nat>, start: Time)
    returns (rows: map<Key, Time>, log: seq<Event>, now: Time)
    ensures Ordered(backlog, Sends(log)) && DeletesFollowSends(log) && Failures(log) <= faults
    ensures (forall a, b :: a in backlog && b in backlog && a != b ==> backlog[a] != backlog[b]) ==>
            DuplicatesTogether(Sends(log))
    ensures forall k :: Count(log, Sent(k)) <= 1 + FailedDeletes(log, k)
    ensures forall k :: k in backlog ==> k in rows || k in Sends(log)
    ensures patience != [] && faults <= patience[|patience| - 1] ==> start <= now
    ensures patience != [] && faults <= patience[|patience| - 1] ==>
              forall k :: k in backlog && backlog[k] <= now ==> k !in rows && k in Sends(log)
    ensures patience != [] && faults == 0 ==>
              forall k :: k in backlog && backlog[k] <= now ==> Count(log, Sent(k)) == 1
  {
    var o := new Outbox(batchSize, backlog, start, faults);
    for i := 0 to |patience|
      invariant o.Valid() && !o.locked && o.backlog == backlog && o.budget == faults && start <= o.clock
      invariant i > 0 && faults <= patience[i - 1] ==> o.Drained() && start <= o.lastFind
    {
      var done := o.Process(patience[i]);
    }
    rows, log, now := o.rows, o.log, o.lastFind;
    Served(backlog, rows, log);
    if faults == 0 && patience != [] {
      forall k | k in backlog && backlog[k] <= now ensures Count(log, Sent(k)) == 1 {
        SentOnce(backlog, rows, log, k);
      }
    }
  }

  lemma Served(backlog: map<Key, Time>, rows: map<Key, Time>, log: seq<Event>)
    requires Consistent(backlog, rows, log, {})
    ensures Ordered(backlog, Sends(log)) && DeletesFollowSends(log)
    ensures (forall a, b :: a in backlog && b in backlog && a != b ==> backlog[a] != backlog[b]) ==>
            DuplicatesTogether(Sends(log))
    ensures forall k :: Count(log, Sent(k)) <= 1 + FailedDeletes(log, k)
    ensures forall k :: k in backlog ==> k in rows || k in Sends(log)
  {
    forall k: Key
      ensures Ordered(backlog, Sends(log)) && Count(log, Sent(k)) <= 1 + FailedDeletes(log, k)
      ensures k in backlog ==> k in rows || k in Sends(log)
    {
      OutboxGuarantees(backlog, rows, log, k);
    }
    if forall a, b :: a in backlog && b in backlog && a != b ==> backlog[a] != backlog[b] {
      forall i, m, j | 0 <= i < m < j < |Sends(log)| && Sends(log)[i] == Sends(log)[j]
          ensures Sends(log)[m] == Sends(log)[i] {
        DuplicatesAreConsecutive(backlog, rows, log, i, m, j);
      }
    }
  }

  lemma SentOnce(backlog: map<Key, Time>, rows: map<Key, Time>, log: seq<Event>, k: Key)
    requires Consistent(backlog, rows, log, {}) && Failures(log) == 0 && k in backlog && k !in rows
    ensures Count(log, Sent(k)) == 1
  {
    FailedDeletesAreFailures(log, k);
    OutboxGuarantees(backlog, rows, log, k);
    SendsAreInLog(log, k);
    CountMember(log, Sent(k));
  }

  lemma {:induction false} CountMember(log: seq<Event>, e: Event)
    requires e in log
    ensures Count(log, e) > 0
    decreases |log|
  {
    var n := |log| - 1;
    if log[n] != e {
      assert log == log[..n] + [log[n]];
      CountMember(log[..n], e);
    }
  }
}
