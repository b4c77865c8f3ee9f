/**
Handling of the deletion event of a user on the profile side. The event may be delivered any number
of times and handled by several attempts at once; an attempt asks the user service, and then, in one
transaction, inserts the event's idempotency key and deletes the profile. A cleaner removes keys
older than their lifetime. Updates of profiles run beside it, each of which asks the user service first
and stores the profile later, without a transaction. One clock drives the service and the database.
*/
module ProfileDeletion {
  import opened Runs

  type EventId = nat
  type UserId = nat
  type Time = int

  const KEY_TTL: Time := 24 * 3600 * 1_000_000_000  // nanoseconds

  datatype Answer = NotFound | Active | Deleted | Unavailable

  datatype Outcome = Nil | AlreadyInserted | OtherError

  /** The error mapping of the listener: an event that was handled before counts as handled. */
  function Ignoring(o: Outcome): Outcome {
    if o.AlreadyInserted? then Nil else o
  }

  datatype Attempt =
    | Started(event: EventId)
    | Confirmed(event: EventId)                                       // the user is deleted
    | InTx(event: EventId, begun: Time)
    | KeyInserted(event: EventId, begun: Time, inserted: Time)
    // seen: stores before the delete
    | ProfileDeleted(event: EventId, begun: Time, inserted: Time, found: bool, seen: nat)
    // what the listener sees, what the user service had answered, and whether an error or a crash cut it short
    | Returned(event: EventId, outcome: Outcome, answer: Answer, aborted: bool)

  /** The user service reported the user as missing or not deleted. */
  predicate NothingToDo(answer: Answer) {
    answer.NotFound? || answer.Active?
  }

  /** A committed transaction of the handler; its delete came after the first `seen` stores. */
  datatype Commitment = Commitment(event: EventId, begun: Time, inserted: Time, seen: nat)

  /** An update of a profile that was told that the user exists, after `askedAt` users had been deleted. */
  datatype Update = Update(user: UserId, askedAt: nat, pending: bool)

  datatype State = State(
    userOf: EventId -> UserId,
    now: Time,
    keys: map<EventId, Time>,        // committed keys with the start of the transaction that inserted them
    profiles: set<UserId>,           // users with a committed profile
    attempts: seq<Attempt>,
    deletions: seq<UserId>,          // the users deleted on the user side, in order
    updates: seq<Update>,
    initially: set<UserId>,          // the profiles at the start
    stores: seq<UserId>,             // history: the stores of profiles that took effect
    storedBy: seq<nat>,              // and the updates that made them
    commits: seq<Commitment>,        // history
    removals: seq<set<EventId>>)     // history of the cleaner

  datatype Step =
    | Tick(d: nat)
    | Start(event: EventId)
    | DeleteUser(user: UserId)       // the user side commits the deletion of a user
    | AskUpdate(user: UserId, answer: Answer)
    | StoreProfile(k: nat)           // update k stores its profile
    | GiveUp(k: nat)                 // update k fails, or its process stops
    | Clean(delay: nat)              // deletes keys that were outdated `delay` ago
    | Ask(i: nat, answer: Answer)
    | Begin(i: nat)
    | InsertKey(i: nat)
    | DeleteProfile(i: nat)
    | Commit(i: nat)
    | Rollback(i: nat)               // an error, or a crash, after any step

  function Init(userOf: EventId -> UserId, now: Time, profiles: set<UserId>): State {
    State(userOf, now, map[], profiles, [], [], [], profiles, [], [], [], [])
  }

  // ------------------------------------------------------------------ steps

  /** The attempt has inserted the key in its open transaction. */
  predicate HasKey(x: Attempt) {
    x.KeyInserted? || x.ProfileDeleted?
  }

  /** Another transaction has inserted the key and is not finished: an insertion waits for it. */
  predicate KeyBlocked(s: State, e: EventId) {
    exists j :: 0 <= j < |s.attempts| && HasKey(s.attempts[j]) && s.attempts[j].event == e
  }

  /** An open transaction has deleted the user's row: others that write it wait. */
  predicate RowBlocked(s: State, u: UserId) {
    exists j :: 0 <= j < |s.attempts| && s.attempts[j].ProfileDeleted? && s.attempts[j].found &&
        s.userOf(s.attempts[j].event) == u
  }

  function Kept(keys: map<EventId, Time>, before: Time): map<EventId, Time> {
    map e | e in keys && keys[e] >= before :: keys[e]
  }

  function Outdated(keys: map<EventId, Time>, before: Time): set<EventId> {
    set e | e in keys && keys[e] < before
  }

  function DoClean(s: State, before: Time): State {
    s.(keys := Kept(s.keys, before), removals := s.removals + [Outdated(s.keys, before)])
  }

  /** The user service can give this answer. */
  predicate Truthful(s: State, u: UserId, answer: Answer) {
    match answer
    case Deleted => u in s.deletions
    case NotFound => u !in s.deletions
    case Active => u !in s.deletions
    case Unavailable => true
  }

  function Asked(s: State, x: Attempt, answer: Answer): Attempt {
    if !x.Started? || !Truthful(s, s.userOf(x.event), answer) then x
    else if NothingToDo(answer) then Returned(x.event, Nil, answer, false)
    else if answer.Unavailable? then Returned(x.event, OtherError, answer, false)
    else Confirmed(x.event)
  }

  function Insertion(s: State, x: Attempt): Attempt {
    if !x.InTx? || KeyBlocked(s, x.event) then x
    else if x.event in s.keys then Returned(x.event, Ignoring(AlreadyInserted), Deleted, false)
    else KeyInserted(x.event, x.begun, s.now)
  }

  /** Deletes the row; that there is none is not an error. */
  function Deletion(s: State, x: Attempt): Attempt {
    if !x.KeyInserted? || RowBlocked(s, s.userOf(x.event)) then x
    else ProfileDeleted(x.event, x.begun, x.inserted, s.userOf(x.event) in s.profiles, |s.stores|)
  }

  /** A step of an attempt that commits nothing. */
  function Inside(s: State, x: Attempt, t: Step): Attempt {
    match t
    case Ask(_, answer) => Asked(s, x, answer)
    case Begin(_) => if x.Confirmed? then InTx(x.event, s.now) else x
    case InsertKey(_) => Insertion(s, x)
    case DeleteProfile(_) => Deletion(s, x)
    case Rollback(_) =>
      if x.Returned? then x else Returned(x.event, OtherError, if x.Started? then Unavailable else Deleted, true)
    case _ => x
  }

  function DoCommit(s: State, i: nat): State
    requires i < |s.attempts|
  {
    var x := s.attempts[i];
    if !x.ProfileDeleted? then s
    else s.(
      keys := s.keys[x.event := x.begun],
      profiles := if x.found then s.profiles - {s.userOf(x.event)} else s.profiles,
      attempts := s.attempts[i := Returned(x.event, Nil, Deleted, false)],
      commits := s.commits + [Commitment(x.event, x.begun, x.inserted, x.seen)])
  }

  predicate CanStore(s: State, k: nat) {
    k < |s.updates| && s.updates[k].pending && !RowBlocked(s, s.updates[k].user)
  }

  function Finish(s: State, k: nat): State
    requires k < |s.updates|
  {
    s.(updates := s.updates[k := s.updates[k].(pending := false)])
  }

  function DoStore(s: State, k: nat): State
    requires k < |s.updates|
  {
    var u := s.updates[k].user;
    Finish(s, k).(profiles := s.profiles + {u}, stores := s.stores + [u], storedBy := s.storedBy + [k])
  }

  predicate IsOutside(t: Step) {
    t.Tick? || t.Start? || t.DeleteUser? || t.AskUpdate? || t.StoreProfile? || t.GiveUp?
  }

  /** Steps of the clock, of users and of updates. */
  function NextOutside(s: State, t: Step): State {
    match t
    case Tick(d) => s.(now := s.now + d)
    case Start(e) => s.(attempts := s.attempts + [Started(e)])
    case DeleteUser(u) => if u in s.deletions then s else s.(deletions := s.deletions + [u])
    case AskUpdate(u, answer) =>
      if answer.Active? && Truthful(s, u, answer)
          then s.(updates := s.updates + [Update(u, |s.deletions|, true)]) else s
    case StoreProfile(k) => if CanStore(s, k) then DoStore(s, k) else s
    case GiveUp(k) => if k < |s.updates| then Finish(s, k) else s
    case _ => s
  }

  function Next(s: State, t: Step): State {
    if IsOutside(t) then NextOutside(s, t)
    else if t.Clean? then DoClean(s, s.now - KEY_TTL - t.delay)
    else if t.i >= |s.attempts| then s
    else if t.Commit? then DoCommit(s, t.i)
    else s.(attempts := s.attempts[t.i := Inside(s, s.attempts[t.i], t)])
  }

  // ------------------------------------------------------------------ histories

  function CommitsOf(commits: seq<Commitment>, e: EventId): nat {
    if commits == [] then 0
    else CommitsOf(commits[..|commits| - 1], e) + if commits[|commits| - 1].event == e then 1 else 0
  }

  function RemovalsOf(removals: seq<set<EventId>>, e: EventId): nat {
    if removals == [] then 0
    else RemovalsOf(removals[..|removals| - 1], e) + if e in removals[|removals| - 1] then 1 else 0
  }

  ghost predicate HasCommit(commits: seq<Commitment>, e: EventId) {
    exists k :: 0 <= k < |commits| && commits[k].event == e
  }

  // ------------------------------------------------------------------ what every step keeps

  /** A key in the table stands for the commits of its event that the cleaner has not undone: one, or none. */
  ghost predicate Conserved(s: State) {
    forall e :: CommitsOf(s.commits, e) == RemovalsOf(s.removals, e) + if e in s.keys then 1 else 0
  }

  /** A commit older than the lifetime, or the one whose key is in the table. */
  ghost predicate OldOrKept(keys: map<EventId, Time>, now: Time, c: Commitment) {
    c.begun + KEY_TTL < now || (c.event in keys && keys[c.event] == c.begun)
  }

  ghost predicate HistoryOk(s: State) {
    && (forall k :: 0 <= k < |s.commits| ==> OldOrKept(s.keys, s.now, s.commits[k]))
    && (forall e :: e in s.keys ==> HasCommit(s.commits, e))
  }

  ghost predicate Later(c: Commitment, e: EventId, inserted: Time) {
    c.event == e ==> c.begun + KEY_TTL < inserted
  }

  ghost predicate Spaced(commits: seq<Commitment>) {
    forall i, j :: 0 <= i < j < |commits| ==> Later(commits[i], commits[j].event, commits[j].inserted)
  }

  ghost predicate AttemptOk(s: State, x: Attempt) {
    && (x.InTx? ==> x.begun <= s.now)
    && (HasKey(x) ==>
          && x.begun <= x.inserted <= s.now && x.event !in s.keys
          && forall k :: 0 <= k < |s.commits| ==> Later(s.commits[k], x.event, x.inserted))
    && (x.Returned? && !x.outcome.OtherError? && !NothingToDo(x.answer) ==> HasCommit(s.commits, x.event))
    && (x.Returned? ==> !x.outcome.AlreadyInserted? && (x.outcome.OtherError? <==> x.aborted || x.answer.Unavailable?))
  }

  ghost predicate AttemptsOk(s: State) {
    forall i :: 0 <= i < |s.attempts| ==> AttemptOk(s, s.attempts[i])
  }

  ghost predicate OneHolder(attempts: seq<Attempt>) {
    forall i, j :: 0 <= i < j < |attempts| && HasKey(attempts[i]) && HasKey(attempts[j]) ==>
        attempts[i].event != attempts[j].event
  }

  ghost predicate Inv(s: State) {
    Conserved(s) && HistoryOk(s) && Spaced(s.commits) && AttemptsOk(s) && OneHolder(s.attempts)
  }

  lemma CommitsStep(commits: seq<Commitment>, c: Commitment, e: EventId)
    ensures CommitsOf(commits + [c], e) == CommitsOf(commits, e) + if c.event == e then 1 else 0
  {
    assert (commits + [c])[..|commits|] == commits;
  }

  lemma RemovalsStep(removals: seq<set<EventId>>, r: set<EventId>, e: EventId)
    ensures RemovalsOf(removals + [r], e) == RemovalsOf(removals, e) + if e in r then 1 else 0
  {
    assert (removals + [r])[..|removals|] == removals;
  }

  lemma CommitKeepsInv(s: State, i: nat)
    requires Inv(s) && i < |s.attempts| && s.attempts[i].ProfileDeleted?
    ensures Inv(DoCommit(s, i))
  {
    var s' := DoCommit(s, i);
    var x := s.attempts[i];
    assert AttemptOk(s, x);
    var c := Commitment(x.event, x.begun, x.inserted, x.seen);
    forall e ensures CommitsOf(s'.commits, e) == RemovalsOf(s'.removals, e) + if e in s'.keys then 1 else 0 {
      CommitsStep(s.commits, c, e);
    }
    assert s'.commits[|s.commits|] == c;
    CommitKeepsHistory(s, i);
    forall j | 0 <= j < |s.attempts| ensures AttemptOk(s', s'.attempts[j]) {
      CommitKeepsAttempt(s, i, j);
    }
  }

  lemma CommitKeepsHistory(s: State, i: nat)
    requires HistoryOk(s) && AttemptsOk(s) && Spaced(s.commits) && i < |s.attempts| && s.attempts[i].ProfileDeleted?
    ensures HistoryOk(DoCommit(s, i)) && Spaced(DoCommit(s, i).commits)
  {
    var s' := DoCommit(s, i);
    assert AttemptOk(s, s.attempts[i]);
    forall k | 0 <= k < |s'.commits| ensures OldOrKept(s'.keys, s'.now, s'.commits[k]) {
      if k < |s.commits| {
        assert OldOrKept(s.keys, s.now, s.commits[k]) &&
               Later(s.commits[k], s.attempts[i].event, s.attempts[i].inserted);
      }
    }
    forall e | e in s'.keys ensures HasCommit(s'.commits, e) {
      if e == s.attempts[i].event {
        assert s'.commits[|s.commits|].event == e;
      } else {
        MoreCommits(s.commits, s'.commits, e);
      }
    }
  }

  lemma MoreCommits(a: seq<Commitment>, b: seq<Commitment>, e: EventId)
    requires HasCommit(a, e) && a <= b
    ensures HasCommit(b, e)
  {
    var k :| 0 <= k < |a| && a[k].event == e;
    assert b[k].event == e;
  }

  lemma CommitKeepsAttempt(s: State, i: nat, j: nat)
    requires AttemptsOk(s) && OneHolder(s.attempts) && i < |s.attempts| && s.attempts[i].ProfileDeleted? &&
             j < |s.attempts|
    ensures AttemptOk(DoCommit(s, i), DoCommit(s, i).attempts[j])
  {
    var s' := DoCommit(s, i);
    var x, y := s.attempts[i], s.attempts[j];
    if i == j {
      assert s'.commits[|s.commits|].event == x.event;
    } else {
      assert AttemptOk(s, y);
      assert HasKey(y) ==> y.event != x.event;
      if HasCommit(s.commits, y.event) { MoreCommits(s.commits, s'.commits, y.event); }
    }
  }

  lemma CleanKeepsInv(s: State, before: Time)
    requires Inv(s) && before <= s.now - KEY_TTL
    ensures Inv(DoClean(s, before))
  {
    var s' := DoClean(s, before);
    forall e ensures CommitsOf(s'.commits, e) == RemovalsOf(s'.removals, e) + if e in s'.keys then 1 else 0 {
      RemovalsStep(s.removals, Outdated(s.keys, before), e);
    }
    forall k | 0 <= k < |s.commits| ensures OldOrKept(s'.keys, s'.now, s.commits[k]) {
      assert OldOrKept(s.keys, s.now, s.commits[k]);
    }
    forall j | 0 <= j < |s.attempts| ensures AttemptOk(s', s'.attempts[j]) {
      assert AttemptOk(s, s.attempts[j]);
    }
  }

  lemma InsideOk(s: State, i: nat, t: Step)
    requires HistoryOk(s) && AttemptsOk(s) && i < |s.attempts|
    ensures AttemptOk(s, Inside(s, s.attempts[i], t))
  {
    var x := s.attempts[i];
    assert AttemptOk(s, x);
    if t.InsertKey? && x.InTx? {
      forall k | 0 <= k < |s.commits| && x.event !in s.keys ensures Later(s.commits[k], x.event, s.now) {
        assert OldOrKept(s.keys, s.now, s.commits[k]);
      }
    }
  }

  lemma InsideKeepsInv(s: State, t: Step)
    requires Inv(s) && !IsOutside(t) && !t.Clean? && !t.Commit? && t.i < |s.attempts|
    ensures Inv(Next(s, t))
  {
    var s' := Next(s, t);
    InsideOk(s, t.i, t);
    forall j | 0 <= j < |s.attempts| ensures AttemptOk(s', s'.attempts[j]) {
      assert AttemptOk(s, s.attempts[j]);
    }
  }

  lemma OutsideKeepsInv(s: State, t: Step)
    requires Inv(s) && IsOutside(t)
    ensures Inv(Next(s, t))
  {
    var s' := Next(s, t);
    forall k | 0 <= k < |s.commits| ensures OldOrKept(s'.keys, s'.now, s.commits[k]) {
      assert OldOrKept(s.keys, s.now, s.commits[k]);
    }
    forall j | 0 <= j < |s'.attempts| ensures AttemptOk(s', s'.attempts[j]) {
      if j < |s.attempts| { assert AttemptOk(s, s.attempts[j]); }
    }
  }

  lemma NextKeepsInv(s: State, t: Step)
    requires Inv(s)
    ensures Inv(Next(s, t))
  {
    if IsOutside(t) {
      OutsideKeepsInv(s, t);
    } else if t.Clean? {
      CleanKeepsInv(s, s.now - KEY_TTL - t.delay);
    } else if t.i < |s.attempts| {
      if !t.Commit? { InsideKeepsInv(s, t); } else if s.attempts[t.i].ProfileDeleted? { CommitKeepsInv(s, t.i); }
    }
  }

  lemma RunKeepsInv(s: State, steps: seq<Step>)
    requires Inv(s)
    ensures Inv(Run(Next, s, steps))
  {
    forall s, t | Inv(s) ensures Inv(Next(s, t)) { NextKeepsInv(s, t); }
    InvariantHolds(Next, Inv, s, steps);
  }

  // ------------------------------------------------------------------ results

  /**
  An event is committed once, plus once for every time the cleaner removed its key; while a key is
  there, no more can come.
  */
  lemma CommitsAreCounted(userOf: EventId -> UserId, start: Time, profiles: set<UserId>, steps: seq<Step>, e: EventId)
    ensures var s := Run(Next, Init(userOf, start, profiles), steps);
            CommitsOf(s.commits, e) == RemovalsOf(s.removals, e) + if e in s.keys then 1 else 0
  {
    RunKeepsInv(Init(userOf, start, profiles), steps);
  }

  /**
  Of two commits for the same event, the later one inserted its key more than a lifetime after the
  earlier one began.
  */
  lemma CommitsAreSpaced(userOf: EventId -> UserId, start: Time, profiles: set<UserId>, steps: seq<Step>, i: nat,
      j: nat)
    requires i < j < |Run(Next, Init(userOf, start, profiles), steps).commits|
    ensures var commits := Run(Next, Init(userOf, start, profiles), steps).commits;
            commits[i].event == commits[j].event ==> commits[i].begun + KEY_TTL < commits[j].inserted
  {
    var s := Run(Next, Init(userOf, start, profiles), steps);
    RunKeepsInv(Init(userOf, start, profiles), steps);
    assert Later(s.commits[i], s.commits[j].event, s.commits[j].inserted);
  }

  /**
  The listener is told that an event was handled if and only if the user service answered and nothing cut
  the attempt short. It is told so only if the event's key and the profile's deletion were committed, by
  this attempt or another, or the user was reported missing or not deleted.
  */
  lemma SuccessMeansDone(userOf: EventId -> UserId, start: Time, profiles: set<UserId>, steps: seq<Step>, i: nat)
    requires i < |Run(Next, Init(userOf, start, profiles), steps).attempts|
    ensures var s := Run(Next, Init(userOf, start, profiles), steps);
            var x := s.attempts[i];
            x.Returned? ==>
              && (x.outcome.Nil? <==> !x.aborted && !x.answer.Unavailable?)
              && (x.outcome.Nil? ==> NothingToDo(x.answer) || HasCommit(s.commits, x.event))
  {
    RunKeepsInv(Init(userOf, start, profiles), steps);
    var s := Run(Next, Init(userOf, start, profiles), steps);
    assert AttemptOk(s, s.attempts[i]);
  }

  /** The commits of an event whose transaction ran within the key lifetime that begins at `from`. */
  function CommitsWithin(commits: seq<Commitment>, e: EventId, from: Time): nat {
    if commits == [] then 0
    else
      var c := commits[|commits| - 1];
      CommitsWithin(commits[..|commits| - 1], e, from) + if c.event == e && Within(c, from) then 1 else 0
  }

  predicate Within(c: Commitment, from: Time) {
    from <= c.begun && c.inserted <= from + KEY_TTL
  }

  lemma {:induction false} NoneWithin(commits: seq<Commitment>, e: EventId, from: Time)
    requires forall k :: 0 <= k < |commits| ==> !(commits[k].event == e && Within(commits[k], from))
    ensures CommitsWithin(commits, e, from) == 0
    decreases |commits|
  {
    if commits != [] { NoneWithin(commits[..|commits| - 1], e, from); }
  }

  lemma {:induction false} AtMostOneWithin(commits: seq<Commitment>, e: EventId, from: Time)
    requires Spaced(commits)
    ensures CommitsWithin(commits, e, from) <= 1
    decreases |commits|
  {
    if commits != [] {
      var n := |commits| - 1;
      var c := commits[n];
      AtMostOneWithin(commits[..n], e, from);
      if c.event == e && Within(c, from) {
        forall k | 0 <= k < n ensures !(commits[..n][k].event == e && Within(commits[..n][k], from)) {
          assert Later(commits[k], c.event, c.inserted);
        }
        NoneWithin(commits[..n], e, from);
      }
    }
  }

  /**
  In any window of a key lifetime an event is committed at most once, whatever is redelivered, retried
  or runs at once.
  */
  lemma AtMostOnceWithinLifetime(userOf: EventId -> UserId, start: Time, profiles: set<UserId>, steps: seq<Step>,
      e: EventId, from: Time)
    ensures CommitsWithin(Run(Next, Init(userOf, start, profiles), steps).commits, e, from) <= 1
  {
    RunKeepsInv(Init(userOf, start, profiles), steps);
    AtMostOneWithin(Run(Next, Init(userOf, start, profiles), steps).commits, e, from);
  }
}
