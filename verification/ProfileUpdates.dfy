/**
What updates of profiles do to the deletion of profiles: which of them can bring a profile back, and
exactly when a profile that is gone stays away for good.
*/
module ProfileUpdates {
  import opened Runs
  import opened ProfileDeletion
  import opened ProfilePresence
  import opened ProfileRuns

  // ------------------------------------------------------------------ who asked when

  /** The update was told that its user exists, and so asked before the user was deleted, if it was. */
  predicate AskedBefore(s: State, x: Update) {
    x.askedAt <= |s.deletions| && x.user !in s.deletions[..x.askedAt]
  }

  /** The attempt has been told that the user is deleted. */
  predicate Told(x: Attempt) {
    !x.Started? && !(x.Returned? && x.answer != Deleted)
  }

  ghost predicate UpdatesOk(s: State) {
    && (forall k :: 0 <= k < |s.updates| ==> AskedBefore(s, s.updates[k]))
    && |s.storedBy| == |s.stores|
    && (forall k :: 0 <= k < |s.stores| ==> s.storedBy[k] < |s.updates| && s.updates[s.storedBy[k]].user == s.stores[k])
  }

  ghost predicate ToldOk(s: State) {
    && (forall i :: 0 <= i < |s.attempts| && Told(s.attempts[i]) ==> s.userOf(s.attempts[i].event) in s.deletions)
    && (forall k :: 0 <= k < |s.commits| ==> s.userOf(s.commits[k].event) in s.deletions)
  }

  lemma NextKeepsUpdates(s: State, t: Step)
    requires UpdatesOk(s)
    ensures UpdatesOk(Next(s, t))
  {
    if IsOutside(t) {
      var s' := Next(s, t);
      assert s.deletions <= s'.deletions;
      forall k | 0 <= k < |s'.updates| ensures AskedBefore(s', s'.updates[k]) {
        if k < |s.updates| {
          assert AskedBefore(s, s.updates[k]);
          assert s'.deletions[..s.updates[k].askedAt] == s.deletions[..s.updates[k].askedAt];
        } else {
          assert s.deletions[..|s.deletions|] == s.deletions;
        }
      }
    }
  }

  lemma NextKeepsTold(s: State, t: Step)
    requires ToldOk(s)
    ensures ToldOk(Next(s, t))
  {
  }

  lemma RunKeepsUpdates(userOf: EventId -> UserId, start: Time, profiles: set<UserId>, steps: seq<Step>)
    ensures var s := Run(Next, Init(userOf, start, profiles), steps); UpdatesOk(s) && ToldOk(s) && s.userOf == userOf
  {
    var inv := (s: State) => UpdatesOk(s) && ToldOk(s) && s.userOf == userOf;
    forall s, t | inv(s) ensures inv(Next(s, t)) {
      NextKeepsUpdates(s, t);
      NextKeepsTold(s, t);
    }
    InvariantHolds(Next, inv, Init(userOf, start, profiles), steps);
  }

  /**
  Once an event of a user has been handled, a profile of the user is there only through an update that
  stored it after the delete of every committed handling and had asked before the user was deleted.
  */
  lemma OnlyEarlierUpdatesRestore(
      userOf: EventId -> UserId, start: Time, profiles: set<UserId>, steps: seq<Step>, e: EventId) returns (k: nat)
    requires var s := Run(Next, Init(userOf, start, profiles), steps);
             HasCommit(s.commits, e) && userOf(e) in s.profiles
    ensures var s := Run(Next, Init(userOf, start, profiles), steps);
            && k < |s.stores| == |s.storedBy| && s.storedBy[k] < |s.updates|
            && (forall c :: 0 <= c < |s.commits| && userOf(s.commits[c].event) == userOf(e) ==> s.commits[c].seen <= k)
            && s.updates[s.storedBy[k]].user == userOf(e) && AskedBefore(s, s.updates[s.storedBy[k]])
            && userOf(e) in s.deletions
  {
    var s := Run(Next, Init(userOf, start, profiles), steps);
    RunKeepsUpdates(userOf, start, profiles, steps);
    ProfileIsThereIff(userOf, start, profiles, steps, userOf(e));
    var c :| 0 <= c < |s.commits| && s.commits[c].event == e;
    assert s.commits[c].seen <= LastStore(s.stores, userOf(e));
    k := LastStore(s.stores, userOf(e));
  }

  // ------------------------------------------------------------------ gone for good

  predicate IsFound(x: Attempt) {
    x.ProfileDeleted? && x.found
  }

  /**
  A row that an open transaction has deleted is still there for the others, and only one transaction
  has deleted it.
  */
  ghost predicate FoundOk(s: State) {
    && (forall i :: 0 <= i < |s.attempts| && IsFound(s.attempts[i]) ==> s.userOf(s.attempts[i].event) in s.profiles)
    && (forall i, j :: 0 <= i < j < |s.attempts| && IsFound(s.attempts[i]) && IsFound(s.attempts[j]) ==>
          s.userOf(s.attempts[i].event) != s.userOf(s.attempts[j].event))
  }

  lemma NextKeepsFound(s: State, t: Step)
    requires FoundOk(s)
    ensures FoundOk(Next(s, t))
  {
  }

  predicate PendingFor(s: State, u: UserId, k: nat) {
    k < |s.updates| && s.updates[k].pending && s.updates[k].user == u
  }

  /** The user is deleted and its profile gone, and no update that asked earlier is still to store it. */
  ghost predicate Settled(s: State, u: UserId) {
    u in s.deletions && u !in s.profiles && forall k: nat :: !PendingFor(s, u, k)
  }

  lemma NextKeepsSettled(s: State, t: Step, u: UserId)
    requires Settled(s, u)
    ensures Settled(Next(s, t), u)
  {
    var s' := Next(s, t);
    forall k: nat ensures !PendingFor(s', u, k) {
      assert !PendingFor(s, u, k);
    }
    if t.StoreProfile? { assert !PendingFor(s, u, t.k); }
  }

  predicate GoneAfter(s: State, u: UserId, more: seq<Step>) {
    u !in Run(Next, s, more).profiles
  }

  ghost predicate StaysAway(s: State, u: UserId) {
    forall more: seq<Step> :: GoneAfter(s, u, more)
  }

  lemma SettledStaysAway(s: State, u: UserId)
    requires Settled(s, u)
    ensures StaysAway(s, u)
  {
    var inv := (s: State) => Settled(s, u);
    forall s, t | inv(s) ensures inv(Next(s, t)) { NextKeepsSettled(s, t, u); }
    forall more: seq<Step> ensures GoneAfter(s, u, more) {
      InvariantHolds(Next, inv, s, more);
    }
  }

  /**
  Exactly when a profile that is gone stays away. In every reachable state without a profile of a
  deleted user, no continuation brings it back if and only if no update of it that asked before the
  deletion is still to store.
  */
  lemma GoneForGoodIff(userOf: EventId -> UserId, start: Time, profiles: set<UserId>, steps: seq<Step>, u: UserId)
    requires var s := Run(Next, Init(userOf, start, profiles), steps); u in s.deletions && u !in s.profiles
    ensures var s := Run(Next, Init(userOf, start, profiles), steps);
            StaysAway(s, u) <==> forall k: nat :: !PendingFor(s, u, k)
  {
    var s := Run(Next, Init(userOf, start, profiles), steps);
    forall s, t | FoundOk(s) ensures FoundOk(Next(s, t)) { NextKeepsFound(s, t); }
    InvariantHolds(Next, FoundOk, Init(userOf, start, profiles), steps);
    if k: nat :| PendingFor(s, u, k) {
      PendingComesBack(s, u, k);
    } else {
      SettledStaysAway(s, u);
    }
  }

  lemma PendingComesBack(s: State, u: UserId, k: nat)
    requires FoundOk(s) && u !in s.profiles && PendingFor(s, u, k)
    ensures !StaysAway(s, u)
  {
    assert forall j :: 0 <= j < |s.attempts| && IsFound(s.attempts[j]) ==> s.userOf(s.attempts[j].event) != u;
    assert CanStore(s, k);
    var more := [StoreProfile(k)];
    RunOne(s, StoreProfile(k));
    assert !GoneAfter(s, u, more);
  }

  /** Once the only such update has given up, the profile stays away. */
  lemma GivenUpStaysAway(s: State, u: UserId, k: nat)
    requires u in s.deletions && u !in s.profiles && k < |s.updates|
    requires forall j: nat :: PendingFor(s, u, j) ==> j == k
    ensures StaysAway(Next(s, GiveUp(k)), u)
  {
    var s' := Next(s, GiveUp(k));
    forall j: nat ensures !PendingFor(s', u, j) {
      assert PendingFor(s', u, j) ==> PendingFor(s, u, j);
    }
    SettledStaysAway(s', u);
  }

  // ------------------------------------------------------------------ runs

  /** An update has asked for the user, who was deleted after that. */
  function AskedThenDeleted(userOf: EventId -> UserId, start: Time, profiles: set<UserId>, u: UserId): State {
    Init(userOf, start, profiles).(updates := [Update(u, 0, true)], deletions := [u])
  }

  lemma AskThenDelete(userOf: EventId -> UserId, start: Time, profiles: set<UserId>, u: UserId, rest: seq<Step>)
    ensures Run(Next, Init(userOf, start, profiles), [AskUpdate(u, Active), DeleteUser(u)] + rest)
         == Run(Next, AskedThenDeleted(userOf, start, profiles, u), rest)
  {
    var s := Init(userOf, start, profiles);
    RunConcat(Next, s, [AskUpdate(u, Active), DeleteUser(u)], rest);
    RunTwo(s, AskUpdate(u, Active), DeleteUser(u));
    assert s.updates + [Update(u, 0, true)] == [Update(u, 0, true)];
    assert s.deletions + [u] == [u];
  }

  function RacingSteps(u: UserId, e: EventId): seq<Step> {
    [Start(e), Ask(0, Deleted), Begin(0)] + ([InsertKey(0), DeleteProfile(0)] + [StoreProfile(0), Commit(0)])
  }

  /**
  An update that stores the profile after the handler found none, before it commits, stays although
  success is reported.
  */
  lemma RacingUpdateStays(userOf: EventId -> UserId, start: Time, e: EventId)
    ensures var u := userOf(e);
            var s := Run(Next, Init(userOf, start, {}), [AskUpdate(u, Active), DeleteUser(u)] + RacingSteps(u, e));
            s.attempts == [Returned(e, Nil, Deleted, false)] && u in s.profiles
  {
    var u := userOf(e);
    AskThenDelete(userOf, start, {}, u, RacingSteps(u, e));
    var s := AskedThenDeleted(userOf, start, {}, u);
    AttemptBegins(s, e);
    AttemptDeletes(s, e);
    var a, b, c := [Start(e), Ask(0, Deleted), Begin(0)], [InsertKey(0), DeleteProfile(0)],
        [StoreProfile(0), Commit(0)];
    RunConcat(Next, s, a, b + c);
    RunConcat(Next, With(s, InTx(e, start)), b, c);
    StoreThenCommit(s, e);
  }

  /** The delete found no profile; an update stores it, and the handler commits. */
  lemma StoreThenCommit(s: State, e: EventId)
    requires s.attempts == [] && s.updates != [] && s.updates[0].user == s.userOf(e) && s.updates[0].pending
    ensures var s' := Run(Next, With(s, ProfileDeleted(e, s.now, s.now, false, |s.stores|)),
            [StoreProfile(0), Commit(0)]);
            s'.attempts == [Returned(e, Nil, Deleted, false)] && s.userOf(e) in s'.profiles
  {
    var s2 := With(s, ProfileDeleted(e, s.now, s.now, false, |s.stores|));
    assert !RowBlocked(s2, s.userOf(e));
    RunTwo(s2, StoreProfile(0), Commit(0));
  }

  /** So does one that stores it after the commit. */
  lemma LaterUpdateStays(userOf: EventId -> UserId, start: Time, profiles: set<UserId>, e: EventId)
    ensures var u := userOf(e);
            var rest := Steps(0, e) + [StoreProfile(0)];
            var s := Run(Next, Init(userOf, start, profiles), [AskUpdate(u, Active), DeleteUser(u)] + rest);
            s.attempts == [Returned(e, Nil, Deleted, false)] && u in s.profiles
  {
    var u := userOf(e);
    AskThenDelete(userOf, start, profiles, u, Steps(0, e) + [StoreProfile(0)]);
    var s := AskedThenDeleted(userOf, start, profiles, u);
    AttemptCommits(s, e);
    RunConcat(Next, s, Steps(0, e), [StoreProfile(0)]);
    RunOne(Handled(s, e), StoreProfile(0));
    assert !RowBlocked(Handled(s, e), u);
  }
}
