/** When a user has a profile: what updates have stored and handlings of events have deleted, in which order. */
module ProfilePresence {
  import opened Runs
  import opened ProfileDeletion

  /** The place of the last store of a user's profile, or -1. */
  function LastStore(stores: seq<UserId>, u: UserId): (r: int)
    ensures -1 <= r < |stores| && (r >= 0 ==> stores[r] == u)
    ensures forall k :: r < k < |stores| ==> stores[k] != u
  {
    if stores == [] then -1
    else if stores[|stores| - 1] == u then |stores| - 1
    else LastStore(stores[..|stores| - 1], u)
  }

  ghost predicate DeletesBefore(s: State, u: UserId, place: int) {
    forall k :: 0 <= k < |s.commits| && s.userOf(s.commits[k].event) == u ==> s.commits[k].seen <= place
  }

  /**
  A store of the profile came after every committed delete, or the profile was there at the start and
  neither was.
  */
  ghost predicate StoredLast(s: State, u: UserId) {
    DeletesBefore(s, u, LastStore(s.stores, u)) && (LastStore(s.stores, u) >= 0 || u in s.initially)
  }

  ghost predicate PendingOk(s: State, x: Attempt) {
    x.ProfileDeleted? ==>
      var u := s.userOf(x.event);
      && x.seen <= |s.stores|
      && (x.found ==> LastStore(s.stores, u) < x.seen)
      && (!x.found && u in s.profiles ==> x.seen <= LastStore(s.stores, u))
  }

  ghost predicate PendingsOk(s: State) {
    forall i :: 0 <= i < |s.attempts| ==> PendingOk(s, s.attempts[i])
  }

  ghost predicate ProfilesOk(s: State) {
    PendingsOk(s) && forall u :: u in s.profiles <==> StoredLast(s, u)
  }

  lemma LastStoreAppended(stores: seq<UserId>, v: UserId, u: UserId)
    ensures LastStore(stores + [v], u) == if u == v then |stores| else LastStore(stores, u)
  {
    assert (stores + [v])[..|stores|] == stores;
  }

  lemma StoreKeepsProfiles(s: State, j: nat)
    requires ProfilesOk(s) && SeenOk(s) && CanStore(s, j)
    ensures ProfilesOk(DoStore(s, j))
  {
    var s', v := DoStore(s, j), s.updates[j].user;
    forall u ensures u in s'.profiles <==> StoredLast(s', u) {
      LastStoreAppended(s.stores, v, u);
      assert StoredLast(s, u) <==> u in s.profiles;
      if u != v {
        assert DeletesBefore(s', u, LastStore(s.stores, u)) <==> DeletesBefore(s, u, LastStore(s.stores, u));
      }
    }
    forall i | 0 <= i < |s.attempts| ensures PendingOk(s', s.attempts[i]) {
      assert PendingOk(s, s.attempts[i]);
      LastStoreAppended(s.stores, v, s.userOf(s.attempts[i].event));
    }
  }

  lemma CommitKeepsProfiles(s: State, i: nat)
    requires ProfilesOk(s) && i < |s.attempts| && s.attempts[i].ProfileDeleted?
    ensures ProfilesOk(DoCommit(s, i))
  {
    var s', x := DoCommit(s, i), s.attempts[i];
    var v := s.userOf(x.event);
    assert PendingOk(s, x);
    forall u ensures u in s'.profiles <==> StoredLast(s', u) {
      assert StoredLast(s, u) <==> u in s.profiles;
      var n := LastStore(s.stores, u);
      assert DeletesBefore(s', u, n) <==> DeletesBefore(s, u, n) && (u == v ==> x.seen <= n) by {
        assert s'.commits[|s.commits|].seen == x.seen;
        assert forall k :: 0 <= k < |s.commits| ==> s'.commits[k] == s.commits[k];
      }
    }
    forall j | 0 <= j < |s.attempts| ensures PendingOk(s', s'.attempts[j]) {
      assert PendingOk(s, s.attempts[j]);
    }
  }

  lemma OtherKeepsProfiles(s: State, t: Step)
    requires ProfilesOk(s) && !t.StoreProfile? && !t.Commit?
    ensures ProfilesOk(Next(s, t))
  {
    var s' := Next(s, t);
    forall u ensures u in s'.profiles <==> StoredLast(s', u) {
      assert StoredLast(s, u) <==> u in s.profiles;
      assert DeletesBefore(s', u, LastStore(s.stores, u)) <==> DeletesBefore(s, u, LastStore(s.stores, u));
    }
    forall j | 0 <= j < |s'.attempts| ensures PendingOk(s', s'.attempts[j]) {
      if j < |s.attempts| { assert PendingOk(s, s.attempts[j]); }
    }
  }

  ghost predicate ProfileInv(s: State) {
    ProfilesOk(s) && SeenOk(s)
  }

  ghost predicate SeenOk(s: State) {
    forall k :: 0 <= k < |s.commits| ==> s.commits[k].seen <= |s.stores|
  }

  lemma NextKeepsProfiles(s: State, t: Step)
    requires ProfileInv(s)
    ensures ProfileInv(Next(s, t))
  {
    if t.StoreProfile? {
      if CanStore(s, t.k) { StoreKeepsProfiles(s, t.k); }
    } else if t.Commit? {
      if t.i < |s.attempts| && s.attempts[t.i].ProfileDeleted? {
        assert PendingOk(s, s.attempts[t.i]);
        CommitKeepsProfiles(s, t.i);
      }
    } else {
      OtherKeepsProfiles(s, t);
    }
  }

  /**
  Exactly when a profile is there. In every run, with any updates, deliveries, failures and clean-ups,
  a user has a profile if and only if a store of it took effect after the delete of every committed
  handling for that user, or it was there at the start and there was neither. So after a success the
  profile is gone exactly as long as no update is stored after the handler's delete, before or after
  its commit.
  */
  lemma ProfileIsThereIff(userOf: EventId -> UserId, start: Time, profiles: set<UserId>, steps: seq<Step>, u: UserId)
    ensures var s := Run(Next, Init(userOf, start, profiles), steps);
            s.userOf == userOf && s.initially == profiles && (u in s.profiles <==> StoredLast(s, u))
  {
    forall s, t | ProfileInv(s) ensures ProfileInv(Next(s, t)) { NextKeepsProfiles(s, t); }
    var s0 := Init(userOf, start, profiles);
    assert ProfileInv(s0);
    InvariantHolds(Next, ProfileInv, s0, steps);
    var same := (s: State) => s.userOf == userOf && s.initially == profiles;
    InvariantHolds(Next, same, s0, steps);
    var s := Run(Next, s0, steps);
    assert u in s.profiles <==> StoredLast(s, u);
  }
}
