/** Runs of single attempts to handle a deletion event: what an undisturbed one does, and what an expired key allows. */
module ProfileRuns {
  import opened Runs
  import opened ProfileDeletion

  function Steps(n: nat, e: EventId): seq<Step> {
    [Start(e), Ask(n, Deleted), Begin(n), InsertKey(n), DeleteProfile(n), Commit(n)]
  }

  /** The state after an undisturbed attempt for a deleted user. */
  function Handled(s: State, e: EventId): State {
    s.(keys := s.keys[e := s.now], profiles := s.profiles - {s.userOf(e)},
        attempts := s.attempts + [Returned(e, Nil, Deleted, false)],
       commits := s.commits + [Commitment(e, s.now, s.now, |s.stores|)])
  }

  lemma RunOne(s: State, t: Step)
    ensures Run(Next, s, [t]) == Next(s, t)
  {
    assert Run(Next, s, [t]) == Run(Next, Next(s, t), [t][1..]);
  }

  lemma RunTwo(s: State, t: Step, u: Step)
    ensures Run(Next, s, [t, u]) == Next(Next(s, t), u)
  {
    assert [t, u][1..] == [u];
    RunOne(Next(s, t), u);
  }

  /** The attempt number n at some point of its work. */
  function With(s: State, x: Attempt): State {
    s.(attempts := s.attempts + [x])
  }

  lemma StepOfLast(s: State, x: Attempt, t: Step)
    requires (t.Ask? || t.Begin?) && t.i == |s.attempts|
    ensures Next(With(s, x), t) == With(s, Inside(With(s, x), x, t))
  {
    assert With(s, x).attempts[|s.attempts| := Inside(With(s, x), x, t)] == s.attempts + [Inside(With(s, x), x, t)];
  }

  lemma AskOfLast(s: State, e: EventId)
    requires s.userOf(e) in s.deletions
    ensures Next(With(s, Started(e)), Ask(|s.attempts|, Deleted)) == With(s, Confirmed(e))
  {
    StepOfLast(s, Started(e), Ask(|s.attempts|, Deleted));
  }

  lemma BeginOfLast(s: State, e: EventId)
    ensures Next(With(s, Confirmed(e)), Begin(|s.attempts|)) == With(s, InTx(e, s.now))
  {
    StepOfLast(s, Confirmed(e), Begin(|s.attempts|));
  }

  lemma AttemptBegins(s: State, e: EventId)
    requires s.userOf(e) in s.deletions
    ensures var n := |s.attempts|; Run(Next, s, [Start(e), Ask(n, Deleted), Begin(n)]) == With(s, InTx(e, s.now))
  {
    var n := |s.attempts|;
    assert Next(s, Start(e)) == With(s, Started(e));
    RunTwo(With(s, Started(e)), Ask(n, Deleted), Begin(n));
    assert [Start(e), Ask(n, Deleted), Begin(n)][1..] == [Ask(n, Deleted), Begin(n)];
    AskOfLast(s, e);
    BeginOfLast(s, e);
  }

  lemma AttemptDeletes(s: State, e: EventId)
    requires e !in s.keys && !KeyBlocked(s, e) && !RowBlocked(s, s.userOf(e))
    ensures var n := |s.attempts|;
            Run(Next, With(s, InTx(e, s.now)), [InsertKey(n), DeleteProfile(n)])
            == With(s, ProfileDeleted(e, s.now, s.now, s.userOf(e) in s.profiles, |s.stores|))
  {
    var n := |s.attempts|;
    var a, b := With(s, InTx(e, s.now)), With(s, KeyInserted(e, s.now, s.now));
    RunTwo(a, InsertKey(n), DeleteProfile(n));
    assert !KeyBlocked(a, e) && Next(a, InsertKey(n)) == b;
    assert !RowBlocked(b, s.userOf(e)) by {
      assert forall j :: 0 <= j < n ==> b.attempts[j] == s.attempts[j];
    }
  }

  /** An attempt for a deleted user that nothing gets in the way of deletes the profile and commits. */
  lemma AttemptCommits(s: State, e: EventId)
    requires s.userOf(e) in s.deletions
    requires e !in s.keys && !KeyBlocked(s, e) && !RowBlocked(s, s.userOf(e))
    ensures Run(Next, s, Steps(|s.attempts|, e)) == Handled(s, e)
  {
    var n := |s.attempts|;
    var a, b, c := [Start(e), Ask(n, Deleted), Begin(n)], [InsertKey(n), DeleteProfile(n)], [Commit(n)];
    AttemptBegins(s, e);
    AttemptDeletes(s, e);
    assert Steps(n, e) == a + (b + c);
    RunConcat(Next, s, a, b + c);
    RunConcat(Next, With(s, InTx(e, s.now)), b, c);
    RunOne(With(s, ProfileDeleted(e, s.now, s.now, s.userOf(e) in s.profiles, |s.stores|)), Commit(n));
    CommitHandles(s, e);
  }

  lemma CommitHandles(s: State, e: EventId)
    ensures Next(With(s, ProfileDeleted(e, s.now, s.now, s.userOf(e) in s.profiles, |s.stores|)),
            Commit(|s.attempts|)) == Handled(s, e)
  {
    var n := |s.attempts|;
    var x := ProfileDeleted(e, s.now, s.now, s.userOf(e) in s.profiles, |s.stores|);
    assert With(s, x).attempts[n := Returned(e, Nil, Deleted, false)]
           == s.attempts + [Returned(e, Nil, Deleted, false)];
    if s.userOf(e) !in s.profiles { assert s.profiles - {s.userOf(e)} == s.profiles; }
  }

  lemma InsertionOfHandled(s: State, e: EventId)
    requires e in s.keys && !KeyBlocked(s, e)
    ensures Next(With(s, InTx(e, s.now)), InsertKey(|s.attempts|)) == With(s, Returned(e, Nil, Deleted, false))
  {
    var n := |s.attempts|;
    var x, y := InTx(e, s.now), Returned(e, Nil, Deleted, false);
    assert forall j :: 0 <= j < n ==> With(s, x).attempts[j] == s.attempts[j];
    assert !KeyBlocked(With(s, x), e);
    assert With(s, x).attempts[n := y] == s.attempts + [y];
  }

  /**
  A redelivered event whose key is still there: an attempt that nothing gets in the way of is reported as
  handled, and changes no key, no profile and no history.
  */
  lemma RedeliverySucceeds(s: State, e: EventId)
    requires s.userOf(e) in s.deletions && e in s.keys && !KeyBlocked(s, e)
    ensures var n := |s.attempts|;
            Run(Next, s, [Start(e), Ask(n, Deleted), Begin(n)] + [InsertKey(n)])
            == With(s, Returned(e, Nil, Deleted, false))
  {
    var n := |s.attempts|;
    AttemptBegins(s, e);
    RunConcat(Next, s, [Start(e), Ask(n, Deleted), Begin(n)], [InsertKey(n)]);
    RunOne(With(s, InTx(e, s.now)), InsertKey(n));
    InsertionOfHandled(s, e);
  }

  /**
  An event of a user that is not deleted counts as handled and changes nothing; one for which the user
  service does not answer does not count as handled.
  */
  lemma NothingIsDoneUnlessDeleted(s: State, e: EventId, answer: Answer)
    requires answer.Unavailable? || (NothingToDo(answer) && s.userOf(e) !in s.deletions)
    ensures Run(Next, s, [Start(e), Ask(|s.attempts|, answer)])
         == With(s, Returned(e, if NothingToDo(answer) then Nil else OtherError, answer, false))
  {
    var n := |s.attempts|;
    RunTwo(s, Start(e), Ask(n, answer));
    assert Next(s, Start(e)) == With(s, Started(e));
    StepOfLast(s, Started(e), Ask(n, answer));
  }

  /** An update that is told that its user exists, and that nothing gets in the way of, stores the profile. */
  lemma UpdateWorks(s: State, u: UserId)
    requires u !in s.deletions && !RowBlocked(s, u)
    ensures var k := |s.updates|;
            Run(Next, s, [AskUpdate(u, Active), StoreProfile(k)])
            == s.(profiles := s.profiles + {u}, updates := s.updates + [Update(u, |s.deletions|, false)],
                  stores := s.stores + [u], storedBy := s.storedBy + [k])
  {
    var k := |s.updates|;
    RunTwo(s, AskUpdate(u, Active), StoreProfile(k));
    var s1 := Next(s, AskUpdate(u, Active));
    assert s1 == s.(updates := s.updates + [Update(u, |s.deletions|, true)]);
    assert !RowBlocked(s1, u);
    assert s1.updates[k := Update(u, |s.deletions|, false)] == s.updates + [Update(u, |s.deletions|, false)];
  }

  /** The state after the clean-up of expired keys. */
  function Expired(s: State): State {
    Next(Next(s, Tick(KEY_TTL + 1)), Clean(0))
  }

  function TwiceSteps(e: EventId): seq<Step> {
    Steps(0, e) + ([Tick(KEY_TTL + 1), Clean(0)] + Steps(1, e))
  }

  lemma HandledTwice(s: State, e: EventId)
    requires s.userOf(e) in s.deletions && s.keys == map[] && s.attempts == []
    ensures Run(Next, s, TwiceSteps(e)) == Handled(Expired(Handled(s, e)), e)
  {
    AttemptCommits(s, e);
    var s1 := Handled(s, e);
    RunTwo(s1, Tick(KEY_TTL + 1), Clean(0));
    var s2 := Expired(s1);
    assert |s2.attempts| == 1 && s2.attempts[0].Returned? && e !in s2.keys;
    AttemptCommits(s2, e);
    RunConcat(Next, s, Steps(0, e), [Tick(KEY_TTL + 1), Clean(0)] + Steps(1, e));
    RunConcat(Next, s1, [Tick(KEY_TTL + 1), Clean(0)], Steps(1, e));
  }

  /** The bound is tight: any event redelivered after its key has expired and was removed is committed a second time. */
  lemma ExpiredKeyCommitsTwice(userOf: EventId -> UserId, start: Time, profiles: set<UserId>, e: EventId)
    ensures var steps := [DeleteUser(userOf(e))] + TwiceSteps(e);
            CommitsOf(Run(Next, Init(userOf, start, profiles), steps).commits, e) == 2
  {
    var s0 := Init(userOf, start, profiles);
    var s := s0.(deletions := [userOf(e)]);
    assert s0.deletions + [userOf(e)] == [userOf(e)];
    RunOne(s0, DeleteUser(userOf(e)));
    RunConcat(Next, s0, [DeleteUser(userOf(e))], TwiceSteps(e));
    HandledTwice(s, e);
    CommittedTwice(s, e);
  }

  lemma CommittedTwice(s: State, e: EventId)
    requires s.commits == []
    ensures CommitsOf(Handled(Expired(Handled(s, e)), e).commits, e) == 2
  {
    var none: seq<Commitment> := [];
    var s2 := Expired(Handled(s, e));
    assert s2.commits == none + [Commitment(e, s.now, s.now, |s.stores|)];
    CommitsStep(none, Commitment(e, s.now, s.now, |s.stores|), e);
    CommitsStep(s2.commits, Commitment(e, s2.now, s2.now, |s2.stores|), e);
  }
}
