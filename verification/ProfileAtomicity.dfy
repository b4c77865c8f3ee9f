/** The idempotency key of an event and the deletion of the profile change together, over any stretch of any run. */
module ProfileAtomicity {
  import opened Runs
  import opened ProfileDeletion

  ghost predicate DeletedSince(n: nat, s: State, u: UserId) {
    exists k :: n <= k < |s.commits| && s.userOf(s.commits[k].event) == u
  }

  ghost predicate CommittedSince(n: nat, s: State, e: EventId) {
    exists k :: n <= k < |s.commits| && s.commits[k].event == e
  }

  ghost predicate RemovedSince(n: nat, s: State, e: EventId) {
    exists k :: n <= k < |s.removals| && e in s.removals[k]
  }

  ghost predicate KeyStands(n: nat, s: State, e: EventId) {
    e in s.keys || RemovedSince(n, s, e)
  }

  /**
  What lies between two states: a profile is gone, or a key is new, only where the handler has
  committed, and every commit has left its key, unless the cleaner has removed it since.
  */
  ghost predicate Accounted(s: State, s': State) {
    && s.userOf == s'.userOf && s.commits <= s'.commits
    && (forall u :: u in s.profiles ==> u in s'.profiles || DeletedSince(|s.commits|, s', u))
    && (forall e :: e in s'.keys ==> e in s.keys || CommittedSince(|s.commits|, s', e))
    && (forall k :: |s.commits| <= k < |s'.commits| ==> KeyStands(|s.removals|, s', s'.commits[k].event))
    && (forall e :: e in s.keys ==> KeyStands(|s.removals|, s', e))
    && s.removals <= s'.removals
  }

  lemma NextIsAccounted(s: State, t: Step)
    ensures Accounted(s, Next(s, t))
  {
    if t.Commit? && t.i < |s.attempts| && s.attempts[t.i].ProfileDeleted? {
      var s' := Next(s, t);
      var x := s.attempts[t.i];
      assert s'.commits[|s.commits|].event == x.event;
      assert DeletedSince(|s.commits|, s', s.userOf(x.event)) && CommittedSince(|s.commits|, s', x.event);
    } else if t.Clean? {
      assert Next(s, t).removals[|s.removals|] == Outdated(s.keys, s.now - KEY_TTL - t.delay);
      forall e | e in s.keys && e !in Next(s, t).keys ensures RemovedSince(|s.removals|, Next(s, t), e) {
        assert e in Next(s, t).removals[|s.removals|];
      }
    }
  }

  lemma AccountedIsTransitive(a: State, b: State, c: State)
    requires Accounted(a, b) && Accounted(b, c)
    ensures Accounted(a, c)
  {
    forall u | u in a.profiles ensures u in c.profiles || DeletedSince(|a.commits|, c, u) {
      if DeletedSince(|a.commits|, b, u) {
        var k :| |a.commits| <= k < |b.commits| && b.userOf(b.commits[k].event) == u;
        assert c.commits[k] == b.commits[k];
      }
    }
    forall e | e in c.keys ensures e in a.keys || CommittedSince(|a.commits|, c, e) {
      if CommittedSince(|a.commits|, b, e) {
        var k :| |a.commits| <= k < |b.commits| && b.commits[k].event == e;
        assert c.commits[k] == b.commits[k];
      }
    }
    KeysAreTransitive(a, b, c);
  }

  lemma KeysAreTransitive(a: State, b: State, c: State)
    requires Accounted(a, b) && Accounted(b, c)
    ensures forall e :: e in a.keys ==> KeyStands(|a.removals|, c, e)
    ensures forall k :: |a.commits| <= k < |c.commits| ==> KeyStands(|a.removals|, c, c.commits[k].event)
  {
    forall e | RemovedSince(|a.removals|, b, e) || RemovedSince(|b.removals|, c, e)
        ensures RemovedSince(|a.removals|, c, e) {
      if RemovedSince(|a.removals|, b, e) {
        var k :| |a.removals| <= k < |b.removals| && e in b.removals[k];
        assert e in c.removals[k];
      }
    }
  }

  /**
  Over any stretch of any run, a profile disappears and a key appears only by a commit of the handler,
  and every commit leaves its key.
  */
  lemma KeyAndProfileTogether(s: State, steps: seq<Step>)
    ensures Accounted(s, Run(Next, s, steps))
  {
    forall s, t ensures Accounted(s, Next(s, t)) { NextIsAccounted(s, t); }
    forall a, b, c | Accounted(a, b) && Accounted(b, c) ensures Accounted(a, c) { AccountedIsTransitive(a, b, c); }
    RelationHolds(Next, s => true, Accounted, s, steps);
  }
}
