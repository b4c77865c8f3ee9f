/**
Session tokens: they are given out at login, accepted without looking at the user while they are
fresh, and replaced by new ones afterwards if the user still exists and is not deleted.

Logins, verifications, registrations and deletions are interleaved under one clock. An operation
that gives out a token reads the user first and creates the token later, at most `latency` later; a
latency of zero makes operations instantaneous. The time of a deletion is that of its commit.
*/
module Session {
  import opened Options
  import opened Runs

  type UserId = nat
  type Time = int  // nanoseconds

  const MINUTE: Time := 60 * 1_000_000_000
  const SESSION_TTL: Time := 7 * 24 * 60 * MINUTE
  const RENEWAL_INTERVAL: Time := 15 * MINUTE

  datatype User = User(login: string, deletedAt: Option<Time>)
  datatype Token = Token(user: UserId, createdAt: Time, validTill: Time)
  datatype Verdict = Unauthenticated | Accepted | Renew

  function Generate(user: UserId, now: Time): Token {
    Token(user, now, now + SESSION_TTL)
  }

  predicate Expired(token: Token, now: Time) {
    token.validTill < now
  }

  predicate Usable(users: map<UserId, User>, id: UserId) {
    id in users && users[id].deletedAt.None?
  }

  /** The branches of a verification. */
  function Verify(users: map<UserId, User>, token: Token, now: Time): Verdict {
    if Expired(token, now) then Unauthenticated
    else if token.createdAt > now - RENEWAL_INTERVAL then Accepted
    else if !Usable(users, token.user) then Unauthenticated
    else Renew
  }

  // ------------------------------------------------------------------ the machine

  /** An operation that has read its user and is to create a token. */
  datatype Pending = Pending(user: UserId, readAt: Time, done: bool)
  datatype Issued = Issued(token: Token, readAt: Time)
  datatype Acceptance = Acceptance(token: Token, at: Time)

  datatype State = State(
    latency: nat,
    now: Time,
    users: map<UserId, User>,
    nextUser: nat,
    pending: seq<Pending>,
    issued: seq<Issued>,             // history
    acceptances: seq<Acceptance>)    // history

  datatype Step =
    | Tick(d: nat)
    | Register(login: string)
    | Delete(id: UserId)
    | Login(login: string, id: UserId, passwordOk: bool)  // the query for the login returns id
    | Present(token: Token)                               // verify a token, generated or not
    | Create(k: nat)                                      // pending operation k creates its token

  function Init(latency: nat, now: Time): State {
    State(latency, now, map[], 0, [], [], [])
  }

  predicate LoginTaken(users: map<UserId, User>, login: string) {
    exists id :: id in users && users[id].login == login
  }

  function Read(s: State, user: UserId): State {
    s.(pending := s.pending + [Pending(user, s.now, false)])
  }

  function Presented(s: State, token: Token): State {
    var verdict := Verify(s.users, token, s.now);
    if verdict.Unauthenticated? then s
    else
      var s' := s.(acceptances := s.acceptances + [Acceptance(token, s.now)]);
      if verdict.Renew? then Read(s', token.user) else s'
  }

  function Created(s: State, k: nat): State
    requires k < |s.pending|
  {
    var p := s.pending[k];
    if p.done || s.now > p.readAt + s.latency then s
    else s.(pending := s.pending[k := p.(done := true)],
        issued := s.issued + [Issued(Generate(p.user, s.now), p.readAt)])
  }

  function Next(s: State, t: Step): State {
    match t
    case Tick(d) => s.(now := s.now + d)
    case Register(login) =>
      if LoginTaken(s.users, login) then s  // also when that user is deleted
      else s.(users := s.users[s.nextUser := User(login, None)], nextUser := s.nextUser + 1)
    case Delete(id) =>
      if Usable(s.users, id) then s.(users := s.users[id := s.users[id].(deletedAt := Some(s.now))]) else s
    case Login(login, id, passwordOk) =>
      if Usable(s.users, id) && s.users[id].login == login && passwordOk then Read(s, id) else s
    case Present(token) => Presented(s, token)
    case Create(k) => if k < |s.pending| then Created(s, k) else s
  }

  // ------------------------------------------------------------------ what every step keeps

  /** At that time the user existed and was not deleted. */
  ghost predicate LiveAt(s: State, user: UserId, at: Time) {
    && at <= s.now && user in s.users
    && (s.users[user].deletedAt.Some? ==> at <= s.users[user].deletedAt.value)
  }

  ghost predicate IssuedOk(s: State, x: Issued) {
    && LiveAt(s, x.token.user, x.readAt)
    && x.readAt <= x.token.createdAt <= x.readAt + s.latency
    && x.token.validTill == x.token.createdAt + SESSION_TTL
  }

  /** An accepted token was fresh, or the user was looked at. */
  ghost predicate AcceptanceOk(s: State, a: Acceptance) {
    && a.at <= a.token.validTill
    && (a.at < a.token.createdAt + RENEWAL_INTERVAL || LiveAt(s, a.token.user, a.at))
  }

  ghost predicate HistoryOk(s: State) {
    && (forall k :: 0 <= k < |s.pending| ==> LiveAt(s, s.pending[k].user, s.pending[k].readAt))
    && (forall k :: 0 <= k < |s.issued| ==> IssuedOk(s, s.issued[k]))
    && (forall k :: 0 <= k < |s.acceptances| ==> AcceptanceOk(s, s.acceptances[k]))
  }

  ghost predicate UsersOk(s: State) {
    && (forall id :: id in s.users ==> id < s.nextUser)
    && (forall a, b :: a in s.users && b in s.users && s.users[a].login == s.users[b].login ==> a == b)
    && (forall id :: id in s.users && s.users[id].deletedAt.Some? ==> s.users[id].deletedAt.value <= s.now)
  }

  ghost predicate Inv(s: State) {
    HistoryOk(s) && UsersOk(s)
  }

  /** What never changes: users keep their login, and a deleted user stays deleted, at that time. */
  ghost predicate Keeps(s: State, s': State) {
    && s.now <= s'.now && s.latency == s'.latency
    && forall id :: id in s.users ==>
         && id in s'.users && s'.users[id].login == s.users[id].login
         && (s.users[id].deletedAt.Some? ==> s'.users[id] == s.users[id])
         && (s.users[id].deletedAt.None? && s'.users[id].deletedAt.Some? ==> s.now <= s'.users[id].deletedAt.value)
  }

  lemma LiveStays(s: State, s': State, user: UserId, at: Time)
    requires Keeps(s, s') && LiveAt(s, user, at)
    ensures LiveAt(s', user, at)
  {
  }

  lemma OldHistoryStays(s: State, s': State)
    requires Keeps(s, s') && HistoryOk(s)
    ensures HistoryOk(s'.(pending := s.pending, issued := s.issued, acceptances := s.acceptances))
  {
    var r := s'.(pending := s.pending, issued := s.issued, acceptances := s.acceptances);
    forall k | 0 <= k < |s.pending| ensures LiveAt(r, s.pending[k].user, s.pending[k].readAt) {
      LiveStays(s, r, s.pending[k].user, s.pending[k].readAt);
    }
    forall k | 0 <= k < |s.issued| ensures IssuedOk(r, s.issued[k]) {
      assert IssuedOk(s, s.issued[k]);
      LiveStays(s, r, s.issued[k].token.user, s.issued[k].readAt);
    }
    forall k | 0 <= k < |s.acceptances| ensures AcceptanceOk(r, s.acceptances[k]) {
      assert AcceptanceOk(s, s.acceptances[k]);
    }
  }

  lemma RegisterStep(s: State, login: string)
    requires UsersOk(s)
    ensures UsersOk(Next(s, Register(login))) && Keeps(s, Next(s, Register(login)))
  {
  }

  lemma DeleteStep(s: State, id: UserId)
    requires UsersOk(s)
    ensures UsersOk(Next(s, Delete(id))) && Keeps(s, Next(s, Delete(id)))
  {
  }

  lemma UsersStep(s: State, t: Step)
    requires UsersOk(s)
    ensures Keeps(s, Next(s, t)) && UsersOk(Next(s, t))
  {
    if t.Register? { RegisterStep(s, t.login); } else if t.Delete? { DeleteStep(s, t.id); }
  }

  lemma ReadIsOk(s: State, user: UserId)
    requires HistoryOk(s) && LiveAt(s, user, s.now)
    ensures HistoryOk(Read(s, user))
  {
    OldHistoryStays(s, s);
    var s' := Read(s, user);
    forall k | 0 <= k < |s'.issued| ensures IssuedOk(s', s'.issued[k]) { assert IssuedOk(s, s.issued[k]); }
    forall k | 0 <= k < |s'.acceptances| ensures AcceptanceOk(s', s'.acceptances[k]) {
      assert AcceptanceOk(s, s.acceptances[k]);
    }
  }

  lemma PresentedIsOk(s: State, token: Token)
    requires HistoryOk(s)
    ensures HistoryOk(Presented(s, token))
  {
    var verdict := Verify(s.users, token, s.now);
    if !verdict.Unauthenticated? {
      var s' := s.(acceptances := s.acceptances + [Acceptance(token, s.now)]);
      forall k | 0 <= k < |s'.issued| ensures IssuedOk(s', s'.issued[k]) { assert IssuedOk(s, s.issued[k]); }
      forall k | 0 <= k < |s'.acceptances| ensures AcceptanceOk(s', s'.acceptances[k]) {
        if k < |s.acceptances| { assert AcceptanceOk(s, s.acceptances[k]); }
      }
      if verdict.Renew? { ReadIsOk(s', token.user); }
    }
  }

  lemma CreatedIsOk(s: State, k: nat)
    requires HistoryOk(s) && k < |s.pending|
    ensures HistoryOk(Created(s, k))
  {
    var s' := Created(s, k);
    assert LiveAt(s, s.pending[k].user, s.pending[k].readAt);
    forall k | 0 <= k < |s'.issued| ensures IssuedOk(s', s'.issued[k]) {
      if k < |s.issued| { assert IssuedOk(s, s.issued[k]); }
    }
    forall k | 0 <= k < |s'.acceptances| ensures AcceptanceOk(s', s'.acceptances[k]) {
      assert AcceptanceOk(s, s.acceptances[k]);
    }
  }

  lemma NextKeepsInv(s: State, t: Step)
    requires Inv(s)
    ensures Inv(Next(s, t))
  {
    UsersStep(s, t);
    if t.Present? {
      PresentedIsOk(s, t.token);
    } else if t.Create? {
      if t.k < |s.pending| { CreatedIsOk(s, t.k); }
    } else if t.Login? {
      if Next(s, t) != s { ReadIsOk(s, t.id); }
    } else {
      OldHistoryStays(s, Next(s, t));
    }
  }

  lemma RunKeepsInv(latency: nat, start: Time, steps: seq<Step>)
    ensures Inv(Run(Next, Init(latency, start), steps))
  {
    forall s, t | Inv(s) ensures Inv(Next(s, t)) { NextKeepsInv(s, t); }
    InvariantHolds(Next, Inv, Init(latency, start), steps);
  }

  // ------------------------------------------------------------------ results

  predicate DeletedAt(s: State, id: UserId, d: Time) {
    id in s.users && s.users[id].deletedAt == Some(d)
  }

  /**
  No generated token of a user deleted at d is accepted at d plus the renewal interval, plus the
  latency, or later.
  */
  lemma AcceptedOnlyShortlyAfterDeletion(latency: nat, start: Time, steps: seq<Step>, i: nat, a: nat, d: Time)
    requires var s := Run(Next, Init(latency, start), steps);
             && i < |s.issued| && a < |s.acceptances| && s.acceptances[a].token == s.issued[i].token
             && DeletedAt(s, s.issued[i].token.user, d)
    ensures Run(Next, Init(latency, start), steps).acceptances[a].at < d + RENEWAL_INTERVAL + latency
  {
    RunKeepsInv(latency, start, steps);
    RunKeepsLatency(latency, start, steps);
    var s := Run(Next, Init(latency, start), steps);
    assert IssuedOk(s, s.issued[i]) && AcceptanceOk(s, s.acceptances[a]);
  }

  /** No generated token is accepted more than the session's lifetime after its creation. */
  lemma NeverAcceptedAfterLifetime(latency: nat, start: Time, steps: seq<Step>, i: nat, a: nat)
    requires var s := Run(Next, Init(latency, start), steps);
             i < |s.issued| && a < |s.acceptances| && s.acceptances[a].token == s.issued[i].token
    ensures var s := Run(Next, Init(latency, start), steps);
            s.acceptances[a].at <= s.issued[i].token.createdAt + SESSION_TTL
  {
    RunKeepsInv(latency, start, steps);
    var s := Run(Next, Init(latency, start), steps);
    assert IssuedOk(s, s.issued[i]) && AcceptanceOk(s, s.acceptances[a]);
  }

  /** A user deleted at d gets no token, by login or renewal, later than the latency after d. */
  lemma NoTokenAfterDeletion(latency: nat, start: Time, steps: seq<Step>, i: nat, d: Time)
    requires var s := Run(Next, Init(latency, start), steps);
             i < |s.issued| && DeletedAt(s, s.issued[i].token.user, d)
    ensures Run(Next, Init(latency, start), steps).issued[i].token.createdAt <= d + latency
  {
    RunKeepsInv(latency, start, steps);
    RunKeepsLatency(latency, start, steps);
    var s := Run(Next, Init(latency, start), steps);
    assert IssuedOk(s, s.issued[i]);
  }

  lemma RunKeeps(s: State, steps: seq<Step>)
    requires Inv(s)
    ensures Keeps(s, Run(Next, s, steps))
  {
    forall s, t | Inv(s) ensures Inv(Next(s, t)) && Keeps(s, Next(s, t)) {
      NextKeepsInv(s, t);
      UsersStep(s, t);
    }
    RelationHolds(Next, Inv, Keeps, s, steps);
  }

  lemma RunKeepsLatency(latency: nat, start: Time, steps: seq<Step>)
    ensures Run(Next, Init(latency, start), steps).latency == latency
  {
    RunKeeps(Init(latency, start), steps);
  }

  /** The login of a deleted user never leads to a session or to a new user again. */
  lemma LoginStaysClosed(latency: nat, start: Time, before: seq<Step>, after: seq<Step>, id: UserId, d: Time,
      step: Step)
    requires DeletedAt(Run(Next, Init(latency, start), before), id, d)
    requires step.Login? || step.Register?
    requires step.login == Run(Next, Init(latency, start), before).users[id].login
    ensures var s := Run(Next, Init(latency, start), before + after); Next(s, step) == s
  {
    var s := Run(Next, Init(latency, start), before);
    RunKeepsInv(latency, start, before);
    RunConcat(Next, Init(latency, start), before, after);
    RunKeeps(s, after);
    RunKeepsInv(latency, start, before + after);
    var s' := Run(Next, Init(latency, start), before + after);
    assert id in s'.users && s'.users[id].login == step.login && s'.users[id].deletedAt == Some(d);
    assert LoginTaken(s'.users, step.login);
  }

  // ---- the bound is tight

  lemma RunOne(s: State, t: Step, steps: seq<Step>)
    ensures Run(Next, s, [t] + steps) == Run(Next, Next(s, t), steps)
  {
    assert ([t] + steps)[1..] == steps;
  }

  /** User 0 was read at time 0, then deleted, also at 0, and the token is about to be created, as late as possible. */
  function AboutToCreate(latency: nat, login: string): State {
    Init(latency, latency).(users := map[0 := User(login, Some(0))], nextUser := 1, pending := [Pending(0, 0, false)])
  }

  lemma ReachAboutToCreate(latency: nat, login: string) returns (steps: seq<Step>)
    ensures Run(Next, Init(latency, 0), steps) == AboutToCreate(latency, login)
  {
    var s0 := Init(latency, 0);
    var s1 := s0.(users := map[0 := User(login, None)], nextUser := 1);
    var s2 := s1.(pending := [Pending(0, 0, false)]);
    assert Next(s0, Register(login)) == s1 && Next(s1, Login(login, 0, true)) == s2;
    var last := [Delete(0)] + ([Tick(latency)] + []);
    steps := [Register(login)] + ([Login(login, 0, true)] + last);
    RunOne(s0, Register(login), [Login(login, 0, true)] + last);
    RunOne(s1, Login(login, 0, true), last);
    RunOne(s2, Delete(0), [Tick(latency)] + []);
    RunOne(Next(s2, Delete(0)), Tick(latency), []);
  }

  /** For every latency some token is accepted one nanosecond before the bound. */
  lemma BoundIsTight(latency: nat, login: string) returns (steps: seq<Step>)
    ensures var s := Run(Next, Init(latency, 0), steps);
            && DeletedAt(s, 0, 0)
            && s.issued == [Issued(Generate(0, latency), 0)]
            && s.acceptances == [Acceptance(Generate(0, latency), RENEWAL_INTERVAL + latency - 1)]
  {
    var first := ReachAboutToCreate(latency, login);
    var s3 := AboutToCreate(latency, login);
    var s4 := s3.(pending := [Pending(0, 0, true)], issued := [Issued(Generate(0, latency), 0)]);
    var s5 := s4.(now := RENEWAL_INTERVAL + latency - 1);
    var last := [Tick(RENEWAL_INTERVAL - 1)] + ([Present(Generate(0, latency))] + []);
    steps := first + ([Create(0)] + last);
    RunConcat(Next, Init(latency, 0), first, [Create(0)] + last);
    assert Next(s3, Create(0)) == s4;
    RunOne(s3, Create(0), last);
    RunOne(s4, Tick(RENEWAL_INTERVAL - 1), [Present(Generate(0, latency))] + []);
    RunOne(s5, Present(Generate(0, latency)), []);
  }

  // ---- sessions begin with a password

  /** A token that is presented was generated; tokens are signed. */
  ghost predicate Genuine(s: State, t: Step) {
    t.Present? ==> exists i :: 0 <= i < |s.issued| && s.issued[i].token == t.token
  }

  ghost predicate AllGenuine(s: State, steps: seq<Step>)
    decreases |steps|
  {
    steps == [] || (Genuine(s, steps[0]) && AllGenuine(Next(s, steps[0]), steps[1..]))
  }

  predicate NoPassword(user: UserId, steps: seq<Step>) {
    forall k :: 0 <= k < |steps| && steps[k].Login? && steps[k].id == user ==> !steps[k].passwordOk
  }

  ghost predicate NoSession(s: State, user: UserId) {
    && (forall k :: 0 <= k < |s.pending| ==> s.pending[k].user != user)
    && (forall k :: 0 <= k < |s.issued| ==> s.issued[k].token.user != user)
    && (forall k :: 0 <= k < |s.acceptances| ==> s.acceptances[k].token.user != user)
  }

  lemma {:induction false} NoSessionStays(s: State, steps: seq<Step>, user: UserId)
    requires NoSession(s, user) && AllGenuine(s, steps) && NoPassword(user, steps)
    ensures NoSession(Run(Next, s, steps), user)
    decreases |steps|
  {
    if steps != [] {
      assert NoSession(Next(s, steps[0]), user);
      NoSessionStays(Next(s, steps[0]), steps[1..], user);
    }
  }

  /**
  Nobody gets in without the password: as long as no login of a user came with the right password, no token
  of the user is created or accepted, in every run in which only generated tokens are presented.
  */
  lemma NoSessionWithoutPassword(latency: nat, start: Time, steps: seq<Step>, user: UserId)
    requires AllGenuine(Init(latency, start), steps) && NoPassword(user, steps)
    ensures NoSession(Run(Next, Init(latency, start), steps), user)
  {
    NoSessionStays(Init(latency, start), steps, user);
  }

  // ---- sessions can be had

  /** The state after a token for the user was created at once. */
  function TokenGiven(s: State, user: UserId): State {
    s.(pending := s.pending + [Pending(user, s.now, true)],
       issued := s.issued + [Issued(Generate(user, s.now), s.now)])
  }

  lemma ReadThenCreate(s: State, user: UserId)
    ensures Next(Read(s, user), Create(|s.pending|)) == TokenGiven(s, user)
  {
    assert (s.pending + [Pending(user, s.now, false)])[|s.pending| := Pending(user, s.now, true)]
        == s.pending + [Pending(user, s.now, true)];
  }

  /** The right password of a user that is not deleted gives a token, from any state. */
  lemma LoginWorks(s: State, user: UserId)
    requires Usable(s.users, user)
    ensures Run(Next, s, [Login(s.users[user].login, user, true)] + ([Create(|s.pending|)] + [])) == TokenGiven(s, user)
  {
    var t := Login(s.users[user].login, user, true);
    RunOne(s, t, [Create(|s.pending|)] + []);
    RunOne(Next(s, t), Create(|s.pending|), []);
    ReadThenCreate(s, user);
  }

  /** An old token of such a user that has not run out is accepted and replaced, from any state. */
  lemma RenewalWorks(s: State, token: Token)
    requires Usable(s.users, token.user) && token.createdAt <= s.now - RENEWAL_INTERVAL && s.now <= token.validTill
    ensures Run(Next, s, [Present(token)] + ([Create(|s.pending|)] + []))
         == TokenGiven(s.(acceptances := s.acceptances + [Acceptance(token, s.now)]), token.user)
  {
    var s' := s.(acceptances := s.acceptances + [Acceptance(token, s.now)]);
    RunOne(s, Present(token), [Create(|s.pending|)] + []);
    PresentRenews(s, token);
    RunOne(Read(s', token.user), Create(|s.pending|), []);
    ReadThenCreate(s', token.user);
  }

  lemma PresentRenews(s: State, token: Token)
    requires Usable(s.users, token.user) && token.createdAt <= s.now - RENEWAL_INTERVAL && s.now <= token.validTill
    ensures Next(s, Present(token)) == Read(s.(acceptances := s.acceptances + [Acceptance(token, s.now)]), token.user)
  {
    assert Verify(s.users, token, s.now) == Renew;
  }

  /** The lifetime is not cut short: some token is accepted when it is exactly as old as the session's lifetime. */
  lemma LifetimeIsTight(start: Time, login: string) returns (steps: seq<Step>)
    ensures var s := Run(Next, Init(0, start), steps);
            && s.issued == [Issued(Generate(0, start), start)]
            && s.acceptances == [Acceptance(Generate(0, start), start + SESSION_TTL)]
  {
    var s0 := Init(0, start);
    var s1 := Next(s0, Register(login));
    assert s1 == s0.(users := map[0 := User(login, None)], nextUser := 1);
    LoginWorks(s1, 0);
    var signIn := [Login(login, 0, true)] + ([Create(0)] + []);
    var s2 := TokenGiven(s1, 0);
    assert s2.issued == [Issued(Generate(0, start), start)];
    var later := [Tick(SESSION_TTL)] + ([Present(Generate(0, start))] + []);
    steps := [Register(login)] + (signIn + later);
    RunOne(s0, Register(login), signIn + later);
    RunConcat(Next, s1, signIn, later);
    RunOne(s2, Tick(SESSION_TTL), [Present(Generate(0, start))] + []);
    RunOne(Next(s2, Tick(SESSION_TTL)), Present(Generate(0, start)), []);
  }

  // ---- sessions in use go on

  /** A client that presents the newest token it has, after each of the gaps, is accepted every time. */
  predicate StaysSignedIn(users: map<UserId, User>, token: Token, now: Time, gaps: seq<nat>)
    decreases |gaps|
  {
    gaps == [] ||
    var later := now + gaps[0];
    match Verify(users, token, later)
    case Unauthenticated => false
    case Accepted => StaysSignedIn(users, token, later, gaps[1..])
    case Renew => StaysSignedIn(users, Generate(token.user, later), later, gaps[1..])
  }

  /**
  As long as the user exists, a session goes on forever if no pause is longer than the lifetime less
  the renewal interval.
  */
  lemma {:induction false} UsedSessionGoesOn(users: map<UserId, User>, token: Token, now: Time, gaps: seq<nat>)
    requires Usable(users, token.user) && token.validTill == token.createdAt + SESSION_TTL
    requires now - RENEWAL_INTERVAL < token.createdAt <= now
    requires forall k :: 0 <= k < |gaps| ==> gaps[k] <= SESSION_TTL - RENEWAL_INTERVAL
    ensures StaysSignedIn(users, token, now, gaps)
    decreases |gaps|
  {
    if gaps != [] {
      var later := now + gaps[0];
      var newest := if Verify(users, token, later).Renew? then Generate(token.user, later) else token;
      UsedSessionGoesOn(users, newest, later, gaps[1..]);
    }
  }
}
