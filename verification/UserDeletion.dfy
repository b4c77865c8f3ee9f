/**
Deleting and registering users. Any number of calls run at once, each in a transaction of its own:
deleting reads the row under a row lock, marks it, stores the events of the user in the message
table and then the row; registering works under the advisory lock update_users. A transaction may
roll back after any of its steps; what it wrote reaches the tables when it commits.
*/
module UserDeletion {
  import opened Options
  import opened Runs

  type UserId = nat
  type EventId = nat
  type Time = int

  datatype Row = Row(login: string, passwordHash: string, deletedAt: Option<Time>)
  datatype Event = UserDeleted(id: EventId, user: UserId)
  datatype User = User(id: UserId, row: Row, changes: seq<Event>)

  /** Marks the user and records the event. */
  function SetDeletedAt(u: User, at: Time, event: EventId): User {
    u.(row := u.row.(deletedAt := Some(at)), changes := u.changes + [UserDeleted(event, u.id)])
  }

  datatype RegisterError = AlreadyDeleted | AlreadyExists

  datatype Tx =
    | DeleteBegun(id: UserId)
    | DeleteFound(user: User)                 // the row is locked and was not deleted
    | DeleteMarked(user: User)
    | DeleteDispatched(user: User)            // the events are stored in the transaction
    | DeleteStored(user: User)                // and so is the row
    | DeleteIdle(id: UserId, found: bool)     // no such user, or already deleted
    | RegisterBegun(login: string, hash: string)
    | RegisterLocked(login: string, hash: string)
    | RegisterAbsent(login: string, hash: string)
    | RegisterStored(id: UserId, login: string, hash: string)
    | RegisterKnown(id: UserId, login: string, hash: string, seen: Row)   // seen: the row that was read
    | Deleted(id: UserId, found: bool)        // Delete returned nil
    | Registered(id: UserId, login: string, hash: string, seen: Row)   // Register returned an id
    | Refused(error: RegisterError, login: string, hash: string)   // Register returned this error
    | RolledBack                                                   // another error, or a crash
    | LoginViolated                           // the insertion hit the unique constraint on logins

  datatype State = State(
    users: map<UserId, Row>,        // the committed rows
    events: map<EventId, UserId>,   // the messages ever committed; delivering them is not part of this machine
    txs: seq<Tx>,
    nextUser: nat,
    nextEvent: nat)

  datatype Step =
    | Delete(id: UserId)
    | Register(login: string, hash: string)
    | FindForUpdate(i: nat)
    | Mark(i: nat, now: Time)
    | Dispatch(i: nat)
    | Upsert(i: nat)
    | Lock(i: nat)
    | FindByLogin(i: nat, id: UserId)   // the query returns id, any row with the login
    | Insert(i: nat)
    | Commit(i: nat)
    | Rollback(i: nat)

  const Init := State(map[], map[], [], 0, 0)

  // ------------------------------------------------------------------ locks

  predicate HasRow(x: Tx) {
    x.DeleteFound? || x.DeleteMarked? || x.DeleteDispatched? || x.DeleteStored?
  }

  /** The transaction holds the lock of the user's row. */
  predicate LocksRow(x: Tx, id: UserId) {
    (HasRow(x) && x.user.id == id) || (x.DeleteIdle? && x.found && x.id == id)
  }

  /** The transaction holds update_users. */
  predicate LocksUsers(x: Tx) {
    x.RegisterLocked? || x.RegisterAbsent? || x.RegisterStored? || x.RegisterKnown?
  }

  predicate RowLocked(s: State, id: UserId) {
    exists j :: 0 <= j < |s.txs| && LocksRow(s.txs[j], id)
  }

  predicate UsersLocked(s: State) {
    exists j :: 0 <= j < |s.txs| && LocksUsers(s.txs[j])
  }

  predicate LoginTaken(users: map<UserId, Row>, login: string) {
    exists id :: id in users && users[id].login == login
  }

  // ------------------------------------------------------------------ steps

  function Put(s: State, i: nat, x: Tx): State
    requires i < |s.txs|
  {
    s.(txs := s.txs[i := x])
  }

  /** Storing a message whose id is in the table does nothing. */
  function StoreEvent(events: map<EventId, UserId>, e: Event): map<EventId, UserId> {
    if e.id in events then events else events[e.id := e.user]
  }

  function StoreEvents(events: map<EventId, UserId>, es: seq<Event>): map<EventId, UserId>
    decreases |es|
  {
    if es == [] then events else StoreEvents(StoreEvent(events, es[0]), es[1..])
  }

  /** What a transaction at its end leaves to its caller; None if it may not commit yet. */
  function Result(x: Tx): Option<Tx> {
    match x
    case DeleteStored(u) => Some(Deleted(u.id, true))
    case DeleteIdle(id, found) => Some(Deleted(id, found))
    case RegisterStored(id, login, hash) => Some(Registered(id, login, hash, Row(login, hash, None)))
    case RegisterKnown(id, login, hash, seen) => Some(Registered(id, login, hash, seen))
    case _ => None
  }

  function CommittedUsers(users: map<UserId, Row>, x: Tx): map<UserId, Row> {
    if x.DeleteStored? then users[x.user.id := x.user.row]
    else if x.RegisterStored? then users[x.id := Row(x.login, x.hash, None)]
    else users
  }

  function CommittedEvents(events: map<EventId, UserId>, x: Tx): map<EventId, UserId> {
    if x.DeleteStored? then StoreEvents(events, x.user.changes) else events
  }

  function DoCommit(s: State, i: nat): State
    requires i < |s.txs|
  {
    var x := s.txs[i];
    if Result(x).None? then s
    else Put(s, i, Result(x).value).(users := CommittedUsers(s.users, x), events := CommittedEvents(s.events, x))
  }

  /** The answer to the locking query for a user, once no other transaction locks the row. */
  function FoundForUpdate(users: map<UserId, Row>, id: UserId): Tx {
    if id !in users then DeleteIdle(id, false)
    else if users[id].deletedAt.Some? then DeleteIdle(id, true)
    else DeleteFound(User(id, users[id], []))
  }

  /** What becomes of a registration that finds a row with its login. */
  function FoundByLogin(x: Tx, id: UserId, row: Row): Tx
    requires x.RegisterLocked?
  {
    if row.deletedAt.Some? then Refused(AlreadyDeleted, x.login, x.hash)
    else if row.passwordHash != x.hash then Refused(AlreadyExists, x.login, x.hash)
    else RegisterKnown(id, x.login, x.hash, row)
  }

  predicate Running(x: Tx) {
    !(x.Deleted? || x.Registered? || x.Refused? || x.RolledBack? || x.LoginViolated?)
  }

  /** A step of transaction i that changes neither table. */
  function Inside(s: State, i: nat, t: Step): Tx
    requires i < |s.txs|
  {
    var x := s.txs[i];
    match t
    case FindForUpdate(_) => if x.DeleteBegun? && !RowLocked(s, x.id) then FoundForUpdate(s.users, x.id) else x
    case Mark(_, now) => if x.DeleteFound? then DeleteMarked(SetDeletedAt(x.user, now, s.nextEvent)) else x
    case Dispatch(_) => if x.DeleteMarked? then DeleteDispatched(x.user) else x
    case Upsert(_) => if x.DeleteDispatched? then DeleteStored(x.user) else x
    case Lock(_) => if x.RegisterBegun? && !UsersLocked(s) then RegisterLocked(x.login, x.hash) else x
    case FindByLogin(_, id) =>
      if !x.RegisterLocked? then x
      else if !LoginTaken(s.users, x.login) then RegisterAbsent(x.login, x.hash)
      else if id in s.users && s.users[id].login == x.login then FoundByLogin(x, id, s.users[id])
      else x
    case Insert(_) =>
      if !x.RegisterAbsent? then x
      else if LoginTaken(s.users, x.login) then LoginViolated
      else RegisterStored(s.nextUser, x.login, x.hash)
    case Rollback(_) => if Running(x) then RolledBack else x
    case _ => x
  }

  function Next(s: State, t: Step): State {
    if t.Delete? then s.(txs := s.txs + [DeleteBegun(t.id)])
    else if t.Register? then s.(txs := s.txs + [RegisterBegun(t.login, t.hash)])
    else if t.i >= |s.txs| then s
    else if t.Commit? then DoCommit(s, t.i)
    else Put(s, t.i, Inside(s, t.i, t)).(
      nextEvent := if t.Mark? then s.nextEvent + 1 else s.nextEvent,
      nextUser := if t.Insert? then s.nextUser + 1 else s.nextUser)
  }

  // ------------------------------------------------------------------ what every step keeps

  ghost predicate IsEventOf(events: map<EventId, UserId>, e: EventId, id: UserId) {
    e in events && events[e] == id
  }

  /** A row is deleted exactly when there is an event for it, and there are never two for the same user. */
  ghost predicate Matched(users: map<UserId, Row>, events: map<EventId, UserId>) {
    && (forall e :: e in events ==> events[e] in users && users[events[e]].deletedAt.Some?)
    && (forall e, f :: e in events && f in events && events[e] == events[f] ==> e == f)
    && (forall id :: id in users && users[id].deletedAt.Some? ==> exists e: EventId :: IsEventOf(events, e, id))
  }

  predicate HasEvent(x: Tx) {
    x.DeleteMarked? || x.DeleteDispatched? || x.DeleteStored?
  }

  /** The event the transaction will store. */
  function EventOf(x: Tx): EventId
    requires HasEvent(x)
  {
    if |x.user.changes| > 0 then x.user.changes[0].id else 0
  }

  /** The error of a registration is still true: some row has the login and is deleted, or another password. */
  predicate RefusalStands(users: map<UserId, Row>, error: RegisterError, login: string, hash: string) {
    exists id :: id in users && users[id].login == login
                 && match error
                    case AlreadyDeleted => users[id].deletedAt.Some?
                    case AlreadyExists => users[id].passwordHash != hash
  }

  /** The row a deletion works on is the committed one, not deleted, but for the mark. */
  ghost predicate TxOk(users: map<UserId, Row>, nextEvent: nat, nextUser: nat, x: Tx) {
    && (HasRow(x) ==> x.user.id in users && users[x.user.id].deletedAt.None?)
    && (x.DeleteFound? ==> x.user.row == users[x.user.id] && x.user.changes == [])
    && (HasEvent(x) ==>
          && x.user.row.deletedAt.Some?
          && x.user.row == users[x.user.id].(deletedAt := x.user.row.deletedAt)
          && |x.user.changes| == 1 && x.user.changes[0].user == x.user.id && EventOf(x) < nextEvent)
    && ((x.DeleteIdle? || x.Deleted?) && x.found ==> x.id in users && users[x.id].deletedAt.Some?)
    && (x.RegisterAbsent? ==> !LoginTaken(users, x.login))
    && (x.RegisterStored? ==> x.id !in users && x.id < nextUser && !LoginTaken(users, x.login))
    && (x.RegisterKnown? || x.Registered? ==>
          && x.id in users && users[x.id].login == x.login && users[x.id].passwordHash == x.hash
          && x.seen == Row(x.login, x.hash, None))
    && (x.Refused? ==> RefusalStands(users, x.error, x.login, x.hash))
    && !x.LoginViolated?
  }

  ghost predicate Apart(x: Tx, y: Tx) {
    && !(LocksUsers(x) && LocksUsers(y))
    && (HasRow(x) ==> !LocksRow(y, x.user.id))
    && (HasRow(y) ==> !LocksRow(x, y.user.id))
    && (HasEvent(x) && HasEvent(y) ==> EventOf(x) != EventOf(y))
  }

  ghost predicate TxsOk(s: State) {
    forall i :: 0 <= i < |s.txs| ==> TxOk(s.users, s.nextEvent, s.nextUser, s.txs[i])
  }

  ghost predicate AllApart(s: State) {
    forall i, j :: 0 <= i < j < |s.txs| ==> Apart(s.txs[i], s.txs[j])
  }

  ghost predicate Unused(s: State, x: Tx) {
    HasEvent(x) ==> EventOf(x) !in s.events
  }

  ghost predicate Fresh(s: State) {
    && (forall id :: id in s.users ==> id < s.nextUser)
    && (forall e :: e in s.events ==> e < s.nextEvent)
    && (forall i :: 0 <= i < |s.txs| ==> Unused(s, s.txs[i]))
  }

  ghost predicate LoginsDiffer(users: map<UserId, Row>) {
    forall a, b :: a in users && b in users && users[a].login == users[b].login ==> a == b
  }

  ghost predicate Inv(s: State) {
    Matched(s.users, s.events) && TxsOk(s) && AllApart(s) && Fresh(s) && LoginsDiffer(s.users)
  }

  lemma InsideOk(s: State, i: nat, t: Step)
    requires i < |s.txs| && TxsOk(s) && Fresh(s)
    requires AllApart(s) && !t.Commit?
    ensures var s' := Next(s, t);
            !t.Delete? && !t.Register? && t.i == i ==>
                TxOk(s'.users, s'.nextEvent, s'.nextUser, s'.txs[i]) && Unused(s', s'.txs[i])
  {
    assert TxOk(s.users, s.nextEvent, s.nextUser, s.txs[i]) && Unused(s, s.txs[i]);
  }

  lemma InsideApart(s: State, i: nat, t: Step, j: nat)
    requires i < |s.txs| && j < |s.txs| && i != j && TxsOk(s) && AllApart(s)
    ensures Apart(Inside(s, i, t), s.txs[j]) && Apart(s.txs[j], Inside(s, i, t))
  {
    var x, y := s.txs[i], s.txs[j];
    assert Apart(x, y) && Apart(y, x) by { assert if i < j then Apart(x, y) else Apart(y, x); }
    assert TxOk(s.users, s.nextEvent, s.nextUser, x) && TxOk(s.users, s.nextEvent, s.nextUser, y);
  }

  /** A step inside a transaction. */
  lemma InsideKeepsInv(s: State, t: Step)
    requires Inv(s) && !t.Delete? && !t.Register? && !t.Commit? && t.i < |s.txs|
    ensures Inv(Next(s, t))
  {
    var s' := Next(s, t);
    InsideOk(s, t.i, t);
    forall j | 0 <= j < |s.txs| ensures TxOk(s'.users, s'.nextEvent, s'.nextUser, s'.txs[j]) && Unused(s', s'.txs[j]) {
      assert TxOk(s.users, s.nextEvent, s.nextUser, s.txs[j]) && Unused(s, s.txs[j]);
    }
    forall a, b | 0 <= a < b < |s.txs| ensures Apart(s'.txs[a], s'.txs[b]) {
      assert Apart(s.txs[a], s.txs[b]);
      if a == t.i { InsideApart(s, a, t, b); } else if b == t.i { InsideApart(s, b, t, a); }
    }
  }

  lemma BeginKeepsInv(s: State, t: Step)
    requires Inv(s) && (t.Delete? || t.Register?)
    ensures Inv(Next(s, t))
  {
    var s' := Next(s, t);
    var n := |s.txs|;
    forall j | 0 <= j <= n ensures TxOk(s'.users, s'.nextEvent, s'.nextUser, s'.txs[j]) && Unused(s', s'.txs[j]) {
      if j < n { assert TxOk(s.users, s.nextEvent, s.nextUser, s.txs[j]) && Unused(s, s.txs[j]); }
    }
    forall a, b | 0 <= a < b <= n ensures Apart(s'.txs[a], s'.txs[b]) {
      if b < n { assert Apart(s.txs[a], s.txs[b]); }
    }
  }

  // ---- commits

  lemma StoresOne(events: map<EventId, UserId>, es: seq<Event>)
    requires |es| == 1 && es[0].id !in events
    ensures StoreEvents(events, es) == events[es[0].id := es[0].user]
  {
    assert StoreEvents(StoreEvent(events, es[0]), es[1..]) == StoreEvent(events, es[0]);
  }

  lemma MatchedAfterDelete(users: map<UserId, Row>, events: map<EventId, UserId>, id: UserId, row: Row, e: EventId)
    requires Matched(users, events) && id in users && users[id].deletedAt.None? && row.deletedAt.Some? && e !in events
    ensures Matched(users[id := row], events[e := id])
  {
    var users', events' := users[id := row], events[e := id];
    forall k | k in users' && users'[k].deletedAt.Some? ensures exists f: EventId :: IsEventOf(events', f, k) {
      if k == id {
        assert IsEventOf(events', e, k);
      } else {
        var f: EventId :| IsEventOf(events, f, k);
        assert IsEventOf(events', f, k);
      }
    }
  }

  lemma MatchedAfterRegister(users: map<UserId, Row>, events: map<EventId, UserId>, id: UserId, row: Row)
    requires Matched(users, events) && id !in users && row.deletedAt.None?
    ensures Matched(users[id := row], events)
  {
  }

  lemma LoginsAfterDelete(users: map<UserId, Row>, id: UserId, row: Row, login: string)
    requires id in users && row.login == users[id].login
    ensures LoginTaken(users[id := row], login) <==> LoginTaken(users, login)
  {
    var users' := users[id := row];
    if LoginTaken(users, login) {
      var k :| k in users && users[k].login == login;
      assert k in users' && users'[k].login == login;
    }
    if LoginTaken(users', login) {
      var k :| k in users' && users'[k].login == login;
      assert k in users && users[k].login == login;
    }
  }

  lemma RefusalStays(users: map<UserId, Row>, id: UserId, row: Row, error: RegisterError, login: string, hash: string)
    requires RefusalStands(users, error, login, hash)
    requires id in users ==> users[id].deletedAt.None? && row == users[id].(deletedAt := row.deletedAt)
    ensures RefusalStands(users[id := row], error, login, hash)
  {
    var k :| k in users && users[k].login == login
             && match error
                case AlreadyDeleted => users[k].deletedAt.Some?
                case AlreadyExists => users[k].passwordHash != hash;
    assert k in users[id := row] && users[id := row][k].login == login;
  }

  /** What committing x does to another transaction y. */
  lemma OtherTxOk(s: State, x: Tx, y: Tx)
    requires TxOk(s.users, s.nextEvent, s.nextUser, x) && TxOk(s.users, s.nextEvent, s.nextUser, y) && Apart(x, y)
    ensures TxOk(CommittedUsers(s.users, x), s.nextEvent, s.nextUser, y)
  {
    if x.DeleteStored? && (y.RegisterAbsent? || y.RegisterStored?) {
      LoginsAfterDelete(s.users, x.user.id, x.user.row, y.login);
    }
    if y.Refused? {
      if x.DeleteStored? { RefusalStays(s.users, x.user.id, x.user.row, y.error, y.login, y.hash); }
      if x.RegisterStored? { RefusalStays(s.users, x.id, Row(x.login, x.hash, None), y.error, y.login, y.hash); }
    }
  }

  lemma TablesAfterCommit(s: State, x: Tx)
    requires Matched(s.users, s.events) && Fresh(s) && LoginsDiffer(s.users)
    requires TxOk(s.users, s.nextEvent, s.nextUser, x) && Unused(s, x)
    ensures var users, events := CommittedUsers(s.users, x), CommittedEvents(s.events, x);
            && Matched(users, events) && LoginsDiffer(users)
            && (forall id :: id in users ==> id < s.nextUser)
            && (forall e :: e in events ==> e < s.nextEvent)
            && (forall e :: e in events ==> e in s.events || (HasEvent(x) && e == EventOf(x)))
  {
    if x.DeleteStored? {
      StoresOne(s.events, x.user.changes);
      MatchedAfterDelete(s.users, s.events, x.user.id, x.user.row, EventOf(x));
    } else if x.RegisterStored? {
      MatchedAfterRegister(s.users, s.events, x.id, Row(x.login, x.hash, None));
    }
  }

  lemma ResultOk(s: State, x: Tx)
    requires TxOk(s.users, s.nextEvent, s.nextUser, x) && Result(x).Some?
    ensures TxOk(CommittedUsers(s.users, x), s.nextEvent, s.nextUser, Result(x).value)
  {
  }

  lemma CommitKeepsInv(s: State, i: nat)
    requires Inv(s) && i < |s.txs|
    ensures Inv(DoCommit(s, i))
  {
    var x := s.txs[i];
    if Result(x).Some? {
      var s' := DoCommit(s, i);
      assert TxOk(s.users, s.nextEvent, s.nextUser, x) && Unused(s, x);
      TablesAfterCommit(s, x);
      ResultOk(s, x);
      forall j | 0 <= j < |s.txs|
          ensures TxOk(s'.users, s'.nextEvent, s'.nextUser, s'.txs[j]) && Unused(s', s'.txs[j]) {
        if j != i { OtherAfterCommit(s, i, j); }
      }
      forall a, b | 0 <= a < b < |s.txs| ensures Apart(s'.txs[a], s'.txs[b]) {
        assert Apart(s.txs[a], s.txs[b]);
      }
    }
  }

  lemma OtherAfterCommit(s: State, i: nat, j: nat)
    requires TxsOk(s) && AllApart(s) && Fresh(s) && i < |s.txs| && j < |s.txs| && i != j
    requires forall e :: e in CommittedEvents(s.events, s.txs[i]) ==>
             e in s.events || (HasEvent(s.txs[i]) && e == EventOf(s.txs[i]))
    ensures TxOk(CommittedUsers(s.users, s.txs[i]), s.nextEvent, s.nextUser, s.txs[j])
    ensures HasEvent(s.txs[j]) ==> EventOf(s.txs[j]) !in CommittedEvents(s.events, s.txs[i])
  {
    var x, y := s.txs[i], s.txs[j];
    assert Apart(x, y) by { assert if i < j then Apart(x, y) else Apart(y, x); }
    assert TxOk(s.users, s.nextEvent, s.nextUser, x) && TxOk(s.users, s.nextEvent, s.nextUser, y);
    assert Unused(s, y);
    OtherTxOk(s, x, y);
  }

  lemma NextKeepsInv(s: State, t: Step)
    requires Inv(s)
    ensures Inv(Next(s, t))
  {
    if t.Delete? || t.Register? {
      BeginKeepsInv(s, t);
    } else if t.i < |s.txs| {
      if t.Commit? { CommitKeepsInv(s, t.i); } else { InsideKeepsInv(s, t); }
    }
  }

  lemma RunKeepsInv(steps: seq<Step>)
    ensures Inv(Run(Next, Init, steps))
  {
    forall s, t | Inv(s) ensures Inv(Next(s, t)) { NextKeepsInv(s, t); }
    InvariantHolds(Next, Inv, Init, steps);
  }

  // ------------------------------------------------------------------ results

  function EventsFor(s: State, id: UserId): set<EventId> {
    set e | e in s.events && s.events[e] == id
  }

  predicate IsDeleted(s: State, id: UserId) {
    id in s.users && s.users[id].deletedAt.Some?
  }

  /**
  In every interleaving a user is committed as deleted exactly when exactly one deletion event for it
  is, and otherwise there is none.
  */
  lemma DeletedIffOneEvent(steps: seq<Step>, id: UserId)
    ensures var s := Run(Next, Init, steps);
            && (IsDeleted(s, id) <==> |EventsFor(s, id)| == 1)
            && (!IsDeleted(s, id) <==> EventsFor(s, id) == {})
  {
    var s := Run(Next, Init, steps);
    RunKeepsInv(steps);
    if IsDeleted(s, id) {
      var e: EventId :| IsEventOf(s.events, e, id);
      forall f | f in EventsFor(s, id) ensures f == e { assert f in s.events && s.events[f] == s.events[e]; }
      assert EventsFor(s, id) == {e};
    } else {
      assert EventsFor(s, id) == {};
    }
  }

  /**
  Nothing that was committed goes away: rows keep login and password, a deletion mark keeps its time,
  events stay.
  */
  ghost predicate Keeps(s: State, s': State) {
    && (forall id :: id in s.users ==>
          && id in s'.users && s'.users[id].login == s.users[id].login &&
              s'.users[id].passwordHash == s.users[id].passwordHash
          && (s.users[id].deletedAt.Some? ==> s'.users[id] == s.users[id]))
    && (forall e :: e in s.events ==> e in s'.events && s'.events[e] == s.events[e])
  }

  lemma CommitKeeps(s: State, i: nat)
    requires TxsOk(s) && Fresh(s) && i < |s.txs|
    ensures Keeps(s, DoCommit(s, i))
  {
    var x := s.txs[i];
    assert TxOk(s.users, s.nextEvent, s.nextUser, x) && Unused(s, x);
    if x.DeleteStored? { StoresOne(s.events, x.user.changes); }
  }

  lemma NextKeeps(s: State, t: Step)
    requires Inv(s)
    ensures Keeps(s, Next(s, t))
  {
    if t.Commit? && t.i < |s.txs| {
      CommitKeeps(s, t.i);
    }
  }

  /** The mark of a deleted user is never cleared or changed, whatever runs before and after. */
  lemma MarkIsPermanent(before: seq<Step>, after: seq<Step>)
    ensures Keeps(Run(Next, Init, before), Run(Next, Init, before + after))
  {
    RunKeepsInv(before);
    RunConcat(Next, Init, before, after);
    forall s, t | Inv(s) ensures Inv(Next(s, t)) && Keeps(s, Next(s, t)) {
      NextKeepsInv(s, t);
      NextKeeps(s, t);
    }
    RelationHolds(Next, Inv, Keeps, Run(Next, Init, before), after);
  }

  /**
  What finished calls have said stays true. A deletion that returned nil after it found the user leaves
  it deleted. A registration that returned an id had the login and the password of that row, which was
  not deleted when it was read. One that was refused met a row of that login that is deleted, or has
  another password. And no registration ever hits the unique constraint.
  */
  lemma CallsTellTheTruth(steps: seq<Step>, i: nat)
    requires i < |Run(Next, Init, steps).txs|
    ensures var s := Run(Next, Init, steps);
            var x := s.txs[i];
            && (x.Deleted? && x.found ==> IsDeleted(s, x.id))
            && (x.Registered? ==>
                  && x.id in s.users && s.users[x.id].login == x.login && s.users[x.id].passwordHash == x.hash
                  && x.seen == Row(x.login, x.hash, None))
            && (x.Refused? ==> RefusalStands(s.users, x.error, x.login, x.hash))
            && !x.LoginViolated?
  {
    RunKeepsInv(steps);
    var s := Run(Next, Init, steps);
    assert TxOk(s.users, s.nextEvent, s.nextUser, s.txs[i]);
  }

  /** All registrations of a login that succeed return the same user, even when they run at once. */
  lemma OneUserPerLogin(steps: seq<Step>, i: nat, j: nat)
    requires var s := Run(Next, Init, steps);
             i < |s.txs| && j < |s.txs| && s.txs[i].Registered? && s.txs[j].Registered? &&
                 s.txs[i].login == s.txs[j].login
    ensures Run(Next, Init, steps).txs[i] == Run(Next, Init, steps).txs[j]
  {
    CallsTellTheTruth(steps, i);
    CallsTellTheTruth(steps, j);
    RunKeepsInv(steps);
  }

  /** The step is the next one of transaction i, not its rollback. */
  ghost predicate Moves(s: State, t: Step, i: nat) {
    && !t.Delete? && !t.Register? && !t.Rollback?
    && t.i == i && i < |s.txs| && i < |Next(s, t).txs| && Next(s, t).txs[i] != s.txs[i]
  }

  /** A transaction that waits for no lock can move. */
  lemma NotWaitingMoves(s: State, i: nat)
    requires i < |s.txs| && Running(s.txs[i])
    requires s.txs[i].DeleteBegun? ==> !RowLocked(s, s.txs[i].id)
    requires s.txs[i].RegisterBegun? ==> !UsersLocked(s)
    ensures exists t :: Moves(s, t, i)
  {
    var x := s.txs[i];
    if Result(x).Some? { assert Moves(s, Commit(i), i); }
    else if x.DeleteBegun? { assert Moves(s, FindForUpdate(i), i); }
    else if x.DeleteFound? { assert Moves(s, Mark(i, 0), i); }
    else if x.DeleteMarked? { assert Moves(s, Dispatch(i), i); }
    else if x.DeleteDispatched? { assert Moves(s, Upsert(i), i); }
    else if x.RegisterBegun? { assert Moves(s, Lock(i), i); }
    else if x.RegisterAbsent? { assert Moves(s, Insert(i), i); }
    else if LoginTaken(s.users, x.login) {
      var id :| id in s.users && s.users[id].login == x.login;
      assert Moves(s, FindByLogin(i, id), i);
    } else { assert Moves(s, FindByLogin(i, 0), i); }
  }

  /**
  While any call is unfinished, some transaction can move without one being rolled back: row locks and
  update_users never deadlock.
  */
  lemma NoDeadlock(s: State, i: nat)
    requires i < |s.txs| && Running(s.txs[i])
    ensures exists t, j :: Moves(s, t, j)
  {
    var x := s.txs[i];
    if x.DeleteBegun? && RowLocked(s, x.id) {
      var j :| 0 <= j < |s.txs| && LocksRow(s.txs[j], x.id);
      NotWaitingMoves(s, j);
    } else if x.RegisterBegun? && UsersLocked(s) {
      var j :| 0 <= j < |s.txs| && LocksUsers(s.txs[j]);
      NotWaitingMoves(s, j);
    } else {
      NotWaitingMoves(s, i);
    }
  }

  // ---- calls that nothing gets in the way of

  /** The state with one more transaction. */
  function With(s: State, x: Tx): State {
    s.(txs := s.txs + [x])
  }

  lemma StepOfLast(s: State, x: Tx, t: Step)
    requires !t.Delete? && !t.Register? && !t.Commit? && !t.Mark? && !t.Insert? && t.i == |s.txs|
    ensures Next(With(s, x), t) == With(s, Inside(With(s, x), |s.txs|, t))
  {
    assert With(s, x).txs[|s.txs| := Inside(With(s, x), |s.txs|, t)] == s.txs + [Inside(With(s, x), |s.txs|, t)];
  }

  lemma RunOne(s: State, t: Step, steps: seq<Step>)
    ensures Run(Next, s, [t] + steps) == Run(Next, Next(s, t), steps)
  {
    assert ([t] + steps)[1..] == steps;
  }

  lemma MarkOfLast(s: State, u: User, now: Time)
    ensures Next(With(s, DeleteFound(u)), Mark(|s.txs|, now))
         == With(s, DeleteMarked(SetDeletedAt(u, now, s.nextEvent))).(nextEvent := s.nextEvent + 1)
  {
    var y := DeleteMarked(SetDeletedAt(u, now, s.nextEvent));
    assert With(s, DeleteFound(u)).txs[|s.txs| := y] == s.txs + [y];
  }

  lemma FindOfLast(s: State, id: UserId)
    requires id in s.users && s.users[id].deletedAt.None? && !RowLocked(s, id)
    ensures Next(With(s, DeleteBegun(id)), FindForUpdate(|s.txs|)) == With(s, DeleteFound(User(id, s.users[id], [])))
  {
    StepOfLast(s, DeleteBegun(id), FindForUpdate(|s.txs|));
    var a := With(s, DeleteBegun(id));
    assert !RowLocked(a, id) by { assert forall j :: 0 <= j < |s.txs| ==> a.txs[j] == s.txs[j]; }
  }

  lemma CommitOfLast(s: State, u: User)
    requires |u.changes| == 1 && u.changes[0].id !in s.events
    ensures Next(With(s, DeleteStored(u)), Commit(|s.txs|))
         == With(s, Deleted(u.id, true)).(users := s.users[u.id := u.row],
             events := s.events[u.changes[0].id := u.changes[0].user])
  {
    StoresOne(s.events, u.changes);
    assert With(s, DeleteStored(u)).txs[|s.txs| := Deleted(u.id, true)] == s.txs + [Deleted(u.id, true)];
  }

  function DeleteSteps(n: nat, id: UserId, now: Time): seq<Step> {
    [Delete(id)] + ([FindForUpdate(n)] + ([Mark(n, now)] + ([Dispatch(n)] + ([Upsert(n)] + ([Commit(n)] + [])))))
  }

  /**
  A deletion of an existing user that nothing gets in the way of marks the row and stores the event,
  and nothing else.
  */
  lemma DeletionWorks(s: State, id: UserId, now: Time)
    requires id in s.users && s.users[id].deletedAt.None? && !RowLocked(s, id) && s.nextEvent !in s.events
    ensures Run(Next, s, DeleteSteps(|s.txs|, id, now))
         == s.(users := s.users[id := s.users[id].(deletedAt := Some(now))], events := s.events[s.nextEvent := id],
               txs := s.txs + [Deleted(id, true)], nextEvent := s.nextEvent + 1)
  {
    var n := |s.txs|;
    var u := User(id, s.users[id], []);
    var v := SetDeletedAt(u, now, s.nextEvent);
    var s1 := s.(nextEvent := s.nextEvent + 1);
    var last := [Dispatch(n)] + ([Upsert(n)] + ([Commit(n)] + []));
    RunOne(s, Delete(id), [FindForUpdate(n)] + ([Mark(n, now)] + last));
    RunOne(With(s, DeleteBegun(id)), FindForUpdate(n), [Mark(n, now)] + last);
    FindOfLast(s, id);
    RunOne(With(s, DeleteFound(u)), Mark(n, now), last);
    MarkOfLast(s, u, now);
    assert v.changes == [UserDeleted(s.nextEvent, id)];
    StoringWorks(s1, v);
  }

  lemma StoringWorks(s: State, u: User)
    requires |u.changes| == 1 && u.changes[0].id !in s.events
    ensures var n := |s.txs|;
            Run(Next, With(s, DeleteMarked(u)), [Dispatch(n)] + ([Upsert(n)] + ([Commit(n)] + [])))
            == With(s, Deleted(u.id, true)).(users := s.users[u.id := u.row],
                events := s.events[u.changes[0].id := u.changes[0].user])
  {
    var n := |s.txs|;
    RunOne(With(s, DeleteMarked(u)), Dispatch(n), [Upsert(n)] + ([Commit(n)] + []));
    StepOfLast(s, DeleteMarked(u), Dispatch(n));
    RunOne(With(s, DeleteDispatched(u)), Upsert(n), [Commit(n)] + []);
    StepOfLast(s, DeleteDispatched(u), Upsert(n));
    RunOne(With(s, DeleteStored(u)), Commit(n), []);
    CommitOfLast(s, u);
  }

  function RegisterSteps(n: nat, login: string, hash: string): seq<Step> {
    [Register(login, hash)] + ([Lock(n)] + ([FindByLogin(n, 0)] + ([Insert(n)] + ([Commit(n)] + []))))
  }

  /** A registration of a new login that nothing gets in the way of adds one row, not deleted. */
  lemma RegistrationWorks(s: State, login: string, hash: string)
    requires !UsersLocked(s) && !LoginTaken(s.users, login)
    ensures Run(Next, s, RegisterSteps(|s.txs|, login, hash))
         == s.(users := s.users[s.nextUser := Row(login, hash, None)],
               txs := s.txs + [Registered(s.nextUser, login, hash, Row(login, hash, None))],
               nextUser := s.nextUser + 1)
  {
    var n := |s.txs|;
    var last := [Insert(n)] + ([Commit(n)] + []);
    RunOne(s, Register(login, hash), [Lock(n)] + ([FindByLogin(n, 0)] + last));
    RunOne(With(s, RegisterBegun(login, hash)), Lock(n), [FindByLogin(n, 0)] + last);
    BeginOfLast(s, login, hash);
    LockOfLast(s, login, hash);
    RunOne(With(s, RegisterLocked(login, hash)), FindByLogin(n, 0), last);
    NotFoundOfLast(s, login, hash);
    InsertingWorks(s, login, hash);
  }

  lemma NotFoundOfLast(s: State, login: string, hash: string)
    requires !LoginTaken(s.users, login)
    ensures Next(With(s, RegisterLocked(login, hash)), FindByLogin(|s.txs|, 0)) == With(s, RegisterAbsent(login, hash))
  {
    StepOfLast(s, RegisterLocked(login, hash), FindByLogin(|s.txs|, 0));
  }

  lemma BeginOfLast(s: State, login: string, hash: string)
    ensures Next(s, Register(login, hash)) == With(s, RegisterBegun(login, hash))
  {
  }

  lemma LockOfLast(s: State, login: string, hash: string)
    requires !UsersLocked(s)
    ensures Next(With(s, RegisterBegun(login, hash)), Lock(|s.txs|)) == With(s, RegisterLocked(login, hash))
  {
    StepOfLast(s, RegisterBegun(login, hash), Lock(|s.txs|));
    var a := With(s, RegisterBegun(login, hash));
    assert !UsersLocked(a) by { assert forall j :: 0 <= j < |s.txs| ==> a.txs[j] == s.txs[j]; }
  }

  lemma InsertingWorks(s: State, login: string, hash: string)
    requires !LoginTaken(s.users, login)
    ensures var n := |s.txs|;
            Run(Next, With(s, RegisterAbsent(login, hash)), [Insert(n)] + ([Commit(n)] + []))
            == s.(users := s.users[s.nextUser := Row(login, hash, None)],
                txs := s.txs + [Registered(s.nextUser, login, hash, Row(login, hash, None))],
                  nextUser := s.nextUser + 1)
  {
    var n := |s.txs|;
    var a := With(s, RegisterAbsent(login, hash));
    var y := RegisterStored(s.nextUser, login, hash);
    RunOne(a, Insert(n), [Commit(n)] + []);
    assert a.txs[n := y] == s.txs + [y];
    var b := With(s, y).(nextUser := s.nextUser + 1);
    assert Next(a, Insert(n)) == b;
    RunOne(b, Commit(n), []);
    assert b.txs[n := Registered(s.nextUser, login, hash, Row(login, hash, None))]
           == s.txs + [Registered(s.nextUser, login, hash, Row(login, hash, None))];
  }

  // ---- calls that find something else

  function ExistingSteps(n: nat, login: string, hash: string, id: UserId): seq<Step> {
    [Register(login, hash)] + ([Lock(n)] + ([FindByLogin(n, id)] + ([Commit(n)] + [])))
  }

  /**
  A registration of a login that exists, and that nothing gets in the way of, changes no table. It returns
  the id of that user if and only if the row is not deleted and has the same password; a deleted user is
  reported as deleted, and another password as a login in use.
  */
  lemma ExistingLoginAnswers(s: State, login: string, hash: string, id: UserId)
    requires !UsersLocked(s) && id in s.users && s.users[id].login == login
    ensures var s' := Run(Next, s, ExistingSteps(|s.txs|, login, hash, id));
            && |s'.txs| == |s.txs| + 1 && s' == s.(txs := s.txs + [s'.txs[|s.txs|]])
            && var x := s'.txs[|s.txs|];
            && (x == Registered(id, login, hash, s.users[id])
                <==> s.users[id].deletedAt.None? && s.users[id].passwordHash == hash)
            && (x == Refused(AlreadyDeleted, login, hash) <==> s.users[id].deletedAt.Some?)
            && (x == Refused(AlreadyExists, login, hash)
                <==> s.users[id].deletedAt.None? && s.users[id].passwordHash != hash)
  {
    var n := |s.txs|;
    RunOne(s, Register(login, hash), [Lock(n)] + ([FindByLogin(n, id)] + ([Commit(n)] + [])));
    BeginOfLast(s, login, hash);
    RunOne(With(s, RegisterBegun(login, hash)), Lock(n), [FindByLogin(n, id)] + ([Commit(n)] + []));
    LockOfLast(s, login, hash);
    RunOne(With(s, RegisterLocked(login, hash)), FindByLogin(n, id), [Commit(n)] + []);
    ExistingOfLast(s, login, hash, id);
    var y := FoundByLogin(RegisterLocked(login, hash), id, s.users[id]);
    RunOne(With(s, y), Commit(n), []);
    AnswerOfLast(s, y);
  }

  lemma ExistingOfLast(s: State, login: string, hash: string, id: UserId)
    requires id in s.users && s.users[id].login == login
    ensures Next(With(s, RegisterLocked(login, hash)), FindByLogin(|s.txs|, id))
            == With(s, FoundByLogin(RegisterLocked(login, hash), id, s.users[id]))
  {
    assert LoginTaken(s.users, login);
    StepOfLast(s, RegisterLocked(login, hash), FindByLogin(|s.txs|, id));
  }

  lemma AnswerOfLast(s: State, y: Tx)
    requires y.RegisterKnown? || y.Refused?
    ensures Next(With(s, y), Commit(|s.txs|)) == With(s, if y.Refused? then y else Result(y).value)
  {
    if y.RegisterKnown? {
      assert With(s, y).txs[|s.txs| := Result(y).value] == s.txs + [Result(y).value];
    }
  }

  /** A deletion that finds no such user, or one that is deleted, returns nil and changes no table. */
  lemma DeletionOfNothing(s: State, id: UserId)
    requires !RowLocked(s, id) && (id in s.users ==> s.users[id].deletedAt.Some?)
    ensures Run(Next, s, [Delete(id)] + ([FindForUpdate(|s.txs|)] + ([Commit(|s.txs|)] + [])))
            == With(s, Deleted(id, id in s.users))
  {
    var n := |s.txs|;
    RunOne(s, Delete(id), [FindForUpdate(n)] + ([Commit(n)] + []));
    RunOne(With(s, DeleteBegun(id)), FindForUpdate(n), [Commit(n)] + []);
    NothingOfLast(s, id);
    RunOne(With(s, DeleteIdle(id, id in s.users)), Commit(n), []);
    IdleOfLast(s, id, id in s.users);
  }

  lemma NothingOfLast(s: State, id: UserId)
    requires !RowLocked(s, id) && (id in s.users ==> s.users[id].deletedAt.Some?)
    ensures Next(With(s, DeleteBegun(id)), FindForUpdate(|s.txs|)) == With(s, DeleteIdle(id, id in s.users))
  {
    StepOfLast(s, DeleteBegun(id), FindForUpdate(|s.txs|));
    var a := With(s, DeleteBegun(id));
    assert !RowLocked(a, id) by { assert forall j :: 0 <= j < |s.txs| ==> a.txs[j] == s.txs[j]; }
  }

  lemma IdleOfLast(s: State, id: UserId, found: bool)
    ensures Next(With(s, DeleteIdle(id, found)), Commit(|s.txs|)) == With(s, Deleted(id, found))
  {
    assert With(s, DeleteIdle(id, found)).txs[|s.txs| := Deleted(id, found)] == s.txs + [Deleted(id, found)];
  }
}
