/**
Transaction-level advisory locks: a transaction sorts the locks of a call by key and acquires them
one by one, waiting in the database's queue where a lock conflicts with one that is held or that an
earlier request waits for, and releases all of them when it ends. A lock the transaction already has,
in that mode or exclusively, is granted at once. The sort is not stable, so the machine takes the
locks of each call in any order the sort may leave.
*/
module AdvisoryLocks {
  import opened Runs
  import opened StringOrder

  datatype Lock = Lock(key: string, shared: bool)

  ghost predicate Ascending(locks: seq<Lock>) {
    forall i, j :: 0 <= i < j < |locks| ==> !Less(locks[j].key, locks[i].key)
  }

  /** No key is acquired shared and later exclusive. */
  ghost predicate NoUpgrade(locks: seq<Lock>) {
    forall i, j :: 0 <= i < j < |locks| && locks[i].key == locks[j].key && locks[i].shared ==> locks[j].shared
  }

  /** No lock id is acquired shared and later exclusive. */
  ghost predicate NoIdUpgrade(id: string -> int, locks: seq<Lock>) {
    forall i, j :: 0 <= i < j < |locks| && id(locks[i].key) == id(locks[j].key) && locks[i].shared ==> locks[j].shared
  }

  ghost predicate KeysIn(locks: seq<Lock>, keys: set<string>) {
    forall i :: 0 <= i < |locks| ==> locks[i].key in keys
  }

  /** No key is named in both modes. */
  ghost predicate OneModePerKey(locks: seq<Lock>) {
    forall x, y :: x in locks && y in locks && x.key == y.key ==> x.shared == y.shared
  }

  /** What the sort may make of the locks of a call. */
  ghost predicate IsOrderOf(order: seq<Lock>, call: seq<Lock>) {
    Ascending(order) && multiset(order) == multiset(call)
  }

  function Insert(locks: seq<Lock>, x: Lock): seq<Lock> {
    if locks == [] || !Less(x.key, locks[|locks| - 1].key) then locks + [x]
    else Insert(locks[..|locks| - 1], x) + [locks[|locks| - 1]]
  }

  /** One order of the locks, the one a stable sort gives. */
  function Sort(locks: seq<Lock>): seq<Lock> {
    if locks == [] then [] else Insert(Sort(locks[..|locks| - 1]), locks[|locks| - 1])
  }

  lemma {:induction false} InsertKeeps(locks: seq<Lock>, x: Lock)
    ensures multiset(Insert(locks, x)) == multiset(locks + [x])
    decreases |locks|
  {
    if locks != [] && Less(x.key, locks[|locks| - 1].key) {
      InsertKeeps(locks[..|locks| - 1], x);
      assert locks == locks[..|locks| - 1] + [locks[|locks| - 1]];
    }
  }

  lemma {:induction false} InsertSorts(locks: seq<Lock>, x: Lock)
    requires Ascending(locks)
    ensures IsOrderOf(Insert(locks, x), locks + [x])
    decreases |locks|
  {
    InsertKeeps(locks, x);
    if locks != [] {
      var n := |locks| - 1;
      if Less(x.key, locks[n].key) {
        InsertSorts(locks[..n], x);
        SameElements(Insert(locks[..n], x), locks[..n] + [x]);
        NotBoth(x.key, locks[n].key);
      } else {
        forall i | 0 <= i < |locks| ensures !Less(x.key, locks[i].key) {
          if i < n { NotLess(locks[i].key, locks[n].key, x.key); }
        }
      }
    }
  }

  /** Sorting any locks, repeated keys included, is a permutation in ascending order of keys. */
  lemma {:induction false} SortSorts(locks: seq<Lock>)
    ensures IsOrderOf(Sort(locks), locks)
    decreases |locks|
  {
    if locks != [] {
      var n := |locks| - 1;
      SortSorts(locks[..n]);
      InsertSorts(Sort(locks[..n]), locks[n]);
      assert locks == locks[..n] + [locks[n]];
    }
  }

  /** In no order of a call that names each key in one mode is a lock upgraded. */
  lemma OneModeMeansNoUpgrade(order: seq<Lock>, call: seq<Lock>)
    requires IsOrderOf(order, call) && OneModePerKey(call)
    ensures NoUpgrade(order)
  {
    SameElements(order, call);
  }

  // ------------------------------------------------------------------ the machine

  datatype Phase =
    | Acquiring           // between two lock requests
    | Queued(since: nat)  // has requested locks[got]
    | Running
    | Ended

  datatype Tx = Tx(locks: seq<Lock>, got: nat, phase: Phase)

  datatype State = State(txs: seq<Tx>, requests: nat)

  datatype Step =
    | Request(t: nat)
    | Grant(t: nat)
    | Begin(t: nat)   // all locks acquired: run the function
    | End(t: nat)     // commit or roll back
    | Fail(t: nat)    // an acquisition is cancelled or fails: roll back

  /** One transaction for every order of locks. */
  function Init(orders: seq<seq<Lock>>): State {
    State(seq(|orders|, i requires 0 <= i < |orders| => Tx(orders[i], 0, Acquiring)), 0)
  }

  predicate Conflict(id: string -> int, a: Lock, b: Lock) {
    id(a.key) == id(b.key) && !(a.shared && b.shared)
  }

  predicate Holds(id: string -> int, x: Tx, l: Lock) {
    !x.phase.Ended? && exists j :: 0 <= j < x.got && j < |x.locks| && Conflict(id, x.locks[j], l)
  }

  predicate WaitsEarlier(id: string -> int, x: Tx, l: Lock, since: nat) {
    x.phase.Queued? && x.phase.since < since && x.got < |x.locks| && Conflict(id, x.locks[x.got], l)
  }

  /** The transaction has the lock already, in this mode or exclusively. */
  predicate Owns(id: string -> int, x: Tx, l: Lock) {
    exists j :: 0 <= j < x.got && j < |x.locks| && id(x.locks[j].key) == id(l.key) && (!x.locks[j].shared || l.shared)
  }

  /** Transaction x, at its next lock, has to wait for y. */
  predicate WaitsFor(id: string -> int, x: Tx, y: Tx)
    requires x.phase.Queued? && x.got < |x.locks|
  {
    Holds(id, y, x.locks[x.got])
    || (WaitsEarlier(id, y, x.locks[x.got], x.phase.since) && !Holds(id, x, y.locks[y.got]))
  }

  predicate Blocked(id: string -> int, s: State, t: nat)
    requires t < |s.txs| && s.txs[t].phase.Queued? && s.txs[t].got < |s.txs[t].locks|
  {
    var x := s.txs[t];
    !Owns(id, x, x.locks[x.got]) && exists u :: 0 <= u < |s.txs| && u != t && WaitsFor(id, x, s.txs[u])
  }

  function Put(s: State, t: nat, x: Tx): State
    requires t < |s.txs|
  {
    s.(txs := s.txs[t := x])
  }

  function Next(id: string -> int, s: State, t: Step): State {
    if t.t >= |s.txs| then s
    else
      var x := s.txs[t.t];
      match t
      case Request(i) =>
        if x.phase.Acquiring? && x.got < |x.locks|
        then Put(s, i, x.(phase := Queued(s.requests))).(requests := s.requests + 1) else s
      case Grant(i) =>
        if x.phase.Queued? && x.got < |x.locks| && !Blocked(id, s, i)
        then Put(s, i, x.(phase := Acquiring, got := x.got + 1)) else s
      case Begin(i) => if x.phase.Acquiring? && x.got == |x.locks| then Put(s, i, x.(phase := Running)) else s
      case End(i) => if x.phase.Running? then Put(s, i, x.(phase := Ended)) else s
      case Fail(i) => if x.phase.Acquiring? || x.phase.Queued? then Put(s, i, x.(phase := Ended)) else s
  }

  // ------------------------------------------------------------------ what every step keeps

  ghost predicate TxOk(id: string -> int, keys: set<string>, x: Tx, requests: nat) {
    && Ascending(x.locks) && NoIdUpgrade(id, x.locks) && KeysIn(x.locks, keys)
    && x.got <= |x.locks|
    && (x.phase.Queued? ==> x.got < |x.locks| && x.phase.since < requests)
  }

  ghost predicate Inv(id: string -> int, keys: set<string>, s: State) {
    && (forall t :: 0 <= t < |s.txs| ==> TxOk(id, keys, s.txs[t], s.requests))
    && (forall t, u :: 0 <= t < u < |s.txs| && s.txs[t].phase.Queued? && s.txs[u].phase.Queued? ==>
          s.txs[t].phase.since != s.txs[u].phase.since)
  }

  lemma NextKeepsInv(id: string -> int, keys: set<string>, s: State, t: Step)
    requires Inv(id, keys, s)
    ensures Inv(id, keys, Next(id, s, t))
  {
  }

  // ------------------------------------------------------------------ exclusion

  /** No lock that y holds conflicts with one that x holds. */
  ghost predicate Compatible(id: string -> int, x: Tx, y: Tx) {
    !x.phase.Ended? && !y.phase.Ended? ==>
      forall i, j :: 0 <= i < x.got && i < |x.locks| && 0 <= j < y.got && j < |y.locks| ==>
          !Conflict(id, x.locks[i], y.locks[j])
  }

  ghost predicate AllCompatible(id: string -> int, s: State) {
    forall t, u :: 0 <= t < |s.txs| && 0 <= u < |s.txs| && t != u ==> Compatible(id, s.txs[t], s.txs[u])
  }

  lemma GrantIsCompatible(id: string -> int, s: State, t: nat, u: nat)
    requires t < |s.txs| && u < |s.txs| && t != u && Compatible(id, s.txs[t], s.txs[u])
    requires s.txs[t].phase.Queued? && s.txs[t].got < |s.txs[t].locks| && !Blocked(id, s, t)
    ensures Compatible(id, s.txs[t].(phase := Acquiring, got := s.txs[t].got + 1), s.txs[u])
    ensures Compatible(id, s.txs[u], s.txs[t].(phase := Acquiring, got := s.txs[t].got + 1))
  {
    var x := s.txs[t];
    if Owns(id, x, x.locks[x.got]) {
      var j :| 0 <= j < x.got && j < |x.locks| && id(x.locks[j].key) == id(x.locks[x.got].key) &&
          (!x.locks[j].shared || x.locks[x.got].shared);
    } else {
      assert !WaitsFor(id, x, s.txs[u]);
      assert !Holds(id, s.txs[u], x.locks[x.got]);
    }
  }

  lemma NextKeepsCompatible(id: string -> int, s: State, t: Step)
    requires AllCompatible(id, s)
    ensures AllCompatible(id, Next(id, s, t))
  {
    var s' := Next(id, s, t);
    forall a, b | 0 <= a < |s.txs| && 0 <= b < |s.txs| && a != b ensures Compatible(id, s'.txs[a], s'.txs[b]) {
      assert Compatible(id, s.txs[a], s.txs[b]) && Compatible(id, s.txs[b], s.txs[a]);
      if t.Grant? && t.t < |s.txs| && s'.txs[t.t].got != s.txs[t.t].got {
        if a == t.t { GrantIsCompatible(id, s, a, b); } else if b == t.t { GrantIsCompatible(id, s, b, a); }
      }
    }
  }

  /** In every run, for every lock ids, no two transactions hold conflicting locks at once. */
  lemma LocksExclude(id: string -> int, orders: seq<seq<Lock>>, steps: seq<Step>)
    ensures AllCompatible(id, Run((s, t) => Next(id, s, t), Init(orders), steps))
  {
    var next := (s, t) => Next(id, s, t);
    var inv := (s: State) => AllCompatible(id, s);
    forall s, t | inv(s) ensures inv(next(s, t)) { NextKeepsCompatible(id, s, t); }
    InvariantHolds(next, inv, Init(orders), steps);
  }

  /** A transaction keeps its place in its list of locks until it ends, and runs its function at the end of the list. */
  ghost predicate PlacesOk(orders: seq<seq<Lock>>, s: State) {
    && |s.txs| == |orders|
    && forall t :: 0 <= t < |s.txs| ==>
         && s.txs[t].locks == orders[t] && s.txs[t].got <= |orders[t]|
         && (s.txs[t].phase.Running? ==> s.txs[t].got == |orders[t]|)
  }

  ghost predicate LocksConflict(id: string -> int, a: seq<Lock>, b: seq<Lock>) {
    exists i, j :: 0 <= i < |a| && 0 <= j < |b| && Conflict(id, a[i], b[j])
  }

  /** In every run, the functions of two transactions that name conflicting locks never run at once. */
  lemma FunctionsExclude(id: string -> int, orders: seq<seq<Lock>>, steps: seq<Step>, t: nat, u: nat)
    requires t < |orders| && u < |orders| && t != u && LocksConflict(id, orders[t], orders[u])
    ensures var s := Run((s, t) => Next(id, s, t), Init(orders), steps);
            |s.txs| == |orders| && !(s.txs[t].phase.Running? && s.txs[u].phase.Running?)
  {
    var next := (s, t) => Next(id, s, t);
    var inv := (s: State) => PlacesOk(orders, s);
    InvariantHolds(next, inv, Init(orders), steps);
    LocksExclude(id, orders, steps);
    var s := Run(next, Init(orders), steps);
    assert Compatible(id, s.txs[t], s.txs[u]);
  }

  /**
  x waits for a lock it does not have, and y has waited longer, for a lock that conflicts and that x
  does not hold back.
  */
  predicate IsBehind(id: string -> int, x: Tx, y: Tx) {
    && Waits(id, x) && y.phase.Queued? && y.got < |y.locks|
    && WaitsEarlier(id, y, x.locks[x.got], x.phase.since) && !Holds(id, x, y.locks[y.got])
  }

  /** y is where it was and x has not got further, or y has moved on. */
  ghost predicate StillBehind(s: State, t: nat, x: Tx, u: nat, y: Tx) {
    && t < |s.txs| && u < |s.txs|
    && (s.txs[u].phase.Ended? || s.txs[u].got > y.got ||
        (s.txs[u] == y && (s.txs[t] == x || s.txs[t].phase.Ended?)))
  }

  lemma StillBehindStays(id: string -> int, s: State, step: Step, t: nat, x: Tx, u: nat, y: Tx)
    requires t != u && IsBehind(id, x, y) && StillBehind(s, t, x, u, y)
    ensures StillBehind(Next(id, s, step), t, x, u, y)
  {
    if s.txs[u] == y && s.txs[t] == x && step == Grant(t) {
      assert WaitsFor(id, x, s.txs[u]);
      assert Blocked(id, s, t);
    }
  }

  /**
  First come, first served: in every run, as long as a transaction that has waited longer for a conflicting lock
  is still waiting for it, a transaction behind it is not granted its lock.
  */
  lemma NoOvertaking(id: string -> int, orders: seq<seq<Lock>>, before: seq<Step>, after: seq<Step>, t: nat, u: nat)
    requires var s := Run((s, t) => Next(id, s, t), Init(orders), before);
             t < |s.txs| && u < |s.txs| && t != u && IsBehind(id, s.txs[t], s.txs[u])
    ensures var s := Run((s, t) => Next(id, s, t), Init(orders), before);
            var s' := Run((s, t) => Next(id, s, t), Init(orders), before + after);
            && t < |s'.txs| && u < |s'.txs|
            && (s'.txs[u] == s.txs[u] ==> s'.txs[t] == s.txs[t] || s'.txs[t].phase.Ended?)
  {
    var next := (s, t) => Next(id, s, t);
    var s := Run(next, Init(orders), before);
    var x, y := s.txs[t], s.txs[u];
    var inv := (s: State) => StillBehind(s, t, x, u, y);
    forall s, step | inv(s) ensures inv(next(s, step)) { StillBehindStays(id, s, step, t, x, u, y); }
    InvariantHolds(next, inv, s, after);
    RunConcat(next, Init(orders), before, after);
  }

  // ------------------------------------------------------------------ no deadlock

  ghost predicate Injective(id: string -> int, keys: set<string>) {
    forall a, c :: a in keys && c in keys && id(a) == id(c) ==> a == c
  }

  /** Keys with the same lock id have no key with another id between them. */
  ghost predicate Convex(id: string -> int, keys: set<string>) {
    forall a, b, c :: a in keys && b in keys && c in keys && Less(a, b) && Less(b, c) && id(a) == id(c) ==>
        id(b) == id(a)
  }

  lemma InjectiveIsConvex(id: string -> int, keys: set<string>)
    requires Injective(id, keys)
    ensures Convex(id, keys)
  {
    forall a, b, c | a in keys && b in keys && c in keys && Less(a, b) && Less(b, c) ensures id(a) != id(c) {
      NotBoth(a, b);
    }
  }

  /** The order of lock ids that the order of keys induces. */
  ghost predicate Before(id: string -> int, a: string, b: string) {
    Less(a, b) && id(a) != id(b)
  }

  lemma BeforeIsTransitive(id: string -> int, keys: set<string>, a: string, b: string, c: string)
    requires Convex(id, keys) && a in keys && b in keys && c in keys
    requires Before(id, a, b) || id(a) == id(b)
    requires Before(id, b, c) || id(b) == id(c)
    ensures Before(id, a, c) || id(a) == id(c)
    ensures Before(id, a, b) || Before(id, b, c) ==> id(a) != id(c)
  {
    LessTotal(a, c);
    LessTotal(a, b);
    LessTotal(b, c);
    if Less(a, b) && Less(b, c) { LessTransitive(a, b, c); }
    if Before(id, a, b) && Before(id, b, c) { assert id(a) == id(c) ==> id(b) == id(a); }
  }

  /** The transaction waits for a lock it does not have. */
  predicate Waits(id: string -> int, x: Tx) {
    x.phase.Queued? && x.got < |x.locks| && !Owns(id, x, x.locks[x.got])
  }

  /** Transaction u waits for a later lock id than t, or for the same one since earlier. */
  ghost predicate Ahead(id: string -> int, s: State, u: nat, t: nat)
    requires t < |s.txs| && u < |s.txs| && Waits(id, s.txs[t]) && Waits(id, s.txs[u])
  {
    var x, y := s.txs[t], s.txs[u];
    var k, l := x.locks[x.got].key, y.locks[y.got].key;
    Before(id, k, l) || (id(k) == id(l) && y.phase.since < x.phase.since)
  }

  /**
  Who holds a lock that conflicts, and waits itself, waits for a later lock id: for the same one it
  would be an upgrade.
  */
  lemma HolderIsAhead(id: string -> int, keys: set<string>, x: Tx, y: Tx, requests: nat)
    requires Convex(id, keys) && TxOk(id, keys, x, requests) && TxOk(id, keys, y, requests)
    requires Waits(id, x) && Waits(id, y) && Holds(id, y, x.locks[x.got])
    ensures Before(id, x.locks[x.got].key, y.locks[y.got].key)
  {
    var j :| 0 <= j < y.got && j < |y.locks| && Conflict(id, y.locks[j], x.locks[x.got]);
    var held, next := y.locks[j].key, y.locks[y.got].key;
    assert id(held) != id(next);
    LessTotal(held, next);
    BeforeIsTransitive(id, keys, x.locks[x.got].key, held, next);
  }

  /** Whoever is blocked is blocked by a transaction that has not ended and, if it waits itself, is ahead. */
  lemma BlockerIsAhead(id: string -> int, keys: set<string>, s: State, t: nat) returns (u: nat)
    requires Inv(id, keys, s) && Convex(id, keys) && t < |s.txs| && Waits(id, s.txs[t]) && Blocked(id, s, t)
    ensures u < |s.txs| && u != t && !s.txs[u].phase.Ended?
    ensures Waits(id, s.txs[u]) ==> Ahead(id, s, u, t)
  {
    var x := s.txs[t];
    u :| 0 <= u < |s.txs| && u != t && WaitsFor(id, x, s.txs[u]);
    if Waits(id, s.txs[u]) && Holds(id, s.txs[u], x.locks[x.got]) {
      HolderIsAhead(id, keys, x, s.txs[u], s.requests);
    }
  }

  /** Among waiting transactions there is one that no other is ahead of. */
  lemma Foremost(id: string -> int, keys: set<string>, s: State, n: nat, first: nat) returns (t: nat)
    requires Inv(id, keys, s) && Convex(id, keys) && first < n <= |s.txs| && Waits(id, s.txs[first])
    ensures t < n && Waits(id, s.txs[t])
    ensures forall u :: 0 <= u < n && Waits(id, s.txs[u]) ==> !Ahead(id, s, u, t)
  {
    t := first;
    for i := 0 to n
      invariant t < n && Waits(id, s.txs[t])
      invariant forall u :: 0 <= u < i && Waits(id, s.txs[u]) ==> !Ahead(id, s, u, t)
    {
      if Waits(id, s.txs[i]) && Ahead(id, s, i, t) {
        forall u | 0 <= u <= i && Waits(id, s.txs[u]) ensures !Ahead(id, s, u, i) {
          if u < i && Ahead(id, s, u, i) { AheadIsTransitive(id, keys, s, u, i, t); }
        }
        t := i;
      }
    }
  }

  lemma AheadIsTransitive(id: string -> int, keys: set<string>, s: State, u: nat, i: nat, t: nat)
    requires Inv(id, keys, s) && Convex(id, keys) && t < |s.txs| && u < |s.txs| && i < |s.txs|
    requires Waits(id, s.txs[t]) && Waits(id, s.txs[u]) && Waits(id, s.txs[i])
    requires Ahead(id, s, u, i) && Ahead(id, s, i, t)
    ensures Ahead(id, s, u, t)
  {
    var x, y, z := s.txs[t], s.txs[i], s.txs[u];
    BeforeIsTransitive(id, keys, x.locks[x.got].key, y.locks[y.got].key, z.locks[z.got].key);
  }

  ghost predicate OrdersOk(id: string -> int, keys: set<string>, orders: seq<seq<Lock>>) {
    forall c :: 0 <= c < |orders| ==> Ascending(orders[c]) && NoIdUpgrade(id, orders[c]) && KeysIn(orders[c], keys)
  }

  lemma InitIsOk(id: string -> int, keys: set<string>, orders: seq<seq<Lock>>)
    requires OrdersOk(id, keys, orders)
    ensures Inv(id, keys, Init(orders))
  {
    assert forall c :: 0 <= c < |orders| ==> Init(orders).txs[c] == Tx(orders[c], 0, Acquiring);
  }

  /** The state after a run of transactions that acquire their locks in these orders. */
  function After(id: string -> int, orders: seq<seq<Lock>>, steps: seq<Step>): State {
    Run((s, t) => Next(id, s, t), Init(orders), steps)
  }

  /**
  No deadlock. Any number of transactions, with any locks, shared and exclusive mixed and repeated,
  acquired in ascending order, as long as no transaction acquires a lock id shared and later exclusive
  and keys that share a lock id have no other id between them: in every reachable state in which one
  has not ended, some transaction can take a step other than giving up.
  */
  lemma NoDeadlock(id: string -> int, keys: set<string>, orders: seq<seq<Lock>>, steps: seq<Step>, t: nat)
      returns (step: Step)
    requires Convex(id, keys) && OrdersOk(id, keys, orders)
    requires var s := After(id, orders, steps); t < |s.txs| && !s.txs[t].phase.Ended?
    ensures var s := After(id, orders, steps); !step.Fail? && Next(id, s, step) != s
  {
    var next := (s, t) => Next(id, s, t);
    InitIsOk(id, keys, orders);
    var inv := (s: State) => Inv(id, keys, s);
    forall s, t | inv(s) ensures inv(next(s, t)) { NextKeepsInv(id, keys, s, t); }
    InvariantHolds(next, inv, Init(orders), steps);
    step := SomeoneCanStep(id, keys, After(id, orders, steps), t);
  }

  lemma SameElements(order: seq<Lock>, call: seq<Lock>)
    requires multiset(order) == multiset(call)
    ensures forall i :: 0 <= i < |order| ==> order[i] in call
  {
    forall i | 0 <= i < |order| ensures order[i] in call {
      assert order[i] in multiset(order);
    }
  }

  lemma SomeoneCanStep(id: string -> int, keys: set<string>, s: State, t: nat) returns (step: Step)
    requires Inv(id, keys, s) && Convex(id, keys) && t < |s.txs| && !s.txs[t].phase.Ended?
    ensures !step.Fail? && Next(id, s, step) != s
  {
    var k := t;
    if Waits(id, s.txs[t]) {
      k := Foremost(id, keys, s, |s.txs|, t);
      if Blocked(id, s, k) {
        k := BlockerIsAhead(id, keys, s, k);
      }
    }
    step := StepOf(id, keys, s, k);
  }

  lemma StepOf(id: string -> int, keys: set<string>, s: State, k: nat) returns (step: Step)
    requires Inv(id, keys, s) && k < |s.txs| && !s.txs[k].phase.Ended? &&
             (s.txs[k].phase.Queued? ==> !Blocked(id, s, k))
    ensures !step.Fail? && Next(id, s, step) != s
  {
    var x := s.txs[k];
    match x.phase
    case Acquiring => step := if x.got < |x.locks| then Request(k) else Begin(k);
    case Queued(_) => step := Grant(k);
    case Running => step := End(k);
    assert Next(id, s, step).txs[k] != x;
  }

  // ------------------------------------------------------------------ why the conditions are needed

  /** Nobody can do anything but give up. */
  ghost predicate Deadlocked(id: string -> int, s: State) {
    && (exists t :: 0 <= t < |s.txs| && !s.txs[t].phase.Ended?)
    && (forall t: Step :: !t.Fail? ==> Next(id, s, t) == s)
  }

  /** Each of two transactions holds its first lock and has requested its second. */
  function Halfway(a: seq<Lock>, b: seq<Lock>): State {
    State([Tx(a, 1, Queued(2)), Tx(b, 1, Queued(3))], 4)
  }

  lemma HalfwayIsReached(id: string -> int, a: seq<Lock>, b: seq<Lock>)
    requires |a| == |b| == 2 && !Conflict(id, a[0], b[0])
    ensures After(id, [a, b], [Request(0), Grant(0), Request(1), Grant(1), Request(0), Request(1)]) == Halfway(a, b)
  {
    var next := (s, t) => Next(id, s, t);
    var s0 := Init([a, b]);
    assert s0.txs == [Tx(a, 0, Acquiring), Tx(b, 0, Acquiring)];
    var s1 := State([Tx(a, 0, Queued(0)), Tx(b, 0, Acquiring)], 1);
    var s2 := State([Tx(a, 1, Acquiring), Tx(b, 0, Acquiring)], 1);
    var s3 := State([Tx(a, 1, Acquiring), Tx(b, 0, Queued(1))], 2);
    var s4 := State([Tx(a, 1, Acquiring), Tx(b, 1, Acquiring)], 2);
    var s5 := State([Tx(a, 1, Queued(2)), Tx(b, 1, Acquiring)], 3);
    assert next(s0, Request(0)) == s1;
    assert !Blocked(id, s1, 0);
    assert next(s1, Grant(0)) == s2;
    assert next(s2, Request(1)) == s3;
    assert !Blocked(id, s3, 1);
    assert next(s3, Grant(1)) == s4;
    assert next(s4, Request(0)) == s5;
    assert next(s5, Request(1)) == Halfway(a, b);
    OneStep(next, s0, Request(0), [Grant(0), Request(1), Grant(1), Request(0), Request(1)]);
    OneStep(next, s1, Grant(0), [Request(1), Grant(1), Request(0), Request(1)]);
    OneStep(next, s2, Request(1), [Grant(1), Request(0), Request(1)]);
    OneStep(next, s3, Grant(1), [Request(0), Request(1)]);
    OneStep(next, s4, Request(0), [Request(1)]);
    OneStep(next, s5, Request(1), []);
  }

  lemma OneStep(next: (State, Step) -> State, s: State, t: Step, rest: seq<Step>)
    ensures Run(next, s, [t] + rest) == Run(next, next(s, t), rest)
  {
    assert ([t] + rest)[1..] == rest;
  }

  lemma HalfwayIsDeadlocked(id: string -> int, a: seq<Lock>, b: seq<Lock>)
    requires |a| == |b| == 2 && Conflict(id, a[0], b[1]) && Conflict(id, b[0], a[1])
    requires id(a[0].key) == id(a[1].key) ==> a[0].shared && !a[1].shared
    requires id(b[0].key) == id(b[1].key) ==> b[0].shared && !b[1].shared
    ensures Deadlocked(id, Halfway(a, b))
  {
    var s := Halfway(a, b);
    assert !s.txs[0].phase.Ended?;
    assert Holds(id, s.txs[1], a[1]) && Holds(id, s.txs[0], b[1]);
    assert WaitsFor(id, s.txs[0], s.txs[1]) && WaitsFor(id, s.txs[1], s.txs[0]);
    assert Blocked(id, s, 0) && Blocked(id, s, 1);
  }

  const SIX_STEPS := [Request(0), Grant(0), Request(1), Grant(1), Request(0), Request(1)]

  /**
  Two keys that share a lock id: two calls that each name one shared and the other exclusive upgrade
  it, and deadlock.
  */
  lemma CollidingIdsDeadlock(id: string -> int, a: string, c: string)
    requires Less(a, c) && id(a) == id(c)
    ensures var order := [Lock(a, true), Lock(c, false)];
            Ascending(order) && OneModePerKey(order) && Deadlocked(id, After(id, [order, order], SIX_STEPS))
  {
    var order := [Lock(a, true), Lock(c, false)];
    NotBoth(a, c);
    HalfwayIsReached(id, order, order);
    HalfwayIsDeadlocked(id, order, order);
  }

  /** With a key of another id between them, exclusive locks are enough. */
  lemma ExclusiveLocksDeadlock(id: string -> int, a: string, b: string, c: string)
    requires Less(a, b) && Less(b, c) && id(a) == id(c) != id(b)
    ensures var first, second := [Lock(a, false), Lock(b, false)], [Lock(b, false), Lock(c, false)];
            Ascending(first) && Ascending(second) && Deadlocked(id, After(id, [first, second], SIX_STEPS))
  {
    var first, second := [Lock(a, false), Lock(b, false)], [Lock(b, false), Lock(c, false)];
    NotBoth(a, b);
    NotBoth(b, c);
    HalfwayIsReached(id, first, second);
    HalfwayIsDeadlocked(id, first, second);
  }

  /** Naming a key in both modes in one call, acquired shared and then exclusive, deadlocks with a second such call. */
  lemma UpgradeDeadlocks(id: string -> int, key: string)
    ensures var order := [Lock(key, true), Lock(key, false)];
            Ascending(order) && Deadlocked(id, After(id, [order, order], SIX_STEPS))
  {
    var order := [Lock(key, true), Lock(key, false)];
    LessIrreflexive(key);
    HalfwayIsReached(id, order, order);
    HalfwayIsDeadlocked(id, order, order);
  }

  // ------------------------------------------------------------------ exactly when calls can deadlock

  /** What callers may be held to. */
  datatype Discipline =
    | OnlyExclusive
    | EachKeyInOneMode
    | NoKeyUpgraded     // a key may be named in both modes, but is acquired exclusive first
    | Anything

  ghost predicate Follows(d: Discipline, order: seq<Lock>) {
    match d
    case OnlyExclusive => forall i :: 0 <= i < |order| ==> !order[i].shared
    case EachKeyInOneMode => OneModePerKey(order)
    case NoKeyUpgraded => NoUpgrade(order)
    case Anything => true
  }

  /** Transactions over these keys that keep to the discipline reach a deadlock by these steps. */
  ghost predicate DeadlockBy(id: string -> int, keys: set<string>, d: Discipline, orders: seq<seq<Lock>>,
      steps: seq<Step>) {
    && (forall c :: 0 <= c < |orders| ==> Ascending(orders[c]) && KeysIn(orders[c], keys) && Follows(d, orders[c]))
    && Deadlocked(id, After(id, orders, steps))
  }

  ghost predicate CanDeadlock(id: string -> int, keys: set<string>, d: Discipline) {
    exists orders: seq<seq<Lock>>, steps: seq<Step> :: DeadlockBy(id, keys, d, orders, steps)
  }

  /** What must hold of the lock ids of the keys. */
  ghost predicate IdsAreSafe(id: string -> int, keys: set<string>, d: Discipline) {
    match d
    case OnlyExclusive => Convex(id, keys)
    case EachKeyInOneMode => Injective(id, keys)
    case NoKeyUpgraded => Injective(id, keys)
    case Anything => keys == {}
  }

  lemma SafeIdsMakeOrdersOk(id: string -> int, keys: set<string>, d: Discipline, order: seq<Lock>)
    requires IdsAreSafe(id, keys, d) && KeysIn(order, keys) && Follows(d, order)
    ensures NoIdUpgrade(id, order) && Convex(id, keys)
  {
    if d.EachKeyInOneMode? || d.NoKeyUpgraded? { InjectiveIsConvex(id, keys); }
    assert order == [] || order[0].key in keys;
  }

  lemma SafeIdsNeverDeadlock(id: string -> int, keys: set<string>, d: Discipline, orders: seq<seq<Lock>>,
      steps: seq<Step>)
    requires IdsAreSafe(id, keys, d)
    ensures !DeadlockBy(id, keys, d, orders, steps)
  {
    if DeadlockBy(id, keys, d, orders, steps) {
      SafeIdsMakeOrdersOk(id, keys, d, []);
      forall c | 0 <= c < |orders| ensures NoIdUpgrade(id, orders[c]) { SafeIdsMakeOrdersOk(id, keys, d, orders[c]); }
      var s := After(id, orders, steps);
      var t :| 0 <= t < |s.txs| && !s.txs[t].phase.Ended?;
      var step := NoDeadlock(id, keys, orders, steps, t);
    }
  }

  lemma UnsafeIdsDeadlock(id: string -> int, keys: set<string>, d: Discipline)
    requires !IdsAreSafe(id, keys, d)
    ensures CanDeadlock(id, keys, d)
  {
    if d.OnlyExclusive? {
      var a, b, c :| a in keys && b in keys && c in keys && Less(a, b) && Less(b, c) && id(a) == id(c) != id(b);
      GapIsEnough(id, keys, a, b, c);
    } else if d.Anything? {
      var key :| key in keys;
      UpgradeDeadlocks(id, key);
      var order := [Lock(key, true), Lock(key, false)];
      TwoAreEnough(id, keys, d, order, order);
    } else {
      var a, c :| a in keys && c in keys && id(a) == id(c) && a != c;
      LessTotal(a, c);
      if Less(a, c) { CollisionIsEnough(id, keys, d, a, c); } else { CollisionIsEnough(id, keys, d, c, a); }
    }
  }

  lemma TwoAreEnough(id: string -> int, keys: set<string>, d: Discipline, first: seq<Lock>, second: seq<Lock>)
    requires Ascending(first) && KeysIn(first, keys) && Follows(d, first)
    requires Ascending(second) && KeysIn(second, keys) && Follows(d, second)
    requires Deadlocked(id, After(id, [first, second], SIX_STEPS))
    ensures CanDeadlock(id, keys, d)
  {
    var orders := [first, second];
    forall c | 0 <= c < |orders| ensures Ascending(orders[c]) && KeysIn(orders[c], keys) && Follows(d, orders[c]) {
      assert orders[c] == if c == 0 then first else second;
    }
    assert DeadlockBy(id, keys, d, orders, SIX_STEPS);
  }

  lemma GapIsEnough(id: string -> int, keys: set<string>, a: string, b: string, c: string)
    requires a in keys && b in keys && c in keys && Less(a, b) && Less(b, c) && id(a) == id(c) != id(b)
    ensures CanDeadlock(id, keys, OnlyExclusive)
  {
    ExclusiveLocksDeadlock(id, a, b, c);
    var first, second := [Lock(a, false), Lock(b, false)], [Lock(b, false), Lock(c, false)];
    TwoAreEnough(id, keys, OnlyExclusive, first, second);
  }

  lemma CollisionIsEnough(id: string -> int, keys: set<string>, d: Discipline, a: string, c: string)
    requires a in keys && c in keys && Less(a, c) && id(a) == id(c) && (d.EachKeyInOneMode? || d.NoKeyUpgraded?)
    ensures CanDeadlock(id, keys, d)
  {
    CollidingIdsDeadlock(id, a, c);
    LessIrreflexive(a);
    var order := [Lock(a, true), Lock(c, false)];
    TwoAreEnough(id, keys, d, order, order);
  }

  /**
  Exactly when transactions that acquire their locks in ascending order of keys can deadlock, for every
  hash and set of keys: with exclusive locks only, if and only if two keys that share a lock id have a
  key with another id between them; with each key in one mode, or with none upgraded, if and only if
  two keys share a lock id; and without any discipline, if and only if there is a key.
  */
  lemma CanDeadlockIff(id: string -> int, keys: set<string>, d: Discipline)
    ensures CanDeadlock(id, keys, d) <==> !IdsAreSafe(id, keys, d)
  {
    if IdsAreSafe(id, keys, d) {
      forall orders: seq<seq<Lock>>, steps: seq<Step> ensures !DeadlockBy(id, keys, d, orders, steps) {
        SafeIdsNeverDeadlock(id, keys, d, orders, steps);
      }
    } else {
      UnsafeIdsDeadlock(id, keys, d);
    }
  }

  /**
  In terms of the calls: whatever the sort makes of them, calls that name each key in one mode never
  deadlock if no two keys share a lock id.
  */
  lemma CallsNeverDeadlock(
      id: string -> int, keys: set<string>, calls: seq<seq<Lock>>, orders: seq<seq<Lock>>, steps: seq<Step>)
    requires Injective(id, keys) && |orders| == |calls|
    requires forall c :: 0 <= c < |calls| ==>
             IsOrderOf(orders[c], calls[c]) && OneModePerKey(calls[c]) && KeysIn(calls[c], keys)
    ensures !Deadlocked(id, After(id, orders, steps))
  {
    forall c | 0 <= c < |orders| ensures Follows(NoKeyUpgraded, orders[c]) && KeysIn(orders[c], keys) {
      OneModeMeansNoUpgrade(orders[c], calls[c]);
      SameElements(orders[c], calls[c]);
    }
    SafeIdsNeverDeadlock(id, keys, NoKeyUpgraded, orders, steps);
  }
}
