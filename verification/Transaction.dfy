/**
Nested transactions.

A program is what happens inside a context: writes through a client, and calls of WithinContext for
some transaction instance, whose function is again such a program. What the database and the
functions decide (failures of begin, locks, writes and commit, and whether a function returns nil)
is part of the program, so a statement about all programs is one about all trees of nested calls
with all outcomes. Statements are named by their path in the tree.
*/
module Transaction {
  import opened Options

  type Instance = nat
  type Path = seq<nat>

  datatype Prog =
    | Done
    | Write(ok: bool, next: Prog)
    | Call(inst: Instance, begins: bool, locks: bool, body: Prog, fnOk: bool, commits: bool, next: Prog)

  // ------------------------------------------------------------------ execution

  /** What the context carries: the innermost open transaction and the instance that opened it. */
  datatype TxData = TxData(tx: nat, inst: Instance)

  /** A write became durable, or the onCommit of a call ran. */
  datatype Event = Kept(path: Path) | Hook(path: Path)

  class Database {
    var log: seq<Event>
    var open: map<nat, seq<Path>>          // writes of open transactions
    var nextTx: nat
    var begun: seq<Path>                   // calls that opened a transaction

    ghost predicate Valid()
      reads this
    {
      forall t :: t in open ==> t < nextTx
    }

    ghost function View(): Snapshot
      reads this
    {
      Snapshot(log, open, begun)
    }

    constructor ()
      ensures Valid() && log == [] && open == map[] && begun == []
    {
      log, open, nextTx, begun := [], map[], 0, [];
    }

    /** A write through a client goes to the innermost transaction of the context, if there is one. */
    method Exec(ctx: Option<TxData>, path: Path)
      requires Valid() && (ctx.Some? ==> ctx.value.tx in open)
      modifies this`log, this`open
      ensures Valid()
      ensures ctx.None? ==> log == old(log) + [Kept(path)] && open == old(open)
      ensures ctx.Some? ==>
              log == old(log) && open == old(open)[ctx.value.tx := old(open)[ctx.value.tx] + [path]]
    {
      if ctx.Some? {
        open := open[ctx.value.tx := open[ctx.value.tx] + [path]];
      } else {
        log := log + [Kept(path)];
      }
    }

    /** Runs a program in a context; its first statement is statement k of the function at `here`. */
    method Run(p: Prog, ctx: Option<TxData>, here: Path, k: nat)
      requires Valid() && (ctx.Some? ==> ctx.value.tx in open)
      modifies this
      ensures Valid() && nextTx >= old(nextTx)
      ensures Applied(Effect(p, InstOf(ctx), here, k), ctx, old(View()), View())
      decreases p
    {
      ghost var inst, a := InstOf(ctx), View();
      if p.Done? {
        AppliedNothing(ctx, a);
        return;
      }
      ghost var first;
      if p.Write? {
        first := WriteEffect(p.ok, inst, here, k);
        AppliedNothing(ctx, a);
        if p.ok {
          Exec(ctx, here + [k]);
        }
      } else {
        first := CallEffect(p, inst, here, k);
        var returnedNil := WithinContext(p, ctx, here, k);
      }
      ghost var b := View();
      Run(p.next, ctx, here, k + 1);
      AppliedBoth(first, Effect(p.next, inst, here, k + 1), ctx, a, b, View());
    }

    /** WithinContext of the call's instance; does it return nil? */
    method WithinContext(call: Prog, ctx: Option<TxData>, here: Path, k: nat) returns (ok: bool)
      requires call.Call? && Valid() && (ctx.Some? ==> ctx.value.tx in open)
      modifies this
      ensures Valid() && nextTx >= old(nextTx)
      ensures Applied(CallEffect(call, InstOf(ctx), here, k), ctx, old(View()), View())
      ensures InstOf(ctx) == Some(call.inst) ==> (ok <==> call.locks && call.fnOk)
      ensures InstOf(ctx) != Some(call.inst) ==>
              (ok <==> Hook(here + [k]) in CallEffect(call, InstOf(ctx), here, k).log)
      decreases call, 0
    {
      var path := here + [k];
      ghost var a := View();
      AppliedNothing(ctx, a);
      var hasParent := ctx.Some? && ctx.value.inst == call.inst;
      if hasParent {
        if call.locks {
          Run(call.body, ctx, path, 0);
        }
        return call.locks && call.fnOk;
      }
      if !call.begins {
        return false;
      }
      var own := TxData(nextTx, call.inst);
      nextTx := nextTx + 1;
      open := open[own.tx := []];
      begun := begun + [path];
      ok := call.locks && call.fnOk && call.commits;
      ghost var e := if call.locks then Effect(call.body, Some(call.inst), path, 0) else NOTHING;
      AppliedNothing(Some(own), View());
      if call.locks {
        Run(call.body, Some(own), path, 0);
      }
      ghost var b := View();
      if ok {
        log := log + Keeps(open[own.tx]);
        log := log + [Hook(path)];
      }
      open := open - {own.tx};
      AppliedOwn(e, own, path, ok, ctx, a, b, View());
      CallHook(call, InstOf(ctx), here, k);
    }
  }

  function InstOf(ctx: Option<TxData>): Option<Instance> {
    if ctx.Some? then Some(ctx.value.inst) else None
  }

  // ------------------------------------------------------------------ the effect of a program

  function Keeps(paths: seq<Path>): (r: seq<Event>)
    ensures |r| == |paths|
  {
    seq(|paths|, i requires 0 <= i < |paths| => Kept(paths[i]))
  }

  /** What became durable and which hooks ran, writes left in the context's own transaction, transactions begun. */
  datatype Effects = Effects(log: seq<Event>, buffered: seq<Path>, begun: seq<Path>)

  const NOTHING := Effects([], [], [])

  function Both(a: Effects, b: Effects): Effects {
    Effects(a.log + b.log, a.buffered + b.buffered, a.begun + b.begun)
  }

  function WriteEffect(ok: bool, inst: Option<Instance>, here: Path, k: nat): Effects {
    if !ok then NOTHING
    else if inst.None? then NOTHING.(log := [Kept(here + [k])])
    else NOTHING.(buffered := [here + [k]])
  }

  function Effect(p: Prog, inst: Option<Instance>, here: Path, k: nat): Effects
    decreases p
  {
    match p
    case Done => NOTHING
    case Write(ok, next) =>
      Both(WriteEffect(ok, inst, here, k), Effect(next, inst, here, k + 1))
    case Call(_, _, _, _, _, _, next) => Both(CallEffect(p, inst, here, k), Effect(next, inst, here, k + 1))
  }

  function CallEffect(call: Prog, inst: Option<Instance>, here: Path, k: nat): Effects
    requires call.Call?
    decreases call, 0
  {
    var path := here + [k];
    if inst == Some(call.inst) then
      if call.locks then Effect(call.body, inst, path, 0) else NOTHING
    else if !call.begins then NOTHING
    else if !call.locks then NOTHING.(begun := [path])
    else
      var e := Effect(call.body, Some(call.inst), path, 0);
      var ok := call.fnOk && call.commits;
      Closed(e, path, ok)
  }

  /** The effect of a call that opened a transaction, from the effect e of its function in that transaction. */
  function Closed(e: Effects, path: Path, ok: bool): Effects {
    Effects(e.log + (if ok then Keeps(e.buffered) + [Hook(path)] else []), [], [path] + e.begun)
  }

  datatype Snapshot = Snapshot(log: seq<Event>, open: map<nat, seq<Path>>, begun: seq<Path>)

  /** State b is state a after effect e in a context. */
  ghost predicate Applied(e: Effects, ctx: Option<TxData>, a: Snapshot, b: Snapshot) {
    && b.log == a.log + e.log
    && b.begun == a.begun + e.begun
    && match ctx
       case None => e.buffered == [] && b.open == a.open
       case Some(d) => d.tx in a.open && b.open == a.open[d.tx := a.open[d.tx] + e.buffered]
  }

  lemma AppliedNothing(ctx: Option<TxData>, a: Snapshot)
    requires ctx.Some? ==> ctx.value.tx in a.open
    ensures Applied(NOTHING, ctx, a, a)
  {
    if ctx.Some? {
      assert a.open[ctx.value.tx] + [] == a.open[ctx.value.tx];
      assert a.open == a.open[ctx.value.tx := a.open[ctx.value.tx]];
    }
  }

  lemma AppliedBoth(e: Effects, f: Effects, ctx: Option<TxData>, a: Snapshot, b: Snapshot, c: Snapshot)
    requires Applied(e, ctx, a, b) && Applied(f, ctx, b, c)
    ensures Applied(Both(e, f), ctx, a, c)
  {
    if ctx.Some? {
      var t := ctx.value.tx;
      assert (a.open[t] + e.buffered) + f.buffered == a.open[t] + (e.buffered + f.buffered);
      assert c.open == a.open[t := a.open[t] + (e.buffered + f.buffered)];
    }
  }

  lemma OpenRestored(before: map<nat, seq<Path>>, after: map<nat, seq<Path>>, tx: nat, buffered: seq<Path>)
    requires tx !in before && after == before[tx := []][tx := [] + buffered]
    ensures after[tx] == buffered && after - {tx} == before
  {
    assert [] + buffered == buffered;
    assert (after - {tx}).Keys == before.Keys;
  }

  lemma Appended<T>(a: seq<T>, b: seq<T>, c: seq<T>, d: seq<T>)
    ensures a + b + c + d == a + (b + (c + d))
  {
  }

  /** A transaction opened and closed by a call: its buffer becomes durable, or is gone. */
  lemma AppliedOwn(e: Effects, own: TxData, path: Path, ok: bool, ctx: Option<TxData>, a: Snapshot, b: Snapshot,
      c: Snapshot)
    requires own.tx !in a.open && (ctx.Some? ==> ctx.value.tx in a.open)
    requires Applied(e, Some(own), a.(open := a.open[own.tx := []], begun := a.begun + [path]), b)
    requires c == Snapshot(if ok then b.log + Keeps(b.open[own.tx]) + [Hook(path)] else b.log, b.open - {own.tx},
                           b.begun)
    ensures Applied(Closed(e, path, ok), ctx, a, c)
  {
    assert [] + e.buffered == e.buffered;
    OpenRestored(a.open, b.open, own.tx, e.buffered);
    if ok { Appended(a.log, e.log, Keeps(e.buffered), [Hook(path)]); }
    assert c.begun == a.begun + ([path] + e.begun);
    AppliedNothing(ctx, a);
  }

  // ------------------------------------------------------------------ what it means for a write and for a call

  /**
  The transaction a write belongs to: none, the one of the surrounding context, or one begun by a call
  of the program.
  */
  datatype Owner =
    | NoTx
    | Outer(inst: Instance)
    | Inner(inst: Instance, kept: bool)  // kept: its function returned nil and its commit succeeded

  predicate IsInstance(o: Owner, i: Instance) {
    !o.NoTx? && o.inst == i
  }

  /** A call begins a transaction exactly when the innermost open one is not of its own instance. */
  predicate Begins(call: Prog, o: Owner)
    requires call.Call?
  {
    !IsInstance(o, call.inst) && call.begins
  }

  /** The function of a call runs when it has a transaction, its own or its parent's, and its locks. */
  predicate Runs(call: Prog, o: Owner)
    requires call.Call?
  {
    (IsInstance(o, call.inst) || call.begins) && call.locks
  }

  function Inside(call: Prog, o: Owner): Owner
    requires call.Call?
  {
    if IsInstance(o, call.inst) then o else Inner(call.inst, call.fnOk && call.commits)
  }

  /** The statement at a path, with the owner of the transaction it finds in its context; none if it does not run. */
  function Find(p: Prog, o: Owner, k: nat, r: Path): Option<(Prog, Owner)>
    requires r != []
    decreases p
  {
    if p.Done? then None
    else if r[0] != k then Find(p.next, o, k + 1, r)
    else if |r| == 1 then Some((p, o))
    else if p.Call? && Runs(p, o) then Find(p.body, Inside(p, o), 0, r[1..])
    else None
  }

  predicate IsWrite(f: Option<(Prog, Owner)>) {
    f.Some? && f.value.0.Write? && f.value.0.ok
  }

  /** The write is durable: outside any transaction, or in one whose owning call returned nil and committed. */
  predicate Survives(f: Option<(Prog, Owner)>) {
    IsWrite(f) && (f.value.1.NoTx? || (f.value.1.Inner? && f.value.1.kept))
  }

  predicate Waits(f: Option<(Prog, Owner)>) {
    IsWrite(f) && f.value.1.Outer?
  }

  predicate Opens(f: Option<(Prog, Owner)>) {
    f.Some? && f.value.0.Call? && Begins(f.value.0, f.value.1)
  }

  predicate Commits(f: Option<(Prog, Owner)>) {
    Opens(f) && f.value.0.locks && f.value.0.fnOk && f.value.0.commits
  }

  function Times<T(==)>(s: seq<T>, x: T): nat {
    multiset(s)[x]
  }

  lemma {:induction false} KeepsTimes(paths: seq<Path>, q: Path)
    ensures Times(Keeps(paths), Kept(q)) == Times(paths, q) && Times(Keeps(paths), Hook(q)) == 0
    decreases |paths|
  {
    if paths != [] {
      var n := |paths| - 1;
      KeepsTimes(paths[..n], q);
      assert paths == paths[..n] + [paths[n]];
      assert Keeps(paths) == Keeps(paths[..n]) + [Kept(paths[n])];
    }
  }

  function One(b: bool): nat {
    if b then 1 else 0
  }

  /** Everything an effect says of path q. */
  ghost predicate Says(e: Effects, q: Path, durable: bool, buffered: bool, begun: bool, hook: bool) {
    && Times(e.log, Kept(q)) == One(durable)
    && Times(e.buffered, q) == One(buffered)
    && Times(e.begun, q) == One(begun)
    && Times(e.log, Hook(q)) == One(hook)
  }

  ghost predicate SaysNothing(e: Effects, q: Path) {
    Says(e, q, false, false, false, false)
  }

  /** Path q names statement k or a later one of the function at `here`, or something inside it. */
  predicate Under(q: Path, here: Path, k: nat) {
    |q| > |here| && q[..|here|] == here && q[|here|] >= k
  }

  lemma {:induction false} EffectStaysUnder(p: Prog, inst: Option<Instance>, here: Path, k: nat, q: Path)
    ensures !Under(q, here, k) ==> SaysNothing(Effect(p, inst, here, k), q)
    decreases p
  {
    if p.Write? {
      EffectStaysUnder(p.next, inst, here, k + 1, q);
    } else if p.Call? {
      EffectStaysUnder(p.next, inst, here, k + 1, q);
      CallStaysUnder(p, inst, here, k, q);
    }
  }

  lemma {:induction false} CallStaysUnder(p: Prog, inst: Option<Instance>, here: Path, k: nat, q: Path)
    requires p.Call?
    ensures !(Under(q, here, k) && q[|here|] == k) ==> SaysNothing(CallEffect(p, inst, here, k), q)
    decreases p, 0
  {
    var path := here + [k];
    if !(Under(q, here, k) && q[|here|] == k) {
      if Under(q, path, 0) { UnderDeeper(q, here, k); }
      if inst == Some(p.inst) {
        EffectStaysUnder(p.body, inst, path, 0, q);
      } else {
        EffectStaysUnder(p.body, Some(p.inst), path, 0, q);
        ClosedSaysNothing(Effect(p.body, Some(p.inst), path, 0), path, p.fnOk && p.commits, q);
        assert Times([path], q) == 0;
      }
    }
  }

  lemma UnderDeeper(q: Path, here: Path, k: nat)
    requires Under(q, here + [k], 0)
    ensures Under(q, here, k) && q[|here|] == k
  {
    assert q[..|here|] == q[..|here| + 1][..|here|] == here;
    assert q[|here|] == q[..|here| + 1][|here|] == k;
  }

  lemma ClosedSaysNothing(e: Effects, path: Path, ok: bool, q: Path)
    requires SaysNothing(e, q) && q != path
    ensures SaysNothing(Closed(e, path, ok), q)
  {
    ClosedTimes(e, path, ok, q);
    TimesConcat([path], e.begun, q);
    assert Times([path], q) == 0;
  }

  /** Inside a call's function its own transaction is the outer one; seen from outside it is an inner one. */
  function FromOutside(f: Option<(Prog, Owner)>, i: Instance, kept: bool): Option<(Prog, Owner)> {
    if f.Some? && f.value.1.Outer? then Some((f.value.0, Inner(i, kept))) else f
  }

  lemma {:induction false} FindFromOutside(p: Prog, i: Instance, kept: bool, k: nat, r: Path)
    requires r != []
    ensures Find(p, Inner(i, kept), k, r) == FromOutside(Find(p, Outer(i), k, r), i, kept)
    ensures var f := Find(p, Outer(i), k, r); f.Some? && f.value.1.Outer? ==> f.value.1.inst == i
    decreases p
  {
    if p.Done? {
    } else if r[0] != k {
      FindFromOutside(p.next, i, kept, k + 1, r);
    } else if |r| > 1 && p.Call? && Runs(p, Outer(i)) {
      if p.inst == i {
        FindFromOutside(p.body, i, kept, 0, r[1..]);
      } else {
        NeverOuter(p.body, p.inst, p.fnOk && p.commits, 0, r[1..]);
      }
    }
  }

  lemma {:induction false} NeverOuter(p: Prog, i: Instance, kept: bool, k: nat, r: Path)
    requires r != []
    ensures Find(p, Inner(i, kept), k, r).Some? ==> !Find(p, Inner(i, kept), k, r).value.1.Outer?
    decreases p
  {
    if p.Done? {
    } else if r[0] != k {
      NeverOuter(p.next, i, kept, k + 1, r);
    } else if |r| > 1 && p.Call? && Runs(p, Inner(i, kept)) {
      var o := Inside(p, Inner(i, kept));
      NeverOuter(p.body, o.inst, o.kept, 0, r[1..]);
    }
  }

  function OwnerInst(o: Owner): Option<Instance> {
    if o.NoTx? then None else Some(o.inst)
  }

  lemma TimesConcat<T>(a: seq<T>, b: seq<T>, x: T)
    ensures Times(a + b, x) == Times(a, x) + Times(b, x)
  {
  }

  /** Of two effects that follow each other, at most one speaks of q. */
  lemma SaysBoth(a: Effects, b: Effects, q: Path, durable: bool, buffered: bool, begun: bool, hook: bool)
    requires || (Says(a, q, durable, buffered, begun, hook) && SaysNothing(b, q))
             || (Says(b, q, durable, buffered, begun, hook) && SaysNothing(a, q))
    ensures Says(Both(a, b), q, durable, buffered, begun, hook)
  {
    TimesConcat(a.log, b.log, Kept(q));
    TimesConcat(a.log, b.log, Hook(q));
    TimesConcat(a.buffered, b.buffered, q);
    TimesConcat(a.begun, b.begun, q);
  }

  /** What a program does to a statement is what the statement's place in the tree says. */
  lemma {:induction false} EffectIsFind(p: Prog, o: Owner, here: Path, k: nat, q: Path)
    requires !o.Inner? && Under(q, here, k)
    ensures var f := Find(p, o, k, q[|here|..]);
            Says(Effect(p, OwnerInst(o), here, k), q, Survives(f), Waits(f), Opens(f), Commits(f))
    decreases p
  {
    if !p.Done? {
      var inst, f := OwnerInst(o), Find(p, o, k, q[|here|..]);
      var rest := Effect(p.next, inst, here, k + 1);
      var first := if p.Call? then CallEffect(p, inst, here, k) else WriteEffect(p.ok, inst, here, k);
      if q[|here|] != k {
        EffectIsFind(p.next, o, here, k + 1, q);
        if p.Call? { CallStaysUnder(p, inst, here, k, q); } else { WriteStaysUnder(p.ok, inst, here, k, q); }
      } else {
        EffectStaysUnder(p.next, inst, here, k + 1, q);
        if p.Call? { CallIsFind(p, o, here, k, q); } else { WriteIsFind(p, o, here, k, q); }
      }
      SaysBoth(first, rest, q, Survives(f), Waits(f), Opens(f), Commits(f));
    }
  }

  lemma WriteStaysUnder(ok: bool, inst: Option<Instance>, here: Path, k: nat, q: Path)
    requires Under(q, here, k) && q[|here|] != k
    ensures SaysNothing(WriteEffect(ok, inst, here, k), q)
  {
    assert (here + [k])[|here|] == k;
  }

  lemma WriteIsFind(p: Prog, o: Owner, here: Path, k: nat, q: Path)
    requires p.Write? && !o.Inner? && Under(q, here, k) && q[|here|] == k
    ensures var f := Find(p, o, k, q[|here|..]);
            Says(WriteEffect(p.ok, OwnerInst(o), here, k), q, Survives(f), Waits(f), Opens(f), Commits(f))
  {
    assert |q| == |here| + 1 ==> q == q[..|here|] + [q[|here|]];
  }

  lemma {:induction false} CallIsFind(p: Prog, o: Owner, here: Path, k: nat, q: Path)
    requires p.Call? && !o.Inner? && Under(q, here, k) && q[|here|] == k
    ensures var f := Find(p, o, k, q[|here|..]);
            Says(CallEffect(p, OwnerInst(o), here, k), q, Survives(f), Waits(f), Opens(f), Commits(f))
    decreases p, 0
  {
    var path := here + [k];
    assert q[..|here| + 1] == path;
    if q == path {
      CallItself(p, o, here, k);
    } else {
      assert Under(q, path, 0);
      assert q[|here|..][1..] == q[|path|..];
      var f := Find(p, o, k, q[|here|..]);
      assert f == if Runs(p, o) then Find(p.body, Inside(p, o), 0, q[|path|..]) else None;
      if IsInstance(o, p.inst) {
        EffectIsFind(p.body, o, path, 0, q);
      } else {
        EffectIsFind(p.body, Outer(p.inst), path, 0, q);
        FindFromOutside(p.body, p.inst, p.fnOk && p.commits, 0, q[|path|..]);
        OwnCall(p, o, here, k, q, Find(p.body, Outer(p.inst), 0, q[|path|..]));
      }
    }
  }

  lemma OwnCall(p: Prog, o: Owner, here: Path, k: nat, q: Path, f: Option<(Prog, Owner)>)
    requires p.Call? && !o.Inner? && !IsInstance(o, p.inst) && q != here + [k]
    requires Says(Effect(p.body, Some(p.inst), here + [k], 0), q, Survives(f), Waits(f), Opens(f), Commits(f))
    requires f.Some? && f.value.1.Outer? ==> f.value.1.inst == p.inst
    ensures var g := if Runs(p, o) then FromOutside(f, p.inst, p.fnOk && p.commits) else None;
            Says(CallEffect(p, OwnerInst(o), here, k), q, Survives(g), Waits(g), Opens(g), Commits(g))
  {
    var path, e := here + [k], CallEffect(p, OwnerInst(o), here, k);
    if Runs(p, o) {
      ClosedSays(Effect(p.body, Some(p.inst), path, 0), path, p.fnOk && p.commits, q, f, p.inst);
      assert e == Closed(Effect(p.body, Some(p.inst), path, 0), path, p.fnOk && p.commits);
    } else if p.begins {
      assert e == NOTHING.(begun := [path]);
      assert Times([path], q) == 0;
    } else {
      assert e == NOTHING;
    }
  }

  lemma CallItself(p: Prog, o: Owner, here: Path, k: nat)
    requires p.Call? && !o.Inner?
    ensures Says(CallEffect(p, OwnerInst(o), here, k), here + [k], false, false, Opens(Some((p, o))),
            Commits(Some((p, o))))
  {
    var path := here + [k];
    EffectStaysUnder(p.body, OwnerInst(o), path, 0, path);
    EffectStaysUnder(p.body, Some(p.inst), path, 0, path);
    var e, ok := Effect(p.body, Some(p.inst), path, 0), p.fnOk && p.commits;
    ClosedItself(e, path, ok);
  }

  lemma ClosedItself(e: Effects, path: Path, ok: bool)
    requires SaysNothing(e, path)
    ensures Says(Closed(e, path, ok), path, false, false, true, ok)
  {
    ClosedTimes(e, path, ok, path);
    TimesConcat([path], e.begun, path);
  }

  lemma ClosedTimes(e: Effects, path: Path, ok: bool, q: Path)
    ensures Times(Closed(e, path, ok).log, Kept(q)) == Times(e.log, Kept(q)) + if ok then Times(e.buffered, q) else 0
    ensures Times(Closed(e, path, ok).log, Hook(q)) == Times(e.log, Hook(q)) + One(ok && q == path)
  {
    if ok {
      KeepsTimes(e.buffered, q);
      assert e.log + (Keeps(e.buffered) + [Hook(path)]) == e.log + Keeps(e.buffered) + [Hook(path)];
    }
  }

  /** A call that begins a transaction runs its hook exactly if the transaction commits. */
  lemma CallHook(call: Prog, inst: Option<Instance>, here: Path, k: nat)
    requires call.Call? && inst != Some(call.inst)
    ensures Hook(here + [k]) in CallEffect(call, inst, here, k).log <==>
            call.begins && call.locks && call.fnOk && call.commits
  {
    var e := Effect(call.body, Some(call.inst), here + [k], 0);
    EffectStaysUnder(call.body, Some(call.inst), here + [k], 0, here + [k]);
    ClosedTimes(e, here + [k], call.fnOk && call.commits, here + [k]);
  }

  lemma ClosedSays(e: Effects, path: Path, ok: bool, q: Path, f: Option<(Prog, Owner)>, i: Instance)
    requires q != path && Says(e, q, Survives(f), Waits(f), Opens(f), Commits(f))
    requires f.Some? && f.value.1.Outer? ==> f.value.1.inst == i
    ensures var g := FromOutside(f, i, ok); Says(Closed(e, path, ok), q, Survives(g), Waits(g), Opens(g), Commits(g))
  {
    ClosedTimes(e, path, ok, q);
    TimesConcat([path], e.begun, q);
    assert Times([path], q) == 0;
  }

  /**
  The law of nested transactions, for every tree of calls over any number of instances and every
  pattern of failures. A call begins a transaction exactly when the innermost open one is not of its
  own instance. A write is durable, once, exactly when it is outside any transaction or the call that
  owns its transaction returned nil and committed, whatever calls in between returned. And the commit
  hook runs exactly once for each transaction that committed, and for no nested call.
  */
  lemma NestedTransactions(p: Prog, q: Path)
    requires q != []
    ensures var e, f := Effect(p, None, [], 0), Find(p, NoTx, 0, q);
            && Times(e.log, Kept(q)) == One(Survives(f))
            && Times(e.begun, q) == One(Opens(f))
            && Times(e.log, Hook(q)) == One(Commits(f))
            && e.buffered == []
  {
    var top: Path := [];
    assert q[|top|..] == q;
    EffectIsFind(p, NoTx, [], 0, q);
    NothingBuffered(p, [], 0);
  }

  lemma {:induction false} NothingBuffered(p: Prog, here: Path, k: nat)
    ensures Effect(p, None, here, k).buffered == []
    decreases p
  {
    if !p.Done? { NothingBuffered(p.next, here, k + 1); }
  }

  // ---- the order of what happens

  /** After the hook of a call, nothing that was done inside the call happens any more. */
  ghost predicate HooksComeLast(log: seq<Event>) {
    forall i, j :: 0 <= i < j < |log| && log[i].Hook? ==> !(log[i].path <= log[j].path)
  }

  /** No buffered write was done inside a call that has run its hook. */
  ghost predicate HooksApart(e: Effects) {
    forall i, j :: 0 <= i < |e.log| && e.log[i].Hook? && 0 <= j < |e.buffered| ==> !(e.log[i].path <= e.buffered[j])
  }

  ghost predicate PathsAt(e: Effects, here: Path, lo: nat, hi: nat) {
    && (forall i :: 0 <= i < |e.log| ==> Under(e.log[i].path, here, lo) && e.log[i].path[|here|] < hi)
    && (forall i :: 0 <= i < |e.buffered| ==> Under(e.buffered[i], here, lo) && e.buffered[i][|here|] < hi)
  }

  ghost predicate InOrder(e: Effects) {
    HooksComeLast(e.log) && HooksApart(e)
  }

  lemma BothInOrder(a: Effects, b: Effects, here: Path, lo: nat, mid: nat, hi: nat)
    requires InOrder(a) && InOrder(b) && PathsAt(a, here, lo, mid) && PathsAt(b, here, mid, hi) && lo <= mid <= hi
    ensures InOrder(Both(a, b)) && PathsAt(Both(a, b), here, lo, hi)
  {
    forall i, j | 0 <= i < j < |a.log + b.log| && (a.log + b.log)[i].Hook?
      ensures !((a.log + b.log)[i].path <= (a.log + b.log)[j].path)
    {
      if i < |a.log| <= j {
        assert a.log[i].path[|here|] < mid && b.log[j - |a.log|].path[|here|] >= mid;
      }
    }
    forall i, j | 0 <= i < |a.log + b.log| && (a.log + b.log)[i].Hook? && 0 <= j < |a.buffered + b.buffered|
      ensures !((a.log + b.log)[i].path <= (a.buffered + b.buffered)[j])
    {
      if i < |a.log| && j >= |a.buffered| {
        assert a.log[i].path[|here|] < mid && b.buffered[j - |a.buffered|][|here|] >= mid;
      } else if i >= |a.log| && j < |a.buffered| {
        assert b.log[i - |a.log|].path[|here|] >= mid && a.buffered[j][|here|] < mid;
      }
    }
  }

  lemma ClosedInOrder(e: Effects, here: Path, k: nat, hi: nat, ok: bool)
    requires InOrder(e) && PathsAt(e, here + [k], 0, hi)
    ensures InOrder(Closed(e, here + [k], ok)) && PathsAt(Closed(e, here + [k], ok), here, k, k + 1)
  {
    var path := here + [k];
    var log := Closed(e, path, ok).log;
    forall i | 0 <= i < |log| ensures Under(log[i].path, here, k) && log[i].path[|here|] < k + 1 {
      if i < |e.log| {
        UnderDeeper(e.log[i].path, here, k);
      } else if i < |e.log| + |e.buffered| {
        UnderDeeper(e.buffered[i - |e.log|], here, k);
      }
    }
  }

  lemma {:induction false} EffectInOrder(p: Prog, inst: Option<Instance>, here: Path, k: nat) returns (hi: nat)
    ensures k <= hi && InOrder(Effect(p, inst, here, k)) && PathsAt(Effect(p, inst, here, k), here, k, hi)
    decreases p
  {
    if p.Done? {
      return k;
    }
    hi := EffectInOrder(p.next, inst, here, k + 1);
    var rest := Effect(p.next, inst, here, k + 1);
    var first := if p.Call? then CallEffect(p, inst, here, k) else WriteEffect(p.ok, inst, here, k);
    if p.Call? { CallInOrder(p, inst, here, k); }
    BothInOrder(first, rest, here, k, k + 1, hi);
  }

  lemma {:induction false} CallInOrder(p: Prog, inst: Option<Instance>, here: Path, k: nat)
    requires p.Call?
    ensures InOrder(CallEffect(p, inst, here, k)) && PathsAt(CallEffect(p, inst, here, k), here, k, k + 1)
    decreases p, 0
  {
    var path := here + [k];
    if inst == Some(p.inst) {
      var hi := EffectInOrder(p.body, inst, path, 0);
      var e := Effect(p.body, inst, path, 0);
      forall i | 0 <= i < |e.log| ensures Under(e.log[i].path, here, k) && e.log[i].path[|here|] < k + 1 {
        UnderDeeper(e.log[i].path, here, k);
      }
      forall i | 0 <= i < |e.buffered| ensures Under(e.buffered[i], here, k) && e.buffered[i][|here|] < k + 1 {
        UnderDeeper(e.buffered[i], here, k);
      }
    } else {
      var hi := EffectInOrder(p.body, Some(p.inst), path, 0);
      ClosedInOrder(Effect(p.body, Some(p.inst), path, 0), here, k, hi, p.fnOk && p.commits);
    }
  }

  /**
  The order of events, for every tree of calls: once a commit hook has run, no write inside its call becomes
  durable and no hook of a call inside it runs. So a hook finds all that its transaction did committed.
  */
  lemma HooksRunAfterCommits(p: Prog)
    ensures HooksComeLast(Effect(p, None, [], 0).log)
  {
    var hi := EffectInOrder(p, None, [], 0);
  }

  /** Executing a whole program from scratch obeys the law. */
  method Execute(p: Prog) returns (log: seq<Event>, begun: seq<Path>)
    ensures forall q: Path | q != [] ::
              var f := Find(p, NoTx, 0, q);
              && Times(log, Kept(q)) == One(Survives(f))
              && Times(begun, q) == One(Opens(f))
              && Times(log, Hook(q)) == One(Commits(f))
    ensures HooksComeLast(log)
  {
    var db := new Database();
    db.Run(p, None, [], 0);
    log, begun := db.log, db.begun;
    ghost var e := Effect(p, None, [], 0);
    assert log == e.log && begun == e.begun;
    HooksRunAfterCommits(p);
    forall q: Path | q != []
      ensures var f := Find(p, NoTx, 0, q);
              && Times(log, Kept(q)) == One(Survives(f))
              && Times(begun, q) == One(Opens(f))
              && Times(log, Hook(q)) == One(Commits(f))
    {
      NestedTransactions(p, q);
    }
  }

  /** An error of a nested call of the same instance does not undo its writes, if the outer function returns nil. */
  lemma SwallowedErrorIsKept(i: Instance)
    ensures var inner := Call(i, true, true, Write(true, Done), false, true, Done);
            Times(Effect(Call(i, true, true, inner, true, true, Done), None, [], 0).log, Kept([0, 0, 0])) == 1
  {
    var inner := Call(i, true, true, Write(true, Done), false, true, Done);
    var p := Call(i, true, true, inner, true, true, Done);
    NestedTransactions(p, [0, 0, 0]);
    assert [0, 0, 0][1..] == [0, 0];
    FindInside(inner, i);
    assert Find(p, NoTx, 0, [0, 0, 0]) == Find(inner, Inner(i, true), 0, [0, 0]);
  }

  lemma FindInside(inner: Prog, i: Instance)
    requires inner == Call(i, true, true, Write(true, Done), false, true, Done)
    ensures Find(inner, Inner(i, true), 0, [0, 0]) == Some((Write(true, Done), Inner(i, true)))
  {
    assert [0, 0][1..] == [0];
    assert Find(inner, Inner(i, true), 0, [0, 0]) == Find(Write(true, Done), Inner(i, true), 0, [0]);
  }
}
