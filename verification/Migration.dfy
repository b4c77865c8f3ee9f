/**
The migrator: collects migrations from sources, sorts them by id, and, under a lock, runs each one
that is not recorded yet in a transaction of its own, together with the insertion of its record.
*/
module Migration {
  import opened Options
  import opened QuerySplit
  import opened StringOrder

  /** A migration; what matters of the effect of its text is whether it creates the migration table. */
  datatype Migration = Migration(id: string, sql: string, createsTable: bool)

  datatype Source = Failing | Source(migrations: seq<Migration>)

  datatype Error = SourceFailed | LockFailed | ReadFailed | MigrationFailed

  const TABLE_DDL := Migration(
    "0000-00-00-000-create-migration-table", "create table if not exists migration (\n id text primary key\n);", true)

  predicate Blank(m: Migration) {
    Trim(m.sql) == ""
  }

  // ------------------------------------------------------------------ sorting

  ghost predicate Sorted(ids: seq<string>) {
    forall i, j :: 0 <= i < j < |ids| ==> !Less(ids[j], ids[i])
  }

  function Ids(ms: seq<Migration>): (r: seq<string>)
    ensures |r| == |ms| && forall i :: 0 <= i < |ms| ==> r[i] == ms[i].id
  {
    seq(|ms|, i requires 0 <= i < |ms| => ms[i].id)
  }

  /**
  A sorted sequence is determined by its elements: however the migrations were grouped, the order of
  ids is the same.
  */
  lemma {:induction false} SortedIsUnique(a: seq<string>, b: seq<string>)
    requires Sorted(a) && Sorted(b) && multiset(a) == multiset(b)
    ensures a == b
    decreases |a|
  {
    SameLength(a, b);
    if a != [] {
      var n := |a| - 1;
      SameLast(a, b);
      WithoutLast(a);
      WithoutLast(b);
      SortedPrefix(a);
      SortedPrefix(b);
      SortedIsUnique(a[..n], b[..n]);
      Joined(a, b);
    }
  }

  lemma SortedPrefix(a: seq<string>)
    requires Sorted(a) && a != []
    ensures Sorted(a[..|a| - 1])
  {
  }

  lemma Joined(a: seq<string>, b: seq<string>)
    requires |a| == |b| > 0 && a[..|a| - 1] == b[..|b| - 1] && a[|a| - 1] == b[|b| - 1]
    ensures a == b
  {
    var n := |a| - 1;
    assert a == a[..n] + [a[n]] && b == b[..n] + [b[n]];
  }

  lemma SameLength(a: seq<string>, b: seq<string>)
    requires multiset(a) == multiset(b)
    ensures |a| == |b|
  {
    assert |multiset(a)| == |a| && |multiset(b)| == |b|;
  }

  lemma SameLast(a: seq<string>, b: seq<string>)
    requires Sorted(a) && Sorted(b) && multiset(a) == multiset(b) && |a| == |b| > 0
    ensures a[|a| - 1] == b[|b| - 1]
  {
    var x, y := a[|a| - 1], b[|b| - 1];
    assert x in multiset(a) && y in multiset(b);
    LastIsGreatest(a, y);
    LastIsGreatest(b, x);
    LessTotal(x, y);
  }

  lemma WithoutLast(a: seq<string>)
    requires a != []
    ensures multiset(a[..|a| - 1]) == multiset(a) - multiset{a[|a| - 1]}
  {
    assert a == a[..|a| - 1] + [a[|a| - 1]];
  }

  lemma LastIsGreatest(a: seq<string>, x: string)
    requires Sorted(a) && a != [] && x in multiset(a)
    ensures !Less(a[|a| - 1], x)
  {
    var i :| 0 <= i < |a| && a[i] == x;
    LessIrreflexive(x);
  }

  function InsertId(ids: seq<string>, x: string): seq<string> {
    if ids == [] || !Less(x, ids[|ids| - 1]) then ids + [x]
    else InsertId(ids[..|ids| - 1], x) + [ids[|ids| - 1]]
  }

  function SortIds(ids: seq<string>): seq<string> {
    if ids == [] then [] else InsertId(SortIds(ids[..|ids| - 1]), ids[|ids| - 1])
  }

  lemma {:induction false} InsertIdSorts(ids: seq<string>, x: string)
    requires Sorted(ids)
    ensures Sorted(InsertId(ids, x)) && multiset(InsertId(ids, x)) == multiset(ids) + multiset{x}
    decreases |ids|
  {
    if ids != [] {
      var n := |ids| - 1;
      var front, last := ids[..n], ids[n];
      assert ids == front + [last];
      if Less(x, last) {
        InsertIdSorts(front, x);
        var r := InsertId(front, x);
        forall i | 0 <= i < |r| ensures !Less(last, r[i]) {
          assert r[i] in multiset(r);
          LessIrreflexive(x);
          if Less(last, x) { LessTransitive(x, last, x); }
          assert r[i] == x || r[i] in multiset(front);
        }
      } else {
        forall i | 0 <= i < |ids| ensures !Less(x, ids[i]) {
          if i < n { NotLess(ids[i], last, x); }
        }
      }
    }
  }

  lemma {:induction false} SortIdsSorts(ids: seq<string>)
    ensures Sorted(SortIds(ids)) && multiset(SortIds(ids)) == multiset(ids)
    decreases |ids|
  {
    if ids != [] {
      var n := |ids| - 1;
      SortIdsSorts(ids[..n]);
      InsertIdSorts(SortIds(ids[..n]), ids[n]);
      assert ids == ids[..n] + [ids[n]];
    }
  }

  // ------------------------------------------------------------------ what a run is to do

  ghost predicate NoneFails(sources: seq<Source>) {
    forall i :: 0 <= i < |sources| ==> !sources[i].Failing?
  }

  /** The migrations of all sources, in the order of the sources. */
  function Flatten(sources: seq<Source>): seq<Migration> {
    if sources == [] then []
    else
      var n := |sources| - 1;
      Flatten(sources[..n]) + if sources[n].Failing? then [] else sources[n].migrations
  }

  /** The migrations of all sources and the one of the migration table. */
  function Collected(sources: seq<Source>): seq<Migration> {
    Flatten(sources + [Source([TABLE_DDL])])
  }

  function Pending(ids: seq<string>, recorded: set<string>): seq<string> {
    if ids == [] then []
    else Pending(ids[..|ids| - 1], recorded) + if ids[|ids| - 1] in recorded then [] else [ids[|ids| - 1]]
  }

  /**
  The ids a run has to execute, in order: those of its sources and of the table's own migration that
  are not recorded.
  */
  function Plan(sources: seq<Source>, recorded: set<string>): seq<string> {
    Pending(SortIds(Ids(Collected(sources))), recorded)
  }

  function Elements(ids: seq<string>): set<string> {
    set x | x in ids
  }

  ghost predicate Distinct(ids: seq<string>) {
    forall i, j :: 0 <= i < j < |ids| ==> ids[i] != ids[j]
  }

  // ------------------------------------------------------------------ the migrator

  class Migrator {
    var hasTable: bool
    var recorded: set<string>   // the migration table
    var bodies: seq<string>     // ids whose body was committed, in order
    var queries: seq<string>    // the committed queries, in order
    var locked: bool            // this migrator holds the session lock
    var faults: nat             // how many more calls of the database may fail

    /** What is recorded is what was committed, and nothing was committed twice. */
    ghost predicate Valid()
      reads this
    {
      && (!hasTable ==> recorded == {})
      && recorded == Elements(bodies)
      && Distinct(bodies)
    }

    constructor (faults: nat)
      ensures Valid() && bodies == [] && !hasTable && !locked && this.faults == faults
    {
      hasTable, recorded, bodies, queries := false, {}, [], [];
      this.locked, this.faults := false, faults;
    }

    method Try() returns (ok: bool)
      modifies this`faults
      ensures faults == if ok then old(faults) else old(faults) - 1
      ensures old(faults) == 0 ==> ok
    {
      ok := true;
      if faults > 0 {
        ok := *;
        if !ok {
          faults := faults - 1;
        }
      }
    }

    /** The recorded ids; none if the table does not exist. */
    method PerformedIds() returns (ok: bool, performed: set<string>)
      requires locked && Valid()
      modifies this`faults
      ensures faults <= old(faults) && (!ok ==> faults < old(faults))
      ensures ok ==> performed == recorded
    {
      performed := {};
      ok := Try();
      if ok && hasTable {
        performed := recorded;
      }
    }

    /** Runs one migration in a transaction; everything it did is undone unless the commit succeeds. */
    method Perform(m: Migration) returns (ok: bool)
      requires locked && Valid()
      modifies this`hasTable, this`recorded, this`bodies, this`queries, this`faults
      ensures Valid() && faults <= old(faults)
      ensures ok ==> bodies == old(bodies) + [m.id] && m.id !in old(recorded)
      ensures ok ==> (old(hasTable) || m.createsTable) && !Blank(m)
      ensures hasTable == (old(hasTable) || (ok && m.createsTable))
      ensures queries == old(queries) + if ok then Queries(Trim(m.sql)) else []
      ensures ok ==> queries != old(queries)
      ensures !ok ==> bodies == old(bodies) && recorded == old(recorded)
      ensures !ok ==> faults < old(faults) || Blank(m) || m.id in recorded || !(hasTable || m.createsTable)
    {
      ok := Try();  // begin
      if !ok {
        return;
      }
      var sql := Trim(m.sql);
      if sql == "" {
        return false;
      }
      var inTx;
      ok, inTx := PerformQueries(sql);
      if !ok {
        return;
      }
      TextHasQuery(m.sql);
      var tableInTx := hasTable || m.createsTable;
      if !tableInTx || m.id in recorded {
        return false;  // the record cannot be inserted: no table, or its primary key is taken
      }
      ok := Try();  // the record
      if !ok {
        return;
      }
      ok := Try();  // the commit
      if !ok {
        return;
      }
      hasTable := tableInTx;
      recorded := recorded + {m.id};
      bodies := bodies + [m.id];
      queries := queries + inTx;
    }

    /** Executes the queries of a text in the open transaction, up to the first failure. */
    method PerformQueries(sql: string) returns (ok: bool, inTx: seq<string>)
      modifies this`faults
      ensures faults <= old(faults) && (!ok ==> faults < old(faults))
      ensures if ok then inTx == Queries(sql) else inTx < Queries(sql)
    {
      var all := SplitIntoQueries(sql);
      inTx := [];
      for i := 0 to |all|
        invariant faults <= old(faults) && inTx == all[..i]
      {
        ok := Try();
        if !ok {
          return;
        }
        inTx := inTx + [all[i]];
        assert all[..i + 1] == all[..i] + [all[i]];
      }
      assert all[..|all|] == all;
      ok := true;
    }

    /** The first i migrations of the list are done, where `before` was committed at the beginning. */
    ghost predicate Midway(ms: seq<Migration>, i: nat, before: seq<string>, hadTable: bool)
      requires i <= |ms|
      reads this
    {
      && Valid() && bodies == before + Pending(Ids(ms[..i]), Elements(before))
      && (if i == 0 then hasTable == hadTable else hasTable && (hadTable || ms[0].createsTable))
      && (!hadTable ==> Elements(before) == {})
    }

    /** Runs migration i of the list, if it is not recorded. */
    method PerformNext(ms: seq<Migration>, i: nat, performed: set<string>, ghost before: seq<string>,
        ghost hadTable: bool) returns (ok: bool)
      requires locked && i < |ms| && performed == Elements(before) && Midway(ms, i, before, hadTable)
      modifies this`hasTable, this`recorded, this`bodies, this`queries, this`faults
      ensures faults <= old(faults) && Valid()
      ensures ok ==> Midway(ms, i + 1, before, hadTable)
      ensures !ok ==> CommittedPrefix(before, bodies, Pending(Ids(ms), performed))
      ensures !ok && faults == old(faults) && Clean(ms) ==> !hadTable && !ms[0].createsTable
    {
      PendingStep(ms, i, performed);
      ok := true;
      if ms[i].id !in performed {
        ok := Perform(ms[i]);
        if !ok { StoppedAt(ms, i, performed, before, bodies); }
      }
    }

    /** Runs the migrations of a list that are not recorded, in order, up to the first failure. */
    method PerformAll(ms: seq<Migration>) returns (err: Option<Error>)
      requires locked && Valid()
      modifies this`hasTable, this`recorded, this`bodies, this`queries, this`faults
      ensures Valid() && faults <= old(faults)
      ensures err.None? ==> bodies == old(bodies) + Pending(Ids(ms), old(recorded))
      ensures err.Some? ==> CommittedPrefix(old(bodies), bodies, Pending(Ids(ms), old(recorded)))
      ensures err.Some? ==> err.value.ReadFailed? || err.value.MigrationFailed?
      ensures faults == old(faults) && Clean(ms) ==>
                (err.None? <==> old(hasTable) || ms == [] || ms[0].createsTable)
    {
      var ok, performed := PerformedIds();
      if !ok {
        NothingCommitted(bodies, Pending(Ids(ms), recorded));
        return Some(ReadFailed);
      }
      for i := 0 to |ms|
        invariant faults <= old(faults) && Midway(ms, i, old(bodies), old(hasTable))
      {
        ok := PerformNext(ms, i, performed, old(bodies), old(hasTable));
        if !ok {
          return Some(MigrationFailed);
        }
      }
      assert ms[..|ms|] == ms;
      err := None;
    }

    /**
    One run of the migrator. If it fails, at any point, it has committed exactly a prefix of its plan;
    if it succeeds, all of it.
    */
    method Execute(sources: seq<Source>) returns (err: Option<Error>)
      requires !locked && Valid()
      modifies this
      ensures !locked && Valid() && faults <= old(faults)
      ensures sources == [] ==> err.None? && bodies == old(bodies) && recorded == old(recorded)
      ensures sources != [] && err.None? ==> bodies == old(bodies) + Plan(sources, old(recorded))
      ensures err.Some? ==> CommittedPrefix(old(bodies), bodies, Plan(sources, old(recorded)))
      ensures err == Some(SourceFailed) <==> !NoneFails(sources)
      ensures err in {Some(SourceFailed), Some(LockFailed)} ==> bodies == old(bodies)
      ensures faults == old(faults) && NoneFails(sources) && Clean(Collected(sources)) ==>
                (err.None? <==> sources == [] || old(hasTable) || BeginsWithTable(Collected(sources)))
    {
      NothingCommitted(bodies, Plan(sources, recorded));
      if |sources| == 0 {
        return None;
      }
      var collected, migrations := Collect(sources);
      if !collected {
        return Some(SourceFailed);
      }
      var sorted := SortById(migrations);
      locked := Try();
      if !locked {
        return Some(LockFailed);
      }
      SortedIsAsGood(migrations, sorted);
      err := PerformAll(sorted);
      var released := Try();  // a failed release is logged
      locked := false;
    }
  }

  /** The migrations of all sources and of the table, unless a source fails. */
  method Collect(sources: seq<Source>) returns (ok: bool, migrations: seq<Migration>)
    ensures ok <==> NoneFails(sources)
    ensures ok ==> migrations == Collected(sources)
  {
    var all := sources + [Source([TABLE_DDL])];
    migrations := [];
    for i := 0 to |all|
      invariant migrations == Flatten(all[..i]) && forall k :: 0 <= k < i ==> !all[k].Failing?
    {
      if all[i].Failing? {
        assert i < |sources| && sources[i] == all[i];
        return false, [];
      }
      assert all[..i + 1][..i] == all[..i];
      migrations := migrations + all[i].migrations;
    }
    assert all[..|all|] == all;
    assert forall k :: 0 <= k < |sources| ==> sources[k] == all[k];
    ok := true;
  }

  /** Sorts by id; migrations with equal ids may end up in any order. */
  method SortById(ms: seq<Migration>) returns (sorted: seq<Migration>)
    ensures Ids(sorted) == SortIds(Ids(ms)) && multiset(sorted) == multiset(ms)
  {
    sorted := [];
    for i := 0 to |ms|
      invariant Sorted(Ids(sorted)) && multiset(sorted) == multiset(ms[..i]) &&
                multiset(Ids(sorted)) == multiset(Ids(ms[..i]))
    {
      var k: int := |sorted|;
      while k > 0 && Less(ms[i].id, sorted[k - 1].id)
        invariant 0 <= k <= |sorted|
        invariant forall j :: k <= j < |sorted| ==> Less(ms[i].id, sorted[j].id)
      {
        k := k - 1;
      }
      InsertedAt(sorted, k, ms[i]);
      sorted := sorted[..k] + [ms[i]] + sorted[k..];
      OneMore(ms, i);
    }
    assert ms[..|ms|] == ms;
    SortIdsSorts(Ids(ms));
    SortedIsUnique(Ids(sorted), SortIds(Ids(ms)));
  }

  /** The migration that comes first creates the migration table. */
  ghost predicate BeginsWithTable(ms: seq<Migration>) {
    exists i :: 0 <= i < |ms| && ms[i].createsTable && forall j :: 0 <= j < |ms| ==> !Less(ms[j].id, ms[i].id)
  }

  lemma FirstIsFirst(ms: seq<Migration>, sorted: seq<Migration>)
    requires Distinct(Ids(ms)) && multiset(sorted) == multiset(ms) && Ids(sorted) == SortIds(Ids(ms))
    ensures BeginsWithTable(ms) <==> sorted != [] && sorted[0].createsTable
  {
    SortIdsSorts(Ids(ms));
    if sorted != [] {
      assert sorted[0] in multiset(ms);
      var k :| 0 <= k < |ms| && ms[k] == sorted[0];
      forall j | 0 <= j < |ms| ensures !Less(ms[j].id, ms[k].id) {
        assert ms[j] in multiset(sorted);
        var i :| 0 <= i < |sorted| && sorted[i] == ms[j];
        LessIrreflexive(ms[k].id);
        assert Ids(sorted)[i] == ms[j].id && Ids(sorted)[0] == ms[k].id;
      }
      if i :| 0 <= i < |ms| && ms[i].createsTable && forall j :: 0 <= j < |ms| ==> !Less(ms[j].id, ms[i].id) {
        LessTotal(ms[i].id, ms[k].id);
        assert Ids(ms)[i] == Ids(ms)[k];
      }
    } else {
      assert |multiset(ms)| == |ms|;
    }
  }

  ghost predicate NoneBeforeTable(sources: seq<Source>) {
    forall i :: 0 <= i < |Flatten(sources)| ==> !Less(Flatten(sources)[i].id, TABLE_DDL.id)
  }

  lemma SortedIsAsGood(ms: seq<Migration>, sorted: seq<Migration>)
    requires multiset(sorted) == multiset(ms) && Ids(sorted) == SortIds(Ids(ms))
    ensures Clean(ms) ==> Clean(sorted) && (BeginsWithTable(ms) <==> sorted != [] && sorted[0].createsTable)
    ensures sorted == [] <==> ms == []
  {
    if Clean(ms) {
      CleanSorted(ms, sorted);
      FirstIsFirst(ms, sorted);
    }
    assert |multiset(ms)| == |ms| && |multiset(sorted)| == |sorted|;
  }

  /** Where no source has an id before the table's own, the table comes first. */
  lemma TableComesFirst(sources: seq<Source>)
    requires NoneBeforeTable(sources)
    ensures BeginsWithTable(Collected(sources))
  {
    var all := Collected(sources);
    assert (sources + [Source([TABLE_DDL])])[..|sources|] == sources;
    assert all == Flatten(sources) + [TABLE_DDL];
    assert all[|all| - 1] == TABLE_DDL;
    LessIrreflexive(TABLE_DDL.id);
    forall j | 0 <= j < |all| ensures !Less(all[j].id, all[|all| - 1].id) {
      if j < |Flatten(sources)| { assert all[j] == Flatten(sources)[j]; }
    }
  }

  lemma OneMore(ms: seq<Migration>, i: nat)
    requires i < |ms|
    ensures multiset(ms[..i + 1]) == multiset(ms[..i]) + multiset{ms[i]}
    ensures multiset(Ids(ms[..i + 1])) == multiset(Ids(ms[..i])) + multiset{ms[i].id}
  {
    assert ms[..i + 1] == ms[..i] + [ms[i]];
    assert Ids(ms[..i + 1]) == Ids(ms[..i]) + [ms[i].id];
  }

  lemma InsertedAt(sorted: seq<Migration>, k: nat, m: Migration)
    requires Sorted(Ids(sorted)) && k <= |sorted|
    requires k > 0 ==> !Less(m.id, sorted[k - 1].id)
    requires forall j :: k <= j < |sorted| ==> Less(m.id, sorted[j].id)
    ensures var r := sorted[..k] + [m] + sorted[k..];
            && Sorted(Ids(r)) && multiset(r) == multiset(sorted) + multiset{m}
            && multiset(Ids(r)) == multiset(Ids(sorted)) + multiset{m.id}
  {
    var r := sorted[..k] + [m] + sorted[k..];
    var ids := Ids(sorted);
    assert Ids(r) == ids[..k] + [m.id] + ids[k..];
    InsertedSorted(ids, k, m.id);
    InsertedElements(sorted, k, m);
    InsertedElements(ids, k, m.id);
  }

  lemma InsertedElements<T>(s: seq<T>, k: nat, x: T)
    requires k <= |s|
    ensures multiset(s[..k] + [x] + s[k..]) == multiset(s) + multiset{x}
  {
    assert s == s[..k] + s[k..];
  }

  lemma InsertedSorted(ids: seq<string>, k: nat, x: string)
    requires Sorted(ids) && k <= |ids|
    requires k > 0 ==> !Less(x, ids[k - 1])
    requires forall j :: k <= j < |ids| ==> Less(x, ids[j])
    ensures Sorted(ids[..k] + [x] + ids[k..])
  {
    forall i | 0 <= i < k ensures !Less(x, ids[i]) {
      if i < k - 1 { NotLess(ids[i], ids[k - 1], x); }
    }
    forall j | k <= j < |ids| ensures !Less(ids[j], x) {
      LessIrreflexive(x);
      if Less(ids[j], x) { LessTransitive(x, ids[j], x); }
    }
  }

  // ---- about plans

  ghost predicate CommittedPrefix(before: seq<string>, after: seq<string>, plan: seq<string>) {
    exists n :: 0 <= n <= |plan| && after == before + plan[..n]
  }

  lemma NothingCommitted(before: seq<string>, plan: seq<string>)
    ensures CommittedPrefix(before, before, plan)
  {
    assert before == before + plan[..0];
  }

  /** Nothing in the list is bound to fail. */
  ghost predicate Clean(ms: seq<Migration>) {
    Distinct(Ids(ms)) && forall i :: 0 <= i < |ms| ==> !Blank(ms[i])
  }

  lemma CleanSorted(ms: seq<Migration>, sorted: seq<Migration>)
    requires Clean(ms) && multiset(sorted) == multiset(ms)
    ensures Clean(sorted)
  {
    forall i | 0 <= i < |sorted| ensures !Blank(sorted[i]) {
      assert sorted[i] in multiset(ms);
    }
    forall i, j | 0 <= i < j < |sorted| ensures sorted[i].id != sorted[j].id {
      if sorted[i].id == sorted[j].id {
        assert sorted[i] in multiset(ms) && sorted[j] in multiset(ms);
        var a :| 0 <= a < |ms| && ms[a] == sorted[i];
        var b :| 0 <= b < |ms| && ms[b] == sorted[j];
        assert a == b by { assert Ids(ms)[a] == Ids(ms)[b]; }
        OnceInClean(ms, a);
        TwiceInSorted(sorted, i, j);
      }
    }
  }

  lemma OnceInClean(ms: seq<Migration>, a: nat)
    requires Distinct(Ids(ms)) && a < |ms|
    ensures multiset(ms)[ms[a]] <= 1
  {
    assert ms == ms[..a] + [ms[a]] + ms[a + 1..];
    assert ms[a] !in ms[..a] by { assert forall k :: 0 <= k < a ==> Ids(ms)[k] != Ids(ms)[a]; }
    assert ms[a] !in ms[a + 1..] by { assert forall k :: a < k < |ms| ==> Ids(ms)[a] != Ids(ms)[k]; }
  }

  lemma TwiceInSorted(s: seq<Migration>, i: nat, j: nat)
    requires i < j < |s| && s[i] == s[j]
    ensures multiset(s)[s[i]] >= 2
  {
    assert s == s[..j] + [s[j]] + s[j + 1..];
    assert s[..j][i] == s[i];
    assert s[i] in multiset(s[..j]);
  }

  lemma PendingStep(ms: seq<Migration>, i: nat, performed: set<string>)
    requires i < |ms|
    ensures Pending(Ids(ms[..i + 1]), performed) == Pending(Ids(ms[..i]), performed)
            + if ms[i].id in performed then [] else [ms[i].id]
  {
    assert Ids(ms[..i + 1])[..i] == Ids(ms[..i]);
  }

  lemma {:induction false} PendingPrefix(ms: seq<Migration>, i: nat, performed: set<string>)
    requires i <= |ms|
    ensures Pending(Ids(ms[..i]), performed) <= Pending(Ids(ms), performed)
    decreases |ms| - i
  {
    if i < |ms| {
      PendingStep(ms, i, performed);
      PendingPrefix(ms, i + 1, performed);
    } else {
      assert ms[..i] == ms;
    }
  }

  lemma {:induction false} PendingIn(ids: seq<string>, recorded: set<string>, x: string)
    ensures x in Pending(ids, recorded) <==> x in ids && x !in recorded
    decreases |ids|
  {
    if ids != [] {
      var n := |ids| - 1;
      PendingIn(ids[..n], recorded, x);
      assert ids == ids[..n] + [ids[n]];
    }
  }

  lemma NotYetDone(ms: seq<Migration>, i: nat, performed: set<string>, before: seq<string>, bodies: seq<string>)
    requires i < |ms| && Distinct(Ids(ms)) && ms[i].id !in performed && performed == Elements(before)
    requires bodies == before + Pending(Ids(ms[..i]), performed)
    ensures ms[i].id !in bodies
  {
    PendingIn(Ids(ms[..i]), performed, ms[i].id);
    assert forall k :: 0 <= k < i ==> Ids(ms)[k] != Ids(ms)[i];
  }

  lemma StoppedAt(ms: seq<Migration>, i: nat, performed: set<string>, before: seq<string>, bodies: seq<string>)
    requires i < |ms| && ms[i].id !in performed && performed == Elements(before)
    requires bodies == before + Pending(Ids(ms[..i]), performed)
    ensures CommittedPrefix(before, bodies, Pending(Ids(ms), performed))
    ensures Clean(ms) ==> ms[i].id !in Elements(bodies) && !Blank(ms[i])
  {
    PendingPrefix(ms, i, performed);
    var done := Pending(Ids(ms[..i]), performed);
    assert bodies == before + Pending(Ids(ms), performed)[..|done|];
    if Clean(ms) { NotYetDone(ms, i, performed, before, bodies); }
  }

  // ------------------------------------------------------------------ results over runs

  /** After a successful run everything it was given is recorded, so its plan is empty: repeating it changes nothing. */
  lemma RepeatChangesNothing(sources: seq<Source>, recorded: set<string>)
    ensures Plan(sources, recorded + Elements(Plan(sources, recorded))) == []
  {
    var ids := SortIds(Ids(Collected(sources)));
    var later := recorded + Elements(Pending(ids, recorded));
    if Pending(ids, later) != [] {
      var x := Pending(ids, later)[0];
      PendingIn(ids, later, x);
      PendingIn(ids, recorded, x);
    }
  }

  /** The plan depends only on which migrations there are, not on how they are grouped into sources. */
  lemma GroupingDoesNotMatter(a: seq<Source>, b: seq<Source>, recorded: set<string>)
    requires multiset(Ids(Collected(a))) == multiset(Ids(Collected(b)))
    ensures Plan(a, recorded) == Plan(b, recorded)
  {
    var x, y := Ids(Collected(a)), Ids(Collected(b));
    SortIdsSorts(x);
    SortIdsSorts(y);
    SortedIsUnique(SortIds(x), SortIds(y));
  }

  /**
  Any number of runs, each with its own sources, whatever fails: what is recorded is what was
  committed, once each.
  */
  method ExecuteMany(runs: seq<seq<Source>>, faults: nat)
      returns (recorded: set<string>, bodies: seq<string>, failed: nat)
    ensures recorded == Elements(bodies) && Distinct(bodies)
    ensures failed <= |runs|
  {
    var m := new Migrator(faults);
    failed := 0;
    for i := 0 to |runs|
      invariant m.Valid() && !m.locked && failed <= i
    {
      var err := m.Execute(runs[i]);
      if err.Some? {
        failed := failed + 1;
      }
    }
    recorded, bodies := m.recorded, m.bodies;
  }

  /**
  The first run on an empty database, with nothing failing: it succeeds, and executes every migration of its
  sources after the one for its own table, if no source has an id before that one.
  */
  method FirstRun(sources: seq<Source>) returns (ok: bool, bodies: seq<string>)
    requires NoneFails(sources) && Clean(Collected(sources))
    ensures ok <==> sources == [] || BeginsWithTable(Collected(sources))
    ensures NoneBeforeTable(sources) ==> ok
    ensures ok && sources != [] ==> bodies == SortIds(Ids(Collected(sources)))
  {
    var m := new Migrator(0);
    if NoneBeforeTable(sources) { TableComesFirst(sources); }
    var err := m.Execute(sources);
    ok, bodies := err.None?, m.bodies;
    AllPending(SortIds(Ids(Collected(sources))));
  }

  lemma {:induction false} AllPending(ids: seq<string>)
    ensures Pending(ids, {}) == ids
    decreases |ids|
  {
    if ids != [] {
      AllPending(ids[..|ids| - 1]);
    }
  }

  /** Repeating a successful run, whatever ran before it and whatever fails in the repetition, commits nothing. */
  method RepeatSuccessful(earlier: seq<seq<Source>>, sources: seq<Source>, faults: nat)
    returns (ok: bool, once: seq<string>, twice: seq<string>)
    ensures ok ==> twice == once && forall x :: x in Ids(Flatten(sources)) ==> x in once
  {
    var m := new Migrator(faults);
    for i := 0 to |earlier|
      invariant m.Valid() && !m.locked
    {
      var err := m.Execute(earlier[i]);
    }
    ghost var recorded := m.recorded;
    var err := m.Execute(sources);
    ok, once := err.None?, m.bodies;
    if ok && sources != [] {
      AfterSuccess(sources, recorded, m.recorded);
    }
    err := m.Execute(sources);
    twice := m.bodies;
  }

  lemma AfterSuccess(sources: seq<Source>, before: set<string>, after: set<string>)
    requires after == before + Elements(Plan(sources, before))
    ensures Plan(sources, after) == []
    ensures forall x :: x in Ids(Flatten(sources)) ==> x in after
  {
    RepeatChangesNothing(sources, before);
    forall x | x in Ids(Flatten(sources)) ensures x in after {
      IdIsSorted(sources, x);
      PendingIn(SortIds(Ids(Collected(sources))), before, x);
    }
  }

  lemma IdIsSorted(sources: seq<Source>, x: string)
    requires x in Ids(Flatten(sources))
    ensures x in SortIds(Ids(Collected(sources)))
  {
    var all := Collected(sources);
    assert (sources + [Source([TABLE_DDL])])[..|sources|] == sources;
    assert all == Flatten(sources) + [TABLE_DDL];
    var i :| 0 <= i < |Flatten(sources)| && Ids(Flatten(sources))[i] == x;
    assert Ids(all)[i] == x;
    SortIdsSorts(Ids(all));
    assert x in multiset(SortIds(Ids(all)));
  }
}
