/**
The message table: rows with a primary key and a schedule time.

Only the schedule matters to the loops over the table, so a table is a map from keys to times.
*/
module MessageStorage {

  type Time = int

  predicate Eligible<K(==)>(schedule: map<K, Time>, excluded: set<K>, now: Time, k: K) {
    k in schedule && schedule[k] <= now && k !in excluded
  }

  /**
  What a query may return: eligible rows, each once, ordered by time (rows with equal times in any
  order), all of them or, if a positive limit is given, that many of the earliest.
  */
  predicate IsFound<K(==)>(schedule: map<K, Time>, excluded: set<K>, now: Time, limit: int, found: seq<K>) {
    && (forall i, j :: 0 <= i < j < |found| ==> found[i] != found[j])
    && (forall i :: 0 <= i < |found| ==> Eligible(schedule, excluded, now, found[i]))
    && (forall i, j :: 0 <= i < j < |found| ==> schedule[found[i]] <= schedule[found[j]])
    && (limit > 0 ==> |found| <= limit)
    && (forall k :: k in schedule && Eligible(schedule, excluded, now, k) && k !in found ==>
          limit > 0 && |found| == limit && forall i :: 0 <= i < |found| ==> schedule[found[i]] <= schedule[k])
  }

  /** One of the earliest keys of a nonempty set. */
  method Earliest<K(==)>(schedule: map<K, Time>, keys: set<K>) returns (first: K)
    requires keys != {} && keys <= schedule.Keys
    ensures first in keys && forall k :: k in keys ==> schedule[first] <= schedule[k]
  {
    first :| first in keys;
    var rest := keys - {first};
    while rest != {}
      invariant first in keys && rest <= keys
      invariant forall k :: k in keys - rest ==> schedule[first] <= schedule[k]
      decreases |rest|
    {
      var k :| k in rest;
      if schedule[k] < schedule[first] {
        first := k;
      }
      rest := rest - {k};
    }
  }

  method Find<K(==)>(schedule: map<K, Time>, excluded: set<K>, now: Time, limit: int) returns (found: seq<K>)
    ensures IsFound(schedule, excluded, now, limit, found)
  {
    found := [];
    var rest := set k | k in schedule && Eligible(schedule, excluded, now, k);
    while rest != {} && (limit <= 0 || |found| < limit)
      invariant forall k :: k in rest ==> Eligible(schedule, excluded, now, k) && k !in found
      invariant forall k :: k in schedule && Eligible(schedule, excluded, now, k) ==> k in rest || k in found
      invariant forall i :: 0 <= i < |found| ==> Eligible(schedule, excluded, now, found[i])
      invariant forall i, j :: 0 <= i < j < |found| ==> found[i] != found[j]
      invariant forall i, j :: 0 <= i < j < |found| ==> schedule[found[i]] <= schedule[found[j]]
      invariant forall i, k :: 0 <= i < |found| && k in rest ==> schedule[found[i]] <= schedule[k]
      invariant limit > 0 ==> |found| <= limit
      decreases |rest|
    {
      var k := Earliest(schedule, rest);
      found := found + [k];
      rest := rest - {k};
    }
  }

  /** A query that returns nothing means nothing is due, for every limit. */
  lemma NothingFoundNothingDue<K>(schedule: map<K, Time>, excluded: set<K>, now: Time, limit: int, k: K)
    requires IsFound(schedule, excluded, now, limit, [])
    ensures !Eligible(schedule, excluded, now, k)
  {
    ShortResultIsComplete(schedule, excluded, now, limit, [], k);
  }

  /** A query whose result is shorter than its limit, or has no limit, returned everything that is due. */
  lemma ShortResultIsComplete<K>(schedule: map<K, Time>, excluded: set<K>, now: Time, limit: int, found: seq<K>, k: K)
    requires IsFound(schedule, excluded, now, limit, found) && (limit <= 0 || |found| < limit)
    ensures Eligible(schedule, excluded, now, k) ==> k in found
  {
  }

  /** With distinct times, what a query returns is the head of the table's order: nothing left out comes earlier. */
  lemma FoundIsHead<K>(schedule: map<K, Time>, now: Time, limit: int, found: seq<K>, k: K, i: nat)
    requires IsFound(schedule, {}, now, limit, found) && i < |found|
    requires k in schedule && k !in found
    ensures schedule[found[i]] <= schedule[k]
  {
    if schedule[k] <= now {
      assert Eligible(schedule, {}, now, k);
    }
  }
}
