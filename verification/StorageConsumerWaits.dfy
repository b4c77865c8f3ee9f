/**
Which waits of a storage consumer return. A batch that waits is doomed when an id it waits for will
never be removed, or when the last signal is gone and it is about to sleep or asleep. In every
reachable state a waiting batch can still pass if and only if it is not doomed.
*/
module StorageConsumerWaits {
  import opened Runs
  import opened MessageStorage
  import opened StorageConsumer
  import L = Listener

  /** The goroutine of copy m can still acknowledge it positively: after cancellation no new round begins. */
  predicate Open(l: L.State, m: nat) {
    l.cancelled ==> m < |l.procs| && (l.procs[m].pc.Handling? || l.procs[m].pc == L.Acking(true))
  }

  predicate Hopeful(x: Consumer, m: nat) {
    Flying(x, m) && Open(x.l, m)
  }

  predicate HopefulFor(x: Consumer, id: Id, m: nat) {
    m < |x.ids| && x.ids[m] == id && Hopeful(x, m)
  }

  /** An id that is marked as being processed although no copy of it can be acknowledged any more. */
  ghost predicate Stale(x: Consumer, id: Id) {
    id in x.processing && forall m: nat :: !HopefulFor(x, id, m)
  }

  /** Everything is done, nobody is left to signal, and the batch has decided to sleep. */
  ghost predicate Missed(x: Consumer) {
    (x.pc.Dozing? || x.pc.Asleep?) && x.processing == {} && x.acking == map[]
  }

  ghost predicate Doomed(x: Consumer) {
    Waiting(x.pc) && (Missed(x) || exists id :: Stale(x, id))
  }

  // ------------------------------------------------------------------ a doomed batch never passes

  lemma OpenIsNotRegained(l: L.State, t: L.Step, m: nat)
    requires Open(L.Next(l, t), m)
    ensures Open(l, m)
  {
  }

  /**
  A step after which flying copies were flying before and have the listener they had, or the next one,
  loses hope only.
  */
  lemma StaleStays(x: Consumer, d: Consumer, id: Id)
    requires Stale(x, id) && d.ids == x.ids && id in d.processing
    requires forall m: nat :: Hopeful(d, m) ==> Hopeful(x, m)
    ensures Stale(d, id)
  {
    forall m: nat ensures !HopefulFor(d, id, m) {
      assert !HopefulFor(x, id, m);
    }
  }

  lemma AnswerLosesHope(x: Consumer, p: nat)
    requires CopiesOk(x) && p in x.acking
    ensures forall m: nat :: Hopeful(Answer(x, p), m) ==> Hopeful(x, m) && m != p
  {
    AnswerKeepsCopies(x, p);
    forall m: nat | Hopeful(Answer(x, p), m) ensures Hopeful(x, m) && m != p {
      OpenIsNotRegained(x.l, L.BrokerAnswer(p, true), m);
    }
  }

  lemma SignalLosesHope(x: Consumer, p: nat)
    requires CopiesOk(x) && p in x.acking
    ensures forall m: nat :: Hopeful(Signalled(x, p), m) ==> Hopeful(x, m)
  {
    var e := if x.pc.Asleep? then x.(pc := Checking) else x;
    CopiesFrame(x, e);
    AnswerLosesHope(e, p);
    assert forall m: nat :: Hopeful(e, m) ==> Hopeful(x, m);
  }

  lemma RemoveLosesHope(x: Consumer, p: nat)
    requires CopiesOk(x) && p in x.acking && p < |x.ids|
    ensures forall m: nat :: Hopeful(Removed(x, p), m) ==> Hopeful(x, m) && m != p
  {
    RemovedKeepsCopies(x, p);
    var e := SetProcessing(x, x.processing - {x.ids[p]});
    if e.processedCount != 0 {
      CopiesFrame(x, e);
      AnswerLosesHope(e, p);
      assert forall m: nat :: Hopeful(e, m) ==> Hopeful(x, m);
    }
  }

  lemma ListenLosesHope(x: Consumer, t: L.Step)
    requires CopiesOk(x) && Free(x, t)
    ensures var d := x.(l := L.Next(x.l, t)); forall m: nat :: Hopeful(d, m) ==> Hopeful(x, m)
  {
    var d := x.(l := L.Next(x.l, t));
    ListenKeepsCopies(x, t);
    forall m: nat | Hopeful(d, m) ensures Hopeful(x, m) {
      OpenIsNotRegained(x.l, t, m);
    }
  }

  lemma RemoveKeepsStale(x: Consumer, p: nat, id: Id)
    requires LocalInv(x) && Stale(x, id) && p in x.acking && x.acking[p].ToRemove? && p < |x.ids|
    ensures Stale(Removed(x, p), id)
  {
    assert Hopeful(x, p);
    assert !HopefulFor(x, id, p);
    RemoveLosesHope(x, p);
    StaleStays(x, Removed(x, p), id);
  }

  lemma OwnStepKeepsStale(x: Consumer, t: Step, id: Id)
    requires LocalInv(x) && Waiting(x.pc) && Stale(x, id)
    ensures Waiting(NextOwn(x, t).pc) && Stale(NextOwn(x, t), id)
  {
    var d := NextOwn(x, t);
    if d == x {
    } else if t.Remove? {
      RemoveKeepsStale(x, t.p, id);
    } else if t.Signal? {
      SignalLosesHope(x, t.p);
      StaleStays(x, d, id);
    } else if t.Listen? {
      ListenLosesHope(x, t.t);
      StaleStays(x, d, id);
    } else {
      StaleStays(x, d, id);
    }
  }

  lemma OtherStepKeepsStale(x: Consumer, t: Step, rows: map<Id, Time>, stores: nat, lockFree: bool, id: Id)
    requires LocalInv(x) && Waiting(x.pc) && Stale(x, id) && !t.Crash?
    ensures var d := NextLocking(x, t, lockFree); Waiting(d.pc) && Stale(d, id)
    ensures var d := NextTable(x, t, rows, stores); Waiting(d.pc) && Stale(d, id)
  {
    assert |x.processing| > 0;
    var d, e := NextLocking(x, t, lockFree), NextTable(x, t, rows, stores);
    StaleStays(x, d, id);
    StaleStays(x, e, id);
  }

  /** Once everything is done no copy is in flight. */
  lemma NothingFlies(x: Consumer, m: nat)
    requires LocalInv(x) && Waiting(x.pc) && x.processing == {}
    ensures !Flying(x, m)
  {
  }

  lemma StepKeepsMissed(s: State, t: Step, c: nat)
    requires c < |s.consumers| && LocalInv(s.consumers[c]) && Missed(s.consumers[c]) && !t.Crash?
    ensures Missed(NextConsumer(s, t, c))
  {
    var x := s.consumers[c];
    if t.Delete? { NothingFlies(x, t.p); }
  }

  lemma StepKeepsDoomed(s: State, t: Step, c: nat)
    requires c < |s.consumers| && LocalInv(s.consumers[c]) && Doomed(s.consumers[c]) && !t.Crash?
    ensures LocalInv(NextConsumer(s, t, c)) && Doomed(NextConsumer(s, t, c))
  {
    var x := s.consumers[c];
    ConsumerStepKeeps(s, t, c);
    if Missed(x) {
      StepKeepsMissed(s, t, c);
    } else {
      var id :| Stale(x, id);
      OwnStepKeepsStale(x, t, id);
      OtherStepKeepsStale(x, t, s.rows, s.stores, s.lock.None?, id);
      assert Stale(NextConsumer(s, t, c), id);
    }
  }

  lemma NextKeepsDoomed(s: State, t: Step, c: nat)
    requires c < |s.consumers| && LocalInv(s.consumers[c]) && Doomed(s.consumers[c]) && t != Crash(c)
    ensures c < |Next(s, t).consumers| && LocalInv(Next(s, t).consumers[c]) && Doomed(Next(s, t).consumers[c])
  {
    ConsumerAfter(s, t, c);
    if !t.Store? && t.c == c { StepKeepsDoomed(s, t, c); }
  }

  ghost predicate NoCrash(steps: seq<Step>, c: nat) {
    forall k :: 0 <= k < |steps| ==> steps[k] != Crash(c)
  }

  /** A doomed batch never passes its wait: in no continuation short of a crash, cancellation included. */
  lemma {:induction false} DoomedForever(s: State, c: nat, steps: seq<Step>)
    requires c < |s.consumers| && LocalInv(s.consumers[c]) && Doomed(s.consumers[c]) && NoCrash(steps, c)
    ensures var s' := Run(Next, s, steps); c < |s'.consumers| && Doomed(s'.consumers[c])
    decreases |steps|
  {
    if steps != [] {
      NextKeepsDoomed(s, steps[0], c);
      DoomedForever(Next(s, steps[0]), c, steps[1..]);
    }
  }

  // ------------------------------------------------------------------ every other batch can pass

  /** How far copy m is from being out of the way. */
  function Weight(x: Consumer, m: nat): nat {
    if m >= |x.l.procs| then 9
    else match x.l.procs[m].pc
      case Deciding => 8
      case Looping => 6
      case Handling => 5
      case Acking(positive) =>
        if !positive then 7 else if m !in x.acking then 4 else if x.acking[m].ToRemove? then 3 else 2
      case Releasing(_) => 0
      case Returned(_) => 0
  }

  function Total(x: Consumer, n: nat): nat {
    if n == 0 then 0 else Total(x, n - 1) + Weight(x, n - 1)
  }

  function Distance(x: Consumer): nat {
    Total(x, |x.ids|) + if x.pc.Dozing? then 1 else 0
  }

  lemma {:induction false} TotalSame(x: Consumer, d: Consumer, n: nat)
    requires forall m: nat :: m < n ==> Weight(d, m) == Weight(x, m)
    ensures Total(d, n) == Total(x, n)
  {
    if n > 0 { TotalSame(x, d, n - 1); }
  }

  lemma {:induction false} TotalDrops(x: Consumer, d: Consumer, n: nat, p: nat)
    requires p < n && Weight(d, p) < Weight(x, p)
    requires forall m: nat :: m < n && m != p ==> Weight(d, m) == Weight(x, m)
    ensures Total(d, n) < Total(x, n)
  {
    if p == n - 1 { TotalSame(x, d, n - 1); } else { TotalDrops(x, d, n - 1, p); }
  }

  /** No id the batch waits for is stale. */
  ghost predicate AllHopeful(x: Consumer) {
    forall id :: id in x.processing ==> exists m: nat :: HopefulFor(x, id, m)
  }

  lemma NotDoomed(x: Consumer)
    requires Waiting(x.pc)
    ensures !Doomed(x) <==> !Missed(x) && AllHopeful(x)
  {
    if AllHopeful(x) {
      forall id ensures !Stale(x, id) {
        if id in x.processing { var m: nat :| HopefulFor(x, id, m); }
      }
    } else {
      var id :| id in x.processing && !exists m: nat :: HopefulFor(x, id, m);
      assert Stale(x, id);
    }
  }

  /** The consumer is nearer to the end of its wait, and still not doomed. */
  ghost predicate Nearer(x: Consumer, d: Consumer) {
    Waiting(d.pc) && !Doomed(d) && Distance(d) < Distance(x)
  }

  /** Copy m is as far as it was, and no hope is lost for it. */
  ghost predicate SameCopy(x: Consumer, d: Consumer, m: nat) {
    Weight(d, m) == Weight(x, m) && (Hopeful(x, m) ==> Hopeful(d, m))
  }

  ghost predicate OthersSame(x: Consumer, d: Consumer, p: nat) {
    forall m: nat :: m != p ==> SameCopy(x, d, m)
  }

  /** A step that moves copy p on, and takes its id out of the marks or does not lose hope for it. */
  lemma MovesNearer(x: Consumer, d: Consumer, p: nat)
    requires AllHopeful(x) && d.ids == x.ids && p < |x.ids| && OthersSame(x, d, p) && Weight(d, p) < Weight(x, p)
    requires forall id :: id in d.processing ==>
             id in x.processing && (id == x.ids[p] ==> Hopeful(d, p) || !Hopeful(x, p))
    requires Waiting(d.pc) && !Missed(d) && (d.pc.Dozing? ==> x.pc.Dozing?)
    ensures Nearer(x, d)
  {
    forall m: nat | m < |x.ids| && m != p ensures Weight(d, m) == Weight(x, m) { assert SameCopy(x, d, m); }
    TotalDrops(x, d, |x.ids|, p);
    forall id | id in d.processing ensures exists m: nat :: HopefulFor(d, id, m) {
      var m: nat :| HopefulFor(x, id, m);
      assert m != p ==> SameCopy(x, d, m);
      assert HopefulFor(d, id, m);
    }
    NotDoomed(d);
  }

  /** A step that only moves copy p on, without losing hope for it. */
  lemma MovedOn(x: Consumer, d: Consumer, p: nat)
    requires Waiting(x.pc) && AllHopeful(x) && x.processing != {}
    requires d.pc == x.pc && d.ids == x.ids && d.processing == x.processing && p < |x.ids|
    requires Weight(d, p) < Weight(x, p) && Hopeful(d, p) && OthersSame(x, d, p)
    ensures Nearer(x, d)
  {
    MovesNearer(x, d, p);
  }

  /** The goroutine of copy m goes on to y. */
  lemma ProcMovedOn(x: Consumer, m: nat, y: L.Proc)
    requires Waiting(x.pc) && AllHopeful(x) && x.processing != {} && Hopeful(x, m) && m < |x.l.procs| && m !in x.acking
    requires var d := x.(l := L.SetProc(x.l, m, y)); Weight(d, m) < Weight(x, m) && Open(d.l, m)
    requires y.pc.Looping? || y.pc.Handling? || y.pc.Acking?
    ensures Nearer(x, x.(l := L.SetProc(x.l, m, y)))
  {
    var d := x.(l := L.SetProc(x.l, m, y));
    forall k: nat | k != m ensures SameCopy(x, d, k) {
      assert k < |x.l.procs| ==> d.l.procs[k] == x.l.procs[k];
    }
    MovedOn(x, d, m);
  }

  /** A batch that is not over and whose mutex is free waits for a copy that can be moved on. */
  lemma SomeHopeful(x: Consumer) returns (m: nat)
    requires LocalInv(x) && Waiting(x.pc) && !Doomed(x) && !CanPass(x) && MutexFree(x)
    ensures x.processing != {} && m < |x.ids| && Hopeful(x, m) && x.ids[m] in x.processing
  {
    NotDoomed(x);
    if x.processing == {} {
      assert x.acking != map[];
      var p :| p in x.acking;
      assert Flying(x, p);
      NothingFlies(x, p);
    }
    var id :| id in x.processing;
    m :| HopefulFor(x, id, m);
  }

  /** The listener's step that moves copy m on, before its acknowledgement. */
  function ListenerStep(l: L.State, m: nat): L.Step {
    if m >= |l.procs| then L.AddProcessing
    else match l.procs[m].pc
      case Deciding => L.Decide(m, L.Skip)
      case Looping => L.Enter(m)
      case Handling => L.FinishRound(m, seq(if l.procs[m].plan.Handle? then l.procs[m].plan.handlers else 0, _ => true))
      case _ => L.Refuse(m)
  }

  lemma CopyIsAddedNext(x: Consumer, m: nat)
    requires CopiesOk(x) && Waiting(x.pc) && AllHopeful(x) && x.processing != {} && m < |x.ids| && Hopeful(x, m) &&
             m >= |x.l.procs|
    ensures Nearer(x, x.(l := L.Next(x.l, L.AddProcessing)))
  {
    assert x.l.worker == L.Worker.Adding(m) && m == |x.l.procs|;
    CopyIsAdded(x);
    var d := x.(l := L.Next(x.l, L.AddProcessing));
    assert d.l.procs == x.l.procs + [L.Proc(m, L.Skip, L.Deciding, [], [])] && d.l.cancelled == x.l.cancelled;
    assert m !in x.acking;
    AddedCopy(x, d, m);
  }

  lemma AddedCopy(x: Consumer, d: Consumer, m: nat)
    requires Waiting(x.pc) && AllHopeful(x) && x.processing != {} && m < |x.ids| && Hopeful(x, m) &&
             m == |x.l.procs| && m !in x.acking
    requires d == x.(l := d.l) && d.l.procs == x.l.procs + [L.Proc(m, L.Skip, L.Deciding, [], [])] &&
             d.l.cancelled == x.l.cancelled
    ensures Nearer(x, d)
  {
    forall k: nat | k != m ensures SameCopy(x, d, k) {
      assert k < |x.l.procs| ==> d.l.procs[k] == x.l.procs[k];
    }
    MovedOn(x, d, m);
  }

  lemma GoroutineMovesOn(x: Consumer, m: nat)
    requires CopiesOk(x) && Waiting(x.pc) && AllHopeful(x) && x.processing != {} && m < |x.ids| && Hopeful(x, m)
    requires m < |x.l.procs| && x.l.procs[m].pc != L.Acking(true)
    ensures Free(x, ListenerStep(x.l, m)) && !ListenerStep(x.l, m).Cancel? &&
            Nearer(x, x.(l := L.Next(x.l, ListenerStep(x.l, m))))
  {
    var p, u := x.l.procs[m], ListenerStep(x.l, m);
    assert L.ProcOk(x.l.kind, p);
    assert m !in x.acking;
    var y := L.Next(x.l, u).procs[m];
    assert p.pc.Handling? ==> L.All(u.results);
    assert L.Next(x.l, u) == L.SetProc(x.l, m, y);
    ProcMovedOn(x, m, y);
  }

  lemma RowIsDeletedNext(x: Consumer, m: nat, stores: nat)
    requires Waiting(x.pc) && AllHopeful(x) && x.processing != {} && m < |x.ids| && Hopeful(x, m) && CanDelete(x, m)
    ensures Nearer(x, Confirm(x, m, stores))
  {
    var d := Confirm(x, m, stores);
    forall k: nat | k != m ensures SameCopy(x, d, k) {
      assert k in d.acking <==> k in x.acking;
    }
    MovedOn(x, d, m);
  }

  /** The acknowledgement of copy p ends: nothing changes for the others. */
  lemma AnswerMovesOn(x: Consumer, p: nat)
    requires CopiesOk(x) && p in x.acking
    ensures var d := Answer(x, p);
            d.ids == x.ids && Weight(d, p) == 0 && Weight(x, p) > 0 && p < |x.ids| && OthersSame(x, d, p)
  {
    var d := Answer(x, p);
    assert x.l.queue.Direct?;
    assert d.l == L.Goto(x.l, p, L.Releasing(true));
    forall m: nat | m != p ensures SameCopy(x, d, m) {
      assert m < |x.l.procs| ==> d.l.procs[m] == x.l.procs[m];
    }
  }

  /** Weights and hope depend on the ids, the listener and the acknowledgements under way alone. */
  lemma CopiesAlike(x: Consumer, e: Consumer, m: nat)
    requires e.ids == x.ids && e.l == x.l && e.acking == x.acking
    ensures Weight(e, m) == Weight(x, m) && (Hopeful(e, m) <==> Hopeful(x, m))
  {
  }

  lemma SameThrough(x: Consumer, e: Consumer, d: Consumer, p: nat)
    requires e.ids == x.ids && e.l == x.l && e.acking == x.acking && OthersSame(e, d, p)
    ensures OthersSame(x, d, p)
  {
    forall m: nat | m != p ensures SameCopy(x, d, m) {
      CopiesAlike(x, e, m);
      assert SameCopy(e, d, m);
    }
  }

  lemma SignalComesNext(x: Consumer, p: nat)
    requires CopiesOk(x) && Waiting(x.pc) && !x.pc.Dozing? && AllHopeful(x) && p in x.acking && x.acking[p].ToSignal?
    ensures Nearer(x, Signalled(x, p))
  {
    var e, d := if x.pc.Asleep? then x.(pc := Checking) else x, Signalled(x, p);
    CopiesFrame(x, e);
    AnswerMovesOn(e, p);
    SameThrough(x, e, d, p);
    CopiesAlike(x, e, p);
    assert !Hopeful(x, p);
    MovesNearer(x, d, p);
  }

  lemma RemovalComesNext(x: Consumer, p: nat)
    requires CopiesOk(x) && Waiting(x.pc) && AllHopeful(x) && p < |x.ids| && p in x.acking && x.acking[p].ToRemove?
    ensures Nearer(x, Removed(x, p))
  {
    var e, d := SetProcessing(x, x.processing - {x.ids[p]}), Removed(x, p);
    if e.processedCount != 0 {
      CopiesFrame(x, e);
      AnswerMovesOn(e, p);
      SameThrough(x, e, d, p);
      CopiesAlike(x, e, p);
    } else {
      assert p in d.acking;
      LastRemoval(x, d, p);
    }
    MovesNearer(x, d, p);
  }

  lemma LastRemoval(x: Consumer, d: Consumer, p: nat)
    requires CopiesOk(x) && p in x.acking && x.acking[p].ToRemove?
    requires d.ids == x.ids && d.l == x.l && d.acking == x.acking[p := ToSignal]
    ensures OthersSame(x, d, p) && Weight(d, p) < Weight(x, p)
  {
    forall m: nat | m != p ensures SameCopy(x, d, m) {
      assert m in d.acking <==> m in x.acking;
    }
  }

  lemma SleepComesNext(x: Consumer)
    requires x.pc.Dozing? && !Doomed(x)
    ensures Nearer(x, x.(pc := Asleep))
  {
    var d := x.(pc := Asleep);
    TotalSame(x, d, |x.ids|);
    NotDoomed(x);
    forall id | id in d.processing ensures exists m: nat :: HopefulFor(d, id, m) {
      var m: nat :| HopefulFor(x, id, m);
      assert HopefulFor(d, id, m);
    }
    NotDoomed(d);
  }

  /** A step of consumer c that is neither a crash nor a cancellation. */
  predicate Orderly(t: Step, c: nat) {
    !t.Store? && t.c == c && !t.Crash? && t != Listen(c, L.Cancel)
  }

  /** The step t of consumer c makes d of it, and d is nearer to the end of its wait. */
  ghost predicate Drives(x: Consumer, c: nat, stores: nat, t: Step, d: Consumer) {
    Orderly(t, c) && Yields(x, t, stores, d) && Nearer(x, d)
  }

  /** What a step of the kinds used here makes of the consumer. */
  predicate Yields(x: Consumer, t: Step, stores: nat, d: Consumer) {
    if t.Delete? then CanDelete(x, t.p) && t.removed && t.ok && d == Confirm(x, t.p, stores)
    else (t.Sleep? || t.Signal? || t.Remove? || t.Listen?) && d == NextOwn(x, t)
  }

  lemma YieldsIt(s: State, t: Step, c: nat, d: Consumer)
    requires c < |s.consumers| && Yields(s.consumers[c], t, s.stores, d)
    ensures NextConsumer(s, t, c) == d
  {
  }

  lemma SleepDrives(x: Consumer, c: nat, stores: nat)
    requires x.pc.Dozing? && Nearer(x, x.(pc := Asleep))
    ensures Drives(x, c, stores, Sleep(c), x.(pc := Asleep))
  {
  }

  lemma SignalDrives(x: Consumer, c: nat, stores: nat, p: nat)
    requires p in x.acking && x.acking[p].ToSignal? && Nearer(x, Signalled(x, p))
    ensures Drives(x, c, stores, Signal(c, p), Signalled(x, p))
  {
  }

  lemma RemovalDrives(x: Consumer, c: nat, stores: nat, p: nat)
    requires p in x.acking && x.acking[p].ToRemove? && p < |x.ids| && MutexFree(x) && Nearer(x, Removed(x, p))
    ensures Drives(x, c, stores, Remove(c, p), Removed(x, p))
  {
  }

  lemma ListenDrives(x: Consumer, c: nat, stores: nat, u: L.Step)
    requires Free(x, u) && !u.Cancel? && Nearer(x, x.(l := L.Next(x.l, u)))
    ensures Drives(x, c, stores, Listen(c, u), x.(l := L.Next(x.l, u)))
  {
  }

  lemma DeleteDrives(x: Consumer, c: nat, stores: nat, m: nat)
    requires CanDelete(x, m) && Nearer(x, Confirm(x, m, stores))
    ensures Drives(x, c, stores, Delete(c, m, true, true), Confirm(x, m, stores))
  {
  }

  lemma Drive(x: Consumer, c: nat, stores: nat) returns (t: Step, d: Consumer)
    requires LocalInv(x) && Waiting(x.pc) && !Doomed(x) && !CanPass(x)
    ensures Drives(x, c, stores, t, d)
  {
    if x.pc.Dozing? {
      t, d := Sleep(c), x.(pc := Asleep);
      SleepComesNext(x);
      SleepDrives(x, c, stores);
    } else {
      NotDoomed(x);
      t, d := DriveAcks(x, c, stores);
    }
  }

  lemma DriveAcks(x: Consumer, c: nat, stores: nat) returns (t: Step, d: Consumer)
    requires LocalInv(x) && Waiting(x.pc) && !x.pc.Dozing? && !Doomed(x) && AllHopeful(x) && !CanPass(x)
    ensures Drives(x, c, stores, t, d)
  {
    if !MutexFree(x) {
      var p :| p in x.acking && !x.acking[p].ToRemove?;
      t, d := Signal(c, p), Signalled(x, p);
      SignalComesNext(x, p);
      SignalDrives(x, c, stores, p);
    } else {
      var m := SomeHopeful(x);
      t, d := DriveCopy(x, c, stores, m);
    }
  }

  lemma DriveCopy(x: Consumer, c: nat, stores: nat, m: nat) returns (t: Step, d: Consumer)
    requires LocalInv(x) && Waiting(x.pc) && AllHopeful(x)
    requires x.processing != {} && MutexFree(x) && m < |x.ids| && Hopeful(x, m)
    ensures Drives(x, c, stores, t, d)
  {
    if m >= |x.l.procs| {
      t, d := Listen(c, L.AddProcessing), x.(l := L.Next(x.l, L.AddProcessing));
      CopyIsAddedNext(x, m);
      ListenDrives(x, c, stores, L.AddProcessing);
    } else if x.l.procs[m].pc == L.Acking(true) {
      t, d := DriveAck(x, c, stores, m);
    } else {
      var u := ListenerStep(x.l, m);
      t, d := Listen(c, u), x.(l := L.Next(x.l, u));
      GoroutineMovesOn(x, m);
      ListenDrives(x, c, stores, u);
    }
  }

  lemma DriveAck(x: Consumer, c: nat, stores: nat, m: nat) returns (t: Step, d: Consumer)
    requires LocalInv(x) && Waiting(x.pc) && AllHopeful(x) && x.processing != {} && MutexFree(x)
    requires m < |x.ids| && Hopeful(x, m) && m < |x.l.procs| && x.l.procs[m].pc == L.Acking(true)
    ensures Drives(x, c, stores, t, d)
  {
    if m !in x.acking {
      t, d := Delete(c, m, true, true), Confirm(x, m, stores);
      RowIsDeletedNext(x, m, stores);
      DeleteDrives(x, c, stores, m);
    } else {
      t, d := Remove(c, m), Removed(x, m);
      RemovalComesNext(x, m);
      RemovalDrives(x, c, stores, m);
    }
  }

  ghost predicate AllOrderly(steps: seq<Step>, c: nat) {
    forall k :: 0 <= k < |steps| ==> Orderly(steps[k], c)
  }

  /**
  A batch that is not doomed passes its wait in some continuation of its own steps, without crash or
  cancellation.
  */
  lemma CanStillPass(s: State, c: nat) returns (steps: seq<Step>)
    requires c < |s.consumers| && LocalInv(s.consumers[c]) && Waiting(s.consumers[c].pc) && !Doomed(s.consumers[c])
    ensures AllOrderly(steps, c)
    ensures var s' := Run(Next, s, steps); c < |s'.consumers| && IsPassed(s'.consumers[c].pc)
    decreases Distance(s.consumers[c])
  {
    if CanPass(s.consumers[c]) {
      steps := [Check(c)];
      ConsumerAfter(s, Check(c), c);
      assert Run(Next, s, steps) == Run(Next, Next(s, Check(c)), steps[1..]);
    } else {
      var t, d := Drive(s.consumers[c], c, s.stores);
      YieldsIt(s, t, c, d);
      ConsumerAfter(s, t, c);
      ConsumerStepKeeps(s, t, c);
      var rest := CanStillPass(Next(s, t), c);
      steps := [t] + rest;
      assert steps[1..] == rest;
    }
  }

  // ------------------------------------------------------------------ exactly when

  ghost predicate PassesAfter(s: State, c: nat, steps: seq<Step>) {
    NoCrash(steps, c) && var s' := Run(Next, s, steps); c < |s'.consumers| && IsPassed(s'.consumers[c].pc)
  }

  /** In every reachable state, a batch that waits can still pass if and only if it is not doomed. */
  lemma PassesIffNotDoomed(rows: map<Id, Time>, consumers: seq<Consumer>, steps: seq<Step>, c: nat)
    requires AllNew(consumers)
    requires var s := Run(Next, Init(rows, consumers), steps); c < |s.consumers| && Waiting(s.consumers[c].pc)
    ensures var s := Run(Next, Init(rows, consumers), steps);
            !Doomed(s.consumers[c]) <==> exists more: seq<Step> :: PassesAfter(s, c, more)
  {
    RunKeepsInv(rows, consumers, steps);
    var s := Run(Next, Init(rows, consumers), steps);
    if Doomed(s.consumers[c]) {
      forall more: seq<Step> ensures !PassesAfter(s, c, more) {
        if NoCrash(more, c) { DoomedForever(s, c, more); }
      }
    } else {
      var more := CanStillPass(s, c);
      assert PassesAfter(s, c, more);
    }
  }
}
