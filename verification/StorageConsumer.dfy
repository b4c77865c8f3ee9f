/**
Consumers that deliver the stored messages of one topic to listeners.

Any number of consumers, each with its own listener, share the table and the topic's session lock.
A consumer's worker, the goroutines of its listener, writers of new messages and crashes are
interleaved step by step. Delivered copies are numbered, and goroutine p of a listener works on
copy p, so `ids[p]` is the id of its message.
*/
module StorageConsumer {
  import opened Options
  import opened Runs
  import opened MessageStorage
  import L = Listener

  type Id = nat

  datatype Pc =
    | Idle                          // waits for the signal to process
    | Locking                       // about to take the topic lock
    | Excluding                     // about to read the ids being processed
    | Finding(excluded: set<Id>)
    | Sending                       // about to send batch[sent], or done sending
    | Adding                        // batch[sent] was received, its id is still to be added
    | Checking                      // tests processedCount
    | Dozing                        // saw a nonzero count, not yet registered with the condition variable
    | Asleep                        // registered: only a signal wakes it
    | Unlocking(end: End)

  /** How a batch ended: with an error or cut short, with nothing found, or through its wait. */
  datatype End = Failed | Empty | Passed(again: bool)

  /** Progress of a goroutine inside Ack. */
  datatype AckStage =
    | ToRemove  // the row is deleted, the id is still to be removed
    | ToSignal  // the id is removed and none is left: the signal is to come, the mutex is held

  datatype Consumer = Consumer(
    size: int,                      // batch size
    pc: Pc,
    processing: set<Id>,            // ids being processed
    processedCount: nat,
    l: L.State,
    ids: seq<Id>,                   // id of every copy delivered so far
    acking: map<nat, AckStage>,
    // the current batch
    batch: seq<Id>,
    sent: nat,
    // history
    base: nat,                      // number of copies delivered before the current batch
    due: set<Id>,                   // what was due at the last query
    foundAt: nat,                   // stores before the last query
    confirmed: map<nat, nat>,       // copies whose Delete returned nil, with the stores before it
    cut: bool,                      // a batch was cut short by cancellation
    leftover: bool,                 // and none has passed since
    failed: bool)                   // since it was woken, an error has ended the loop

  datatype State = State(
    rows: map<Id, Time>,
    lock: Option<nat>,              // the consumer that holds the topic lock
    consumers: seq<Consumer>,
    // history
    copies: map<Id, nat>,           // for every id ever stored, the number of its last store
    stores: nat,
    fate: map<Id, L.Proc>,          // for every deleted id, the goroutine that deleted it, as it was then
    passes: nat,                    // nonempty batches that went through their wait
    anyCut: bool)

  datatype Step =
    | Store(id: Id, at: Time)
    | Crash(c: nat)
    | Wake(c: nat)
    | Lock(c: nat, ok: bool)
    | Exclude(c: nat)
    | Find(c: nat, ok: bool, now: Time, found: seq<Id>)
    | Send(c: nat)
    | AddToProcessing(c: nat)
    | CutShort(c: nat)
    | EnterWait(c: nat)
    | Check(c: nat)
    | Sleep(c: nat)
    | Unlock(c: nat, freed: bool, ok: bool)
    // a step of the listener that involves neither channel nor storage
    | Listen(c: nat, t: L.Step)
    // Ack: delete the row; an error may come with or without effect
    | Delete(c: nat, p: nat, removed: bool, ok: bool)
    | Remove(c: nat, p: nat)                             // Ack: removeFromProcessing
    | Signal(c: nat, p: nat)                             // Ack: wake the batch

  function NewConsumer(size: int, slots: int): Consumer {
    Consumer(size, Idle, {}, 0, L.Init(L.AckOnly, slots), [], map[], [], 0, 0, {}, 0, map[], false, false, false)
  }

  function Init(rows: map<Id, Time>, consumers: seq<Consumer>): State {
    State(rows, None, consumers, map id | id in rows :: 0, 1, map[], 0, false)
  }

  ghost predicate IsNew(c: Consumer) {
    exists size, slots :: c == NewConsumer(size, slots)
  }

  predicate MutexFree(c: Consumer) {
    forall p :: p in c.acking ==> c.acking[p].ToRemove?
  }

  function SetProcessing(c: Consumer, ids: set<Id>): Consumer {
    c.(processing := ids, processedCount := |ids|)
  }

  /** Ack returns nil to the queue. */
  function Answer(c: Consumer, p: nat): Consumer {
    c.(l := L.Next(c.l, L.BrokerAnswer(p, true)), acking := c.acking - {p})
  }

  /** A listener step that is not left to the composition: channel receipt and storage calls are steps of their own. */
  predicate Free(c: Consumer, t: L.Step) {
    match t
    case Receive(_) | BrokerAnswer(_, _) => false
    case TakeToken | AddProcessing | StopWorker(_) | Cancel => true
    case _ => t.p !in c.acking
  }

  /** The channel hand-over: the consumer's send is the listener's receipt of copy |ids|. */
  function Sent(c: Consumer): Consumer
    requires c.sent < |c.batch|
  {
    c.(pc := Adding, ids := c.ids + [c.batch[c.sent]], l := c.l.(worker := L.Worker.Adding(|c.ids|)))
  }

  function Removed(c: Consumer, p: nat): Consumer
    requires p < |c.ids|
  {
    var c' := SetProcessing(c, c.processing - {c.ids[p]});
    if c'.processedCount == 0 then c'.(acking := c.acking[p := ToSignal]) else Answer(c', p)
  }

  function Signalled(c: Consumer, p: nat): Consumer {
    Answer(if c.pc.Asleep? then c.(pc := Checking) else c, p)
  }

  function Added(c: Consumer): Consumer
    requires c.sent < |c.batch|
  {
    SetProcessing(c, c.processing + {c.batch[c.sent]}).(pc := Sending, sent := c.sent + 1)
  }

  function NextOwn(c: Consumer, t: Step): Consumer {
    match t
    case Wake(_) => if c.pc.Idle? then c.(pc := Locking, failed := false) else c
    case Exclude(_) => if c.pc.Excluding? then c.(pc := Finding(c.processing)) else c
    case Send(_) =>
      if c.pc.Sending? && c.sent < |c.batch| && c.l.worker.AwaitMessage?
      then Sent(c)
      else c
    case AddToProcessing(_) =>
      if c.pc.Adding? && c.sent < |c.batch| && MutexFree(c) then Added(c) else c
    case EnterWait(_) => if c.pc.Sending? && c.sent == |c.batch| then c.(pc := Checking) else c
    case Sleep(_) => if c.pc.Dozing? then c.(pc := Asleep) else c
    case Listen(_, u) => if Free(c, u) then c.(l := L.Next(c.l, u)) else c
    case Remove(_, p) =>
      if p in c.acking && c.acking[p].ToRemove? && MutexFree(c) && p < |c.ids| then Removed(c, p) else c
    case Signal(_, p) =>
      if p in c.acking && c.acking[p].ToSignal? then Signalled(c, p) else c
    case _ => c
  }

  function Found(x: Consumer, rows: map<Id, Time>, stores: nat, now: Time, found: seq<Id>): Consumer {
    x.(pc := if found == [] then Unlocking(Empty) else Sending, batch := found, sent := 0,
       base := |x.ids|, due := (set id | id in rows && rows[id] <= now), foundAt := stores)
  }

  function Confirm(x: Consumer, p: nat, stores: nat): Consumer {
    x.(acking := x.acking[p := ToRemove], confirmed := x.confirmed[p := stores])
  }

  /** Goroutine p is inside Ack, before the deletion of its row. */
  predicate CanDelete(x: Consumer, p: nat) {
    p < |x.l.procs| && p < |x.ids| && x.l.procs[p].pc == L.Acking(true) && p !in x.acking
  }

  predicate CanCut(x: Consumer) {
    x.pc.Sending? && x.sent < |x.batch| && x.l.cancelled
  }

  predicate CanPass(x: Consumer) {
    x.pc.Checking? && x.processedCount == 0
  }

  /** Steps that take, release or depend on the lock, and those that end a batch. */
  function NextLocking(x: Consumer, t: Step, lockFree: bool): Consumer {
    match t
    case Lock(_, ok) =>
      if !x.pc.Locking? then x
      else if !ok then x.(pc := Idle, failed := true)
      else if lockFree then x.(pc := Excluding) else x
    case CutShort(_) =>
      if CanCut(x) then x.(pc := Unlocking(Failed), cut := true, leftover := true, failed := true) else x
    case Check(_) =>
      if CanPass(x) then x.(pc := Unlocking(Passed(!(|x.batch| < x.size))), leftover := false)
      else if x.pc.Checking? then x.(pc := Dozing) else x
    case Unlock(_, freed, ok) =>
      if x.pc.Unlocking? && (ok ==> freed)
          then x.(pc := if ok && x.pc.end == Passed(true) then Locking else Idle, failed := x.failed || !ok) else x
    case _ => x
  }

  /** Steps that read or change the table, and crashes. */
  function NextTable(x: Consumer, t: Step, rows: map<Id, Time>, stores: nat): Consumer {
    match t
    case Crash(_) => NewConsumer(x.size, L.Cap(x.l.queue))
    case Find(_, ok, now, found) =>
      if !x.pc.Finding? then x
      else if !ok then x.(pc := Unlocking(Failed), failed := true)
      else if IsFound(rows, x.pc.excluded, now, x.size, found) then Found(x, rows, stores, now, found)
      else x
    case Delete(_, p, removed, ok) => if CanDelete(x, p) && removed && ok then Confirm(x, p, stores) else x
    case _ => x
  }

  function NextConsumer(s: State, t: Step, c: nat): Consumer
    requires c < |s.consumers|
  {
    var x := s.consumers[c];
    if t.Lock? || t.CutShort? || t.Check? || t.Unlock? then NextLocking(x, t, s.lock.None?)
    else if t.Crash? || t.Find? || t.Delete? then NextTable(x, t, s.rows, s.stores)
    else NextOwn(x, t)
  }

  function NextLock(s: State, t: Step, c: nat): Option<nat>
    requires c < |s.consumers|
  {
    var x := s.consumers[c];
    match t
    case Crash(_) => if s.lock == Some(c) then None else s.lock
    case Lock(_, ok) => if x.pc.Locking? && ok && s.lock.None? then Some(c) else s.lock
    case Unlock(_, freed, ok) => if x.pc.Unlocking? && freed then None else s.lock
    case _ => s.lock
  }

  /** Does the step remove the row of goroutine t.p's message? (Its Delete may still report an error.) */
  predicate Deletes(x: Consumer, t: Step) {
    t.Delete? && CanDelete(x, t.p) && t.removed
  }

  function NextShared(s: State, t: Step, c: nat): State
    requires c < |s.consumers|
  {
    var x := s.consumers[c];
    s.(consumers := s.consumers[c := NextConsumer(s, t, c)],
       lock := NextLock(s, t, c),
       rows := if Deletes(x, t) then s.rows - {x.ids[t.p]} else s.rows,
       fate := if Deletes(x, t) && x.ids[t.p] in s.rows then s.fate[x.ids[t.p] := x.l.procs[t.p]] else s.fate,
       passes := if t.Check? && CanPass(x) then s.passes + 1 else s.passes,
       anyCut := s.anyCut || (t.CutShort? && CanCut(x)))
  }

  function Next(s: State, t: Step): State {
    match t
    case Store(id, at) =>
      if id in s.rows then s
      else s.(rows := s.rows[id := at], copies := s.copies[id := s.stores], stores := s.stores + 1)
    case _ => if t.c < |s.consumers| then NextShared(s, t, t.c) else s
  }

  // ------------------------------------------------------------------ what every step keeps

  /** Copy m has been delivered, and its message is neither deleted and removed nor given up. */
  predicate Flying(c: Consumer, m: nat) {
    && m < |c.ids|
    && (m < |c.l.procs| ==>
          && !c.l.procs[m].pc.Releasing?
          && !c.l.procs[m].pc.Returned?
          && !(m in c.acking && c.acking[m].ToSignal?))
  }

  predicate InBatch(pc: Pc) {
    pc.Sending? || pc.Adding? || pc.Checking? || pc.Dozing? || pc.Asleep?
  }

  predicate Waiting(pc: Pc) {
    pc.Checking? || pc.Dozing? || pc.Asleep?
  }

  predicate IsPassed(pc: Pc) {
    pc.Unlocking? && pc.end.Passed?
  }

  ghost predicate CopiesOk(c: Consumer) {
    L.Inv(c.l) && Aligned(c)
  }

  /** Goroutine p of the listener works on copy p. */
  ghost predicate Aligned(c: Consumer) {
    && c.l.kind.AckOnly?
    && |c.l.procs| <= |c.ids|
    && (forall p :: 0 <= p < |c.l.procs| ==> c.l.procs[p].msg == p)
    && (match c.l.worker
        case AwaitToken | AwaitMessage => |c.ids| == |c.l.procs|
        case Adding(m) => m == |c.l.procs| && |c.ids| == m + 1
        case Stopped(_) => |c.ids| == |c.l.procs|)
    && (forall p :: p in c.acking ==> p < |c.l.procs| && c.l.procs[p].pc == L.Acking(true) && p in c.confirmed)
  }

  /** Every flying copy is the last delivery of its id, and that id is excluded from queries. */
  ghost predicate FlightOk(c: Consumer) {
    && (forall m, k :: 0 <= m < k < |c.ids| && Flying(c, m) ==> c.ids[m] != c.ids[k])
    && (forall m {:trigger Flying(c, m)} :: 0 <= m < |c.ids| && Flying(c, m) ==>
          c.ids[m] in c.processing || (c.pc.Adding? && m == |c.ids| - 1))
    && (c.pc.Finding? ==> forall m {:trigger Flying(c, m)} :: 0 <= m < |c.ids| && Flying(c, m) ==>
        c.ids[m] in c.pc.excluded)
    && (c.pc.Sending? ==> forall m, j :: 0 <= m < |c.ids| && Flying(c, m) && c.sent <= j < |c.batch| ==>
        c.ids[m] != c.batch[j])
    && (c.pc.Adding? ==> forall m, j :: 0 <= m < |c.ids| && Flying(c, m) && c.sent < j < |c.batch| ==>
        c.ids[m] != c.batch[j])
  }

  ghost predicate BatchOk(c: Consumer) {
    && c.processedCount == |c.processing|
    && (forall i, j :: 0 <= i < j < |c.batch| ==> c.batch[i] != c.batch[j])
    && (InBatch(c.pc) ==>
          && c.batch != []
          && c.sent <= |c.batch|
          && (c.pc.Adding? ==> c.sent < |c.batch|)
          && (Waiting(c.pc) ==> c.sent == |c.batch|)
          && |c.ids| == c.base + c.sent + (if c.pc.Adding? then 1 else 0)
          && (forall m :: c.base <= m < |c.ids| ==> c.ids[m] == c.batch[m - c.base])
          && (forall m {:trigger m in c.confirmed} :: c.base <= m < c.base + c.sent ==>
              c.ids[m] in c.processing || m in c.confirmed))
    && (IsPassed(c.pc) ==>
          && c.pc.end.again == !(|c.batch| < c.size)
          && |c.ids| == c.base + |c.batch|
          && (forall m :: c.base <= m < |c.ids| ==> c.ids[m] == c.batch[m - c.base])
          && (forall m {:trigger m in c.confirmed} :: c.base <= m < c.base + |c.batch| ==> m in c.confirmed))
    && DrainOk(c)
  }

  /**
  Between batches nothing is left over but of one that was cut short with none passed since; and as
  long as no batch was cut short, a short batch is everything that was due.
  */
  ghost predicate DrainOk(c: Consumer) {
    && (!c.cut && c.pc == Unlocking(Empty) ==> c.due == {})
    && (!c.leftover && !InBatch(c.pc) ==> c.processing == {})
    && (c.leftover ==> c.cut)
    && (!c.cut && c.pc.Finding? ==> c.pc.excluded == {})
    && (!c.cut && (InBatch(c.pc) || IsPassed(c.pc)) && (c.size <= 0 || |c.batch| < c.size) ==>
          forall id :: id in c.due ==> id in c.batch)
  }

  /** A confirmed copy's row is gone; if its id has a row now, that row was stored after the deletion. */
  ghost predicate ConfirmedOk(c: Consumer, rows: map<Id, Time>, copies: map<Id, nat>, stores: nat) {
    && rows.Keys <= copies.Keys
    && (forall id :: id in copies ==> copies[id] < stores)
    && 0 < stores && c.foundAt <= stores
    && (forall m :: m in c.confirmed ==>
          m < |c.ids| && 0 < c.confirmed[m] <= stores && (c.ids[m] in rows ==> copies[c.ids[m]] >= c.confirmed[m]))
    && (InBatch(c.pc) || IsPassed(c.pc) ==> forall m :: m in c.confirmed && m >= c.base ==> c.confirmed[m] >= c.foundAt)
  }

  ghost predicate LocalInv(c: Consumer) {
    CopiesOk(c) && FlightOk(c) && BatchOk(c)
  }

  // ---- steps of a listener

  lemma WorkerStepKeepsAligned(c: Consumer, t: L.Step)
    requires Aligned(c) && (t.TakeToken? || t.AddProcessing? || t.StopWorker? || t.Cancel?)
    requires c.l.worker.Adding? ==> L.AddTo(c.l.queue, c.l.worker.msg).1.Added?
    ensures var d := c.(l := L.Next(c.l, t));
            Aligned(d) && forall m :: Flying(d, m) ==> Flying(c, m)
  {
  }

  lemma WorkerStepKeepsCopies(c: Consumer, t: L.Step)
    requires CopiesOk(c) && (t.TakeToken? || t.AddProcessing? || t.StopWorker? || t.Cancel?)
    ensures var d := c.(l := L.Next(c.l, t));
            CopiesOk(d) && forall m :: Flying(d, m) ==> Flying(c, m)
  {
    L.NextKeepsInv(c.l, t);
    if c.l.worker.Adding? { CopyIsAdded(c); }
    WorkerStepKeepsAligned(c, t);
  }

  /** The queue takes the copy the worker has received: there is room, and no goroutine has that copy. */
  lemma CopyIsAdded(c: Consumer)
    requires CopiesOk(c) && c.l.worker.Adding?
    ensures L.AddTo(c.l.queue, c.l.worker.msg).1.Added?
  {
    L.AddIsBalanced(c.l.queue, c.l.worker.msg);
    assert c.l.worker.msg !in c.l.queue.a.queued;
  }

  lemma ProcStepKeepsCopies(c: Consumer, t: L.Step, p: nat)
    requires CopiesOk(c) && p < |c.l.procs| && p !in c.acking && L.Inv(L.NextProc(c.l, t, p))
    ensures var d := c.(l := L.NextProc(c.l, t, p));
            CopiesOk(d) && forall m :: Flying(d, m) ==> Flying(c, m)
  {
    L.ProcStepShape(c.l, t, p);
  }

  lemma ListenKeepsCopies(c: Consumer, t: L.Step)
    requires CopiesOk(c) && Free(c, t)
    ensures var d := c.(l := L.Next(c.l, t));
            CopiesOk(d) && forall m :: Flying(d, m) ==> Flying(c, m)
  {
    if t.TakeToken? || t.AddProcessing? || t.StopWorker? || t.Cancel? {
      WorkerStepKeepsCopies(c, t);
    } else if t.p < |c.l.procs| {
      L.NextKeepsInv(c.l, t);
      ProcStepKeepsCopies(c, t, t.p);
    }
  }

  lemma AnswerKeepsAligned(c: Consumer, p: nat)
    requires Aligned(c) && p in c.acking && c.l.queue.Direct?
    ensures Aligned(Answer(c, p))
    ensures forall m :: Flying(Answer(c, p), m) ==> Flying(c, m) && m != p
  {
  }

  lemma AnswerKeepsCopies(c: Consumer, p: nat)
    requires CopiesOk(c) && p in c.acking
    ensures CopiesOk(Answer(c, p))
    ensures forall m :: Flying(Answer(c, p), m) ==> Flying(c, m) && m != p
  {
    L.NextKeepsInv(c.l, L.BrokerAnswer(p, true));
    AnswerKeepsAligned(c, p);
  }

  /** Flight conditions survive whatever lets copies land and changes neither batch nor processed ids. */
  lemma LandingKeepsFlight(c: Consumer, d: Consumer)
    requires FlightOk(c)
    requires forall m :: Flying(d, m) ==> Flying(c, m)
    requires d.ids == c.ids && d.processing == c.processing && d.batch == c.batch && d.sent == c.sent
    requires d.pc == c.pc || (c.pc.Asleep? && d.pc.Checking?)
    ensures FlightOk(d)
  {
  }

  lemma ListenKeeps(c: Consumer, t: L.Step)
    requires LocalInv(c) && Free(c, t)
    ensures var d := c.(l := L.Next(c.l, t)); LocalInv(d)
  {
    var d := c.(l := L.Next(c.l, t));
    ListenKeepsCopies(c, t);
    LandingKeepsFlight(c, d);
    WokenKeepsBatch(c, d);
  }

  // ---- steps of a batch

  lemma SentKeepsCopies(c: Consumer)
    requires CopiesOk(c) && c.sent < |c.batch| && c.l.worker.AwaitMessage?
    ensures CopiesOk(Sent(c))
  {
    L.NextKeepsInv(c.l, L.Receive(|c.ids|));
    assert L.Next(c.l, L.Receive(|c.ids|)) == Sent(c).l;
  }

  lemma SentKeepsFlight(c: Consumer)
    requires FlightOk(c) && c.pc.Sending? && c.sent < |c.batch|
    requires forall i, j :: 0 <= i < j < |c.batch| ==> c.batch[i] != c.batch[j]
    ensures FlightOk(Sent(c))
  {
    var d, n := Sent(c), |c.ids|;
    forall m | 0 <= m < n && Flying(d, m)
        ensures Flying(c, m) && d.ids[m] == c.ids[m] && c.ids[m] != c.batch[c.sent] { }
  }

  lemma SentKeepsBatch(c: Consumer)
    requires BatchOk(c) && c.pc.Sending? && c.sent < |c.batch|
    ensures BatchOk(Sent(c))
  {
  }

  lemma SendKeeps(c: Consumer)
    requires LocalInv(c)
    requires c.pc.Sending? && c.sent < |c.batch| && c.l.worker.AwaitMessage?
    ensures LocalInv(Sent(c))
  {
    SentKeepsCopies(c);
    SentKeepsFlight(c);
    SentKeepsBatch(c);
  }

  lemma CopiesFrame(c: Consumer, d: Consumer)
    requires CopiesOk(c) && d.l == c.l && d.ids == c.ids && d.acking == c.acking && d.confirmed == c.confirmed
    ensures CopiesOk(d)
  {
  }

  lemma AddedKeepsFlight(c: Consumer)
    requires FlightOk(c) && c.pc.Adding? && c.sent < |c.batch| && c.ids != [] && c.ids[|c.ids| - 1] == c.batch[c.sent]
    ensures FlightOk(Added(c))
  {
    var d := Added(c);
    assert forall m :: Flying(d, m) ==> Flying(c, m);
  }

  lemma AddedKeepsBatch(c: Consumer)
    requires BatchOk(c) && c.pc.Adding? && c.sent < |c.batch|
    ensures BatchOk(Added(c))
  {
    var d := Added(c);
    assert c.ids[c.base + c.sent] == c.batch[c.sent];
    forall m {:trigger m in d.confirmed} | d.base <= m < d.base + d.sent
        ensures d.ids[m] in d.processing || m in d.confirmed {
      assert m in c.confirmed || m == c.base + c.sent || c.ids[m] in c.processing;
    }
  }

  lemma AddToProcessingKeeps(c: Consumer)
    requires LocalInv(c) && c.pc.Adding? && c.sent < |c.batch|
    ensures LocalInv(Added(c))
  {
    CopiesFrame(c, Added(c));
    AddedKeepsFlight(c);
    AddedKeepsBatch(c);
  }

  lemma RemovedKeepsCopies(c: Consumer, p: nat)
    requires CopiesOk(c) && p in c.acking && p < |c.ids|
    ensures CopiesOk(Removed(c, p))
    ensures forall m :: Flying(Removed(c, p), m) ==> Flying(c, m) && m != p
  {
    var e := SetProcessing(c, c.processing - {c.ids[p]});
    if e.processedCount != 0 {
      AnswerKeepsCopies(e, p);
      assert forall m :: Flying(e, m) ==> Flying(c, m);
    }
  }

  /** Removing the id of a copy whose row is deleted uncovers no other flying copy. */
  lemma RemoveKeeps(c: Consumer, p: nat)
    requires LocalInv(c)
    requires p in c.acking && c.acking[p].ToRemove? && p < |c.ids|
    ensures var d := Removed(c, p); LocalInv(d)
  {
    var d := Removed(c, p);
    RemovedKeepsCopies(c, p);
    assert Flying(c, p);
    RemovedKeepsFlight(c, d, p);
    RemovedKeepsBatch(c, d, p);
  }

  lemma RemovedKeepsFlight(c: Consumer, d: Consumer, p: nat)
    requires FlightOk(c) && Flying(c, p)
    requires forall m :: Flying(d, m) ==> Flying(c, m) && m != p
    requires d == c.(processing := c.processing - {c.ids[p]}, processedCount := d.processedCount, l := d.l,
             acking := d.acking)
    ensures FlightOk(d)
  {
    forall m {:trigger Flying(d, m)} | 0 <= m < |d.ids| && Flying(d, m)
      ensures d.ids[m] in d.processing || (d.pc.Adding? && m == |d.ids| - 1)
    {
      assert c.ids[m] != c.ids[p];
    }
  }

  lemma RemovedKeepsBatch(c: Consumer, d: Consumer, p: nat)
    requires BatchOk(c) && p < |c.ids| && p in c.confirmed && (forall k :: p < k < |c.ids| ==> c.ids[k] != c.ids[p])
    requires d == c.(processing := c.processing - {c.ids[p]}, processedCount := |c.processing - {c.ids[p]}|, l := d.l,
             acking := d.acking)
    ensures BatchOk(d)
  {
    RemovedKeepsDrain(c, d, p);
    if InBatch(c.pc) {
      forall m {:trigger m in d.confirmed} | d.base <= m < d.base + d.sent
        ensures d.ids[m] in d.processing || m in d.confirmed
      {
        assert m in c.confirmed || c.ids[m] in c.processing;
        if m < p {
          assert c.ids[p] == c.batch[p - c.base] && c.ids[m] == c.batch[m - c.base];
        }
      }
    }
  }

  lemma RemovedKeepsDrain(c: Consumer, d: Consumer, p: nat)
    requires DrainOk(c) && p < |c.ids|
    requires d == c.(processing := c.processing - {c.ids[p]}, processedCount := d.processedCount, l := d.l,
             acking := d.acking)
    ensures DrainOk(d)
  {
  }

  lemma SignalKeeps(c: Consumer, p: nat)
    requires LocalInv(c) && p in c.acking
    ensures var d := Signalled(c, p); LocalInv(d)
  {
    var e := if c.pc.Asleep? then c.(pc := Checking) else c;
    assert CopiesOk(e);
    AnswerKeepsCopies(e, p);
    assert forall m :: Flying(e, m) ==> Flying(c, m);
    LandingKeepsFlight(c, Signalled(c, p));
    WokenKeepsBatch(c, Signalled(c, p));
  }

  lemma WokenKeepsBatch(c: Consumer, d: Consumer)
    requires BatchOk(c) && (d.pc == c.pc || (c.pc.Asleep? && d.pc.Checking?))
    requires d == c.(pc := d.pc, l := d.l, acking := d.acking)
    ensures BatchOk(d)
  {
  }

  lemma PlainKeepsFlight(c: Consumer, t: Step)
    requires FlightOk(c) && (t.Wake? || t.Exclude? || t.EnterWait? || t.Sleep?)
    ensures FlightOk(NextOwn(c, t))
  {
    var d := NextOwn(c, t);
    assert forall m :: Flying(d, m) ==> Flying(c, m);
  }

  lemma PlainKeepsBatch(c: Consumer, t: Step)
    requires BatchOk(c) && (t.Wake? || t.Exclude? || t.EnterWait? || t.Sleep?)
    ensures BatchOk(NextOwn(c, t))
  {
  }

  lemma PlainStepKeeps(c: Consumer, t: Step)
    requires LocalInv(c)
    requires t.Wake? || t.Exclude? || t.EnterWait? || t.Sleep?
    ensures var d := NextOwn(c, t); LocalInv(d)
  {
    var d := NextOwn(c, t);
    assert d == c.(pc := d.pc, failed := d.failed);
    CopiesFrame(c, d);
    PlainKeepsFlight(c, t);
    PlainKeepsBatch(c, t);
  }

  lemma OwnStepKeeps(c: Consumer, t: Step)
    requires LocalInv(c)
    ensures var d := NextOwn(c, t); LocalInv(d)
  {
    if NextOwn(c, t) == c {
    } else if t.Send? {
      SendKeeps(c);
    } else if t.AddToProcessing? {
      AddToProcessingKeeps(c);
    } else if t.Remove? {
      RemoveKeeps(c, t.p);
    } else if t.Signal? {
      SignalKeeps(c, t.p);
    } else if t.Listen? {
      ListenKeeps(c, t.t);
    } else {
      PlainStepKeeps(c, t);
    }
  }

  // ---- steps that involve the table or the lock

  lemma NewIsOk(size: int, slots: int)
    ensures LocalInv(NewConsumer(size, slots))
  {
  }

  lemma FoundKeepsFlight(x: Consumer, rows: map<Id, Time>, stores: nat, now: Time, found: seq<Id>)
    requires FlightOk(x) && x.pc.Finding? && IsFound(rows, x.pc.excluded, now, x.size, found)
    ensures FlightOk(Found(x, rows, stores, now, found))
  {
    var d := Found(x, rows, stores, now, found);
    assert forall m :: Flying(d, m) ==> Flying(x, m);
    forall m, j | 0 <= m < |d.ids| && Flying(d, m) && 0 <= j < |found| ensures d.ids[m] != found[j] {
      assert Eligible(rows, x.pc.excluded, now, found[j]);
    }
  }

  lemma FoundKeepsBatch(x: Consumer, rows: map<Id, Time>, stores: nat, now: Time, found: seq<Id>)
    requires BatchOk(x) && x.pc.Finding? && IsFound(rows, x.pc.excluded, now, x.size, found)
    ensures BatchOk(Found(x, rows, stores, now, found))
  {
    var d := Found(x, rows, stores, now, found);
    if !x.cut && (x.size <= 0 || |found| < x.size) {
      forall id | id in d.due ensures id in found {
        ShortResultIsComplete(rows, {}, now, x.size, found, id);
      }
    }
  }

  lemma FindKeeps(x: Consumer, rows: map<Id, Time>, stores: nat, now: Time, found: seq<Id>)
    requires LocalInv(x) && x.pc.Finding? && IsFound(rows, x.pc.excluded, now, x.size, found)
    ensures LocalInv(Found(x, rows, stores, now, found))
  {
    CopiesFrame(x, Found(x, rows, stores, now, found));
    FoundKeepsFlight(x, rows, stores, now, found);
    FoundKeepsBatch(x, rows, stores, now, found);
  }

  lemma ConfirmKeeps(x: Consumer, p: nat, stores: nat)
    requires LocalInv(x) && p < |x.l.procs| && x.l.procs[p].pc == L.Acking(true) && p !in x.acking
    ensures LocalInv(Confirm(x, p, stores))
  {
    var d := Confirm(x, p, stores);
    assert CopiesOk(d);
    assert forall m :: Flying(d, m) ==> Flying(x, m);
    LandingKeepsFlight(x, d);
    ConfirmKeepsBatch(x, p, stores);
  }

  lemma ConfirmKeepsBatch(x: Consumer, p: nat, stores: nat)
    requires BatchOk(x)
    ensures BatchOk(Confirm(x, p, stores))
  {
  }

  /** A step outside a batch, or one that ends it, only moves the program counter. */
  lemma MovePcKeeps(x: Consumer, d: Consumer)
    requires LocalInv(x) && d == x.(pc := d.pc, cut := d.cut, leftover := d.leftover, failed := d.failed) &&
             (x.cut ==> d.cut)
    requires d.leftover == if IsPassed(d.pc) then false
                           else if d.pc == Unlocking(Failed) && InBatch(x.pc) then true else x.leftover
    requires match d.pc
             case Idle | Excluding | Locking => !InBatch(x.pc)
             case Unlocking(Failed) => !InBatch(x.pc) || (x.pc.Sending? && d.cut)
             case Unlocking(Passed(again)) => x.pc.Checking? && x.processedCount == 0 && again == !(|x.batch| < x.size)
             case Dozing => x.pc.Checking?
             case _ => false
    ensures LocalInv(d)
  {
    CopiesFrame(x, d);
    assert forall m :: Flying(d, m) ==> Flying(x, m);
    assert FlightOk(d);
    MovePcKeepsBatch(x, d);
  }

  lemma MovePcKeepsBatch(x: Consumer, d: Consumer)
    requires BatchOk(x) && d == x.(pc := d.pc, cut := d.cut, leftover := d.leftover, failed := d.failed) &&
             (x.cut ==> d.cut)
    requires d.leftover == if IsPassed(d.pc) then false
                           else if d.pc == Unlocking(Failed) && InBatch(x.pc) then true else x.leftover
    requires match d.pc
             case Idle | Excluding | Locking => !InBatch(x.pc)
             case Unlocking(Failed) => !InBatch(x.pc) || (x.pc.Sending? && d.cut)
             case Unlocking(Passed(again)) => x.pc.Checking? && x.processedCount == 0 && again == !(|x.batch| < x.size)
             case Dozing => x.pc.Checking?
             case _ => false
    ensures BatchOk(d)
  {
  }

  lemma LockingKeeps(x: Consumer, t: Step, lockFree: bool)
    requires LocalInv(x)
    ensures LocalInv(NextLocking(x, t, lockFree))
  {
    if t.Lock? || t.Unlock? {
      LockOrUnlockKeeps(x, t, lockFree);
    } else {
      CutOrCheckKeeps(x, t, lockFree);
    }
  }

  lemma LockOrUnlockKeeps(x: Consumer, t: Step, lockFree: bool)
    requires LocalInv(x) && (t.Lock? || t.Unlock?)
    ensures LocalInv(NextLocking(x, t, lockFree))
  {
    var d := NextLocking(x, t, lockFree);
    if d != x { MovePcKeeps(x, d); }
  }

  lemma CutOrCheckKeeps(x: Consumer, t: Step, lockFree: bool)
    requires LocalInv(x) && !t.Lock? && !t.Unlock?
    ensures LocalInv(NextLocking(x, t, lockFree))
  {
    var d := NextLocking(x, t, lockFree);
    if d != x { MovePcKeeps(x, d); }
  }

  lemma TableKeeps(x: Consumer, t: Step, rows: map<Id, Time>, stores: nat)
    requires LocalInv(x)
    ensures LocalInv(NextTable(x, t, rows, stores))
  {
    var d := NextTable(x, t, rows, stores);
    if d == x {
    } else if t.Crash? {
      NewIsOk(x.size, L.Cap(x.l.queue));
    } else if t.Delete? {
      ConfirmKeeps(x, t.p, stores);
    } else if t.ok {
      FindKeeps(x, rows, stores, t.now, t.found);
    } else {
      MovePcKeeps(x, d);
    }
  }

  lemma ConsumerStepKeeps(s: State, t: Step, c: nat)
    requires c < |s.consumers| && LocalInv(s.consumers[c])
    ensures LocalInv(NextConsumer(s, t, c))
  {
    LockingKeeps(s.consumers[c], t, s.lock.None?);
    TableKeeps(s.consumers[c], t, s.rows, s.stores);
    OwnStepKeeps(s.consumers[c], t);
  }

  // ---- the shared state

  ghost predicate Critical(pc: Pc) {
    pc.Excluding? || pc.Finding? || InBatch(pc) || pc.Unlocking?
  }

  /** Only the holder of the topic lock is between taking the lock and releasing it. */
  ghost predicate LockOk(s: State) {
    forall c :: 0 <= c < |s.consumers| && Critical(s.consumers[c].pc) ==> s.lock == Some(c)
  }

  /** A deleted message was skipped, or all its handlers returned nil in one round. */
  ghost predicate FateOk(s: State) {
    && 0 < s.stores
    && s.rows.Keys <= s.copies.Keys
    && (forall id :: id in s.copies ==> id in s.rows || id in s.fate)
    && (forall id :: id in s.fate ==> s.fate[id].plan.Skip? || L.Handled(s.fate[id]))
  }

  ghost predicate CutOk(s: State) {
    !s.anyCut ==> forall c :: 0 <= c < |s.consumers| ==> !s.consumers[c].cut
  }

  ghost predicate ConsumersOk(s: State) {
    && (forall c :: 0 <= c < |s.consumers| ==> LocalInv(s.consumers[c]))
    && (forall c :: 0 <= c < |s.consumers| ==> ConfirmedOk(s.consumers[c], s.rows, s.copies, s.stores))
  }

  ghost predicate Inv(s: State) {
    ConsumersOk(s) && LockOk(s) && FateOk(s) && CutOk(s)
  }

  lemma StoreKeepsInv(s: State, id: Id, at: Time)
    requires Inv(s)
    ensures Inv(Next(s, Store(id, at)))
  {
    if id !in s.rows {
      var s' := Next(s, Store(id, at));
      StoreKeepsFate(s, id, at);
      forall c | 0 <= c < |s.consumers| ensures ConfirmedOk(s'.consumers[c], s'.rows, s'.copies, s'.stores) {
        StoreKeepsConfirmed(s.consumers[c], s.rows, s.copies, s.stores, id, at);
      }
      assert forall c :: 0 <= c < |s.consumers| ==> s'.consumers[c] == s.consumers[c];
    }
  }

  lemma StoreKeepsFate(s: State, id: Id, at: Time)
    requires LockOk(s) && FateOk(s) && CutOk(s)
    ensures var s' := Next(s, Store(id, at)); LockOk(s') && FateOk(s') && CutOk(s')
  {
  }

  lemma StoreKeepsConfirmed(c: Consumer, rows: map<Id, Time>, copies: map<Id, nat>, stores: nat, id: Id, at: Time)
    requires ConfirmedOk(c, rows, copies, stores)
    ensures ConfirmedOk(c, rows[id := at], copies[id := stores], stores + 1)
  {
  }

  /** A consumer's own steps neither enter nor leave the part under the lock, and leave its history alone. */
  lemma OwnStepShape(c: Consumer, t: Step)
    ensures var d := NextOwn(c, t);
            && c.ids <= d.ids
            && d.base == c.base && d.foundAt == c.foundAt && d.confirmed == c.confirmed && d.cut == c.cut &&
                d.batch == c.batch
            && (Critical(d.pc) <==> Critical(c.pc))
            && (InBatch(d.pc) <==> InBatch(c.pc))
            && (IsPassed(d.pc) <==> IsPassed(c.pc))
  {
    OwnStepKeepsHistory(c, t);
    OwnStepPlace(c, t);
  }

  lemma OwnStepKeepsHistory(c: Consumer, t: Step)
    ensures var d := NextOwn(c, t);
            && c.ids <= d.ids && d.batch == c.batch
            && d.base == c.base && d.foundAt == c.foundAt && d.confirmed == c.confirmed && d.cut == c.cut
  {
    var d := NextOwn(c, t);
    if t.Remove? || t.Signal? {
      AckStepKeepsHistory(c, t);
    } else if t.Listen? {
      assert d == c.(l := d.l);
    } else if t.Send? {
      assert d == c || d == Sent(c);
    } else if t.AddToProcessing? {
      assert d == c || d == Added(c);
    } else {
      PlainStepShape(c, t);
    }
  }

  lemma PlainStepShape(c: Consumer, t: Step)
    requires !t.Remove? && !t.Signal? && !t.Listen? && !t.Send? && !t.AddToProcessing?
    ensures var d := NextOwn(c, t); d == c.(pc := d.pc, failed := d.failed)
  {
  }

  lemma AckStepKeepsHistory(c: Consumer, t: Step)
    requires t.Remove? || t.Signal?
    ensures var d := NextOwn(c, t);
            d == c.(pc := d.pc, processing := d.processing, processedCount := d.processedCount, l := d.l,
                acking := d.acking)
  {
  }

  lemma OwnStepPlace(c: Consumer, t: Step)
    ensures var d := NextOwn(c, t);
            || d.pc == c.pc || (c.pc.Idle? && d.pc.Locking?) || (c.pc.Excluding? && d.pc.Finding?)
            || (InBatch(c.pc) && InBatch(d.pc))
  {
  }

  lemma StepKeepsLock(s: State, t: Step, c: nat)
    requires c < |s.consumers| && LockOk(s)
    ensures LockOk(NextShared(s, t, c))
  {
    var s' := NextShared(s, t, c);
    OwnStepShape(s.consumers[c], t);
    assert Critical(s'.consumers[c].pc) ==> s'.lock == Some(c);
    assert s'.lock != s.lock && s'.lock != Some(c) ==> s.lock == Some(c);
  }

  lemma StepKeepsFate(s: State, t: Step, c: nat)
    requires c < |s.consumers| && FateOk(s) && L.Inv(s.consumers[c].l)
    ensures FateOk(NextShared(s, t, c))
  {
  }

  lemma FewerRowsKeepConfirmed(x: Consumer, rows: map<Id, Time>, rows': map<Id, Time>, copies: map<Id, nat>,
      stores: nat)
    requires ConfirmedOk(x, rows, copies, stores) && rows'.Keys <= rows.Keys
    ensures ConfirmedOk(x, rows', copies, stores)
  {
  }

  lemma OwnKeepsConfirmed(x: Consumer, t: Step, rows: map<Id, Time>, copies: map<Id, nat>, stores: nat)
    requires ConfirmedOk(x, rows, copies, stores)
    ensures ConfirmedOk(NextOwn(x, t), rows, copies, stores)
  {
    OwnStepShape(x, t);
  }

  lemma LockingKeepsConfirmed(x: Consumer, t: Step, lockFree: bool, rows: map<Id, Time>, copies: map<Id, nat>,
      stores: nat)
    requires ConfirmedOk(x, rows, copies, stores)
    ensures ConfirmedOk(NextLocking(x, t, lockFree), rows, copies, stores)
  {
    var d := NextLocking(x, t, lockFree);
    LockingStepShape(x, t, lockFree);
    assert InBatch(d.pc) || IsPassed(d.pc) ==> InBatch(x.pc) || IsPassed(x.pc);
  }

  /** Such a step moves the program counter, and never into a batch. */
  lemma LockingStepShape(x: Consumer, t: Step, lockFree: bool)
    ensures var d := NextLocking(x, t, lockFree);
            && d == x.(pc := d.pc, cut := d.cut, leftover := d.leftover, failed := d.failed)
            && (InBatch(d.pc) || IsPassed(d.pc) ==> InBatch(x.pc) || IsPassed(x.pc))
  {
  }

  lemma FindKeepsConfirmed(x: Consumer, t: Step, rows: map<Id, Time>, copies: map<Id, nat>, stores: nat)
    requires ConfirmedOk(x, rows, copies, stores) && (t.Find? || t.Crash?)
    ensures ConfirmedOk(NextTable(x, t, rows, stores), rows, copies, stores)
  {
    if t.Find? {
      var d := NextTable(x, t, rows, stores);
      assert d == x || d == Found(x, rows, stores, t.now, t.found) || d == x.(pc := Unlocking(Failed), failed := true);
      FoundKeepsConfirmed(x, rows, copies, stores, t.now, t.found);
    }
  }

  lemma FoundKeepsConfirmed(
      x: Consumer, rows: map<Id, Time>, copies: map<Id, nat>, stores: nat, now: Time, found: seq<Id>)
    requires ConfirmedOk(x, rows, copies, stores)
    ensures ConfirmedOk(Found(x, rows, stores, now, found), rows, copies, stores)
    ensures ConfirmedOk(x.(pc := Unlocking(Failed), failed := true), rows, copies, stores)
  {
  }

  lemma DeleteKeepsConfirmed(x: Consumer, t: Step, rows: map<Id, Time>, copies: map<Id, nat>, stores: nat)
    requires ConfirmedOk(x, rows, copies, stores) && t.Delete? && CanDelete(x, t.p)
    ensures ConfirmedOk(NextTable(x, t, rows, stores), if t.removed then rows - {x.ids[t.p]} else rows, copies, stores)
  {
  }

  lemma StepKeepsConfirmed(s: State, t: Step, c: nat)
    requires c < |s.consumers| && ConfirmedOk(s.consumers[c], s.rows, s.copies, s.stores)
    ensures var s' := NextShared(s, t, c); ConfirmedOk(s'.consumers[c], s'.rows, s'.copies, s'.stores)
  {
    var x := s.consumers[c];
    if t.Delete? {
      if CanDelete(x, t.p) { DeleteKeepsConfirmed(x, t, s.rows, s.copies, s.stores); }
    } else if t.Find? || t.Crash? {
      FindKeepsConfirmed(x, t, s.rows, s.copies, s.stores);
    } else if t.Lock? || t.CutShort? || t.Check? || t.Unlock? {
      LockingKeepsConfirmed(x, t, s.lock.None?, s.rows, s.copies, s.stores);
    } else {
      OwnKeepsConfirmed(x, t, s.rows, s.copies, s.stores);
    }
  }

  lemma SharedStepKeepsConsumers(s: State, t: Step, c: nat)
    requires ConsumersOk(s) && c < |s.consumers|
    ensures ConsumersOk(NextShared(s, t, c))
  {
    var s' := NextShared(s, t, c);
    ConsumerStepKeeps(s, t, c);
    StepKeepsConfirmed(s, t, c);
    forall k | 0 <= k < |s'.consumers| && k != c
      ensures LocalInv(s'.consumers[k]) && ConfirmedOk(s'.consumers[k], s'.rows, s'.copies, s'.stores)
    {
      FewerRowsKeepConfirmed(s.consumers[k], s.rows, s'.rows, s.copies, s.stores);
    }
  }

  lemma StepKeepsCut(s: State, t: Step, c: nat)
    requires CutOk(s) && c < |s.consumers|
    ensures CutOk(NextShared(s, t, c))
  {
    OwnStepShape(s.consumers[c], t);
    assert NextConsumer(s, t, c).cut ==> s.consumers[c].cut || (t.CutShort? && CanCut(s.consumers[c]));
  }

  lemma SharedStepKeepsInv(s: State, t: Step, c: nat)
    requires Inv(s) && c < |s.consumers|
    ensures Inv(NextShared(s, t, c))
  {
    SharedStepKeepsConsumers(s, t, c);
    StepKeepsLock(s, t, c);
    StepKeepsFate(s, t, c);
    StepKeepsCut(s, t, c);
  }

  lemma NextKeepsInv(s: State, t: Step)
    requires Inv(s)
    ensures Inv(Next(s, t))
  {
    if t.Store? {
      StoreKeepsInv(s, t.id, t.at);
    } else if t.c < |s.consumers| {
      SharedStepKeepsInv(s, t, t.c);
    }
  }

  // ------------------------------------------------------------------ results over all runs

  ghost predicate AllNew(consumers: seq<Consumer>) {
    forall c :: 0 <= c < |consumers| ==> IsNew(consumers[c])
  }

  lemma RunKeepsInv(rows: map<Id, Time>, consumers: seq<Consumer>, steps: seq<Step>)
    requires AllNew(consumers)
    ensures Inv(Run(Next, Init(rows, consumers), steps))
  {
    forall c | 0 <= c < |consumers| ensures LocalInv(consumers[c]) {
      var size, slots :| consumers[c] == NewConsumer(size, slots);
      NewIsOk(size, slots);
    }
    forall s, t | Inv(s) ensures Inv(Next(s, t)) { NextKeepsInv(s, t); }
    InvariantHolds(Next, Inv, Init(rows, consumers), steps);
  }

  /**
  No message is lost. In every state of every run, whatever is cancelled, refused or crashes, each
  message ever stored is still in storage, or, when its row was deleted, the goroutine that deleted
  it had skipped it (undecodable, or no handler) or had seen one round in which every handler
  returned nil.
  */
  lemma NoMessageLost(rows: map<Id, Time>, consumers: seq<Consumer>, steps: seq<Step>, id: Id)
    requires AllNew(consumers)
    ensures var s := Run(Next, Init(rows, consumers), steps);
            id in s.copies && id !in s.rows ==> id in s.fate && (s.fate[id].plan.Skip? || L.Handled(s.fate[id]))
  {
    RunKeepsInv(rows, consumers, steps);
  }

  /**
  The barrier. When a batch has passed its wait, every copy it delivered has been deleted from
  storage, also if the deletion and the removal of its id ran before the id was added: a row with
  one of its ids can only have been stored after the batch was read.
  */
  lemma BatchPassesOnlyWhenDeleted(rows: map<Id, Time>, consumers: seq<Consumer>, steps: seq<Step>, c: nat, j: nat)
    requires AllNew(consumers)
    ensures var s := Run(Next, Init(rows, consumers), steps);
            c < |s.consumers| && IsPassed(s.consumers[c].pc) && j < |s.consumers[c].batch| ==>
              var x := s.consumers[c];
              && x.base + j < |x.ids| && x.ids[x.base + j] == x.batch[j]
              && x.base + j in x.confirmed
              && (x.batch[j] in s.rows ==> x.batch[j] in s.copies && s.copies[x.batch[j]] >= x.foundAt)
  {
    RunKeepsInv(rows, consumers, steps);
    var s := Run(Next, Init(rows, consumers), steps);
    if c < |s.consumers| && IsPassed(s.consumers[c].pc) && j < |s.consumers[c].batch| {
      PassedCopyIsDeleted(s.consumers[c], s.rows, s.copies, s.stores, j);
    }
  }

  lemma PassedCopyIsDeleted(x: Consumer, rows: map<Id, Time>, copies: map<Id, nat>, stores: nat, j: nat)
    requires BatchOk(x) && ConfirmedOk(x, rows, copies, stores) && IsPassed(x.pc) && j < |x.batch|
    ensures x.base + j < |x.ids| && x.ids[x.base + j] == x.batch[j] && x.base + j in x.confirmed
    ensures x.batch[j] in rows ==> x.batch[j] in copies && copies[x.batch[j]] >= x.foundAt
  {
    assert x.base + j in x.confirmed;
  }

  /** Within one consumer no message is in flight twice at once. */
  lemma NeverInFlightTwice(rows: map<Id, Time>, consumers: seq<Consumer>, steps: seq<Step>, c: nat, m: nat, k: nat)
    requires AllNew(consumers)
    ensures var s := Run(Next, Init(rows, consumers), steps);
            c < |s.consumers| && m != k && Flying(s.consumers[c], m) && Flying(s.consumers[c], k) ==>
              s.consumers[c].ids[m] != s.consumers[c].ids[k]
  {
    RunKeepsInv(rows, consumers, steps);
    var s := Run(Next, Init(rows, consumers), steps);
    if c < |s.consumers| {
      assert FlightOk(s.consumers[c]);
    }
  }

  /**
  A consumer that has a message in flight holds the topic lock, or one of its own batches was cut
  short by cancellation, since it started, and none has passed since.
  */
  lemma InFlightHoldsLockOrWasCut(rows: map<Id, Time>, consumers: seq<Consumer>, steps: seq<Step>, c: nat, m: nat)
    requires AllNew(consumers)
    ensures var s := Run(Next, Init(rows, consumers), steps);
            c < |s.consumers| && Flying(s.consumers[c], m) ==>
              s.lock == Some(c) || (s.consumers[c].leftover && s.consumers[c].cut)
  {
    RunKeepsInv(rows, consumers, steps);
    var s := Run(Next, Init(rows, consumers), steps);
    if c < |s.consumers| && Flying(s.consumers[c], m) {
      FlyingNeedsLock(s, c, m);
    }
  }

  /** Two consumers have messages in flight at once only while one of the two has such a batch behind it. */
  lemma OneConsumerInFlight(
      rows: map<Id, Time>, consumers: seq<Consumer>, steps: seq<Step>, c: nat, d: nat, m: nat, k: nat)
    requires AllNew(consumers)
    ensures var s := Run(Next, Init(rows, consumers), steps);
            && c < |s.consumers| && d < |s.consumers| && c != d
            && Flying(s.consumers[c], m) && Flying(s.consumers[d], k)
            ==> s.consumers[c].leftover || s.consumers[d].leftover
  {
    InFlightHoldsLockOrWasCut(rows, consumers, steps, c, m);
    InFlightHoldsLockOrWasCut(rows, consumers, steps, d, k);
  }

  lemma FlyingNeedsLock(s: State, c: nat, m: nat)
    requires LockOk(s) && c < |s.consumers| && LocalInv(s.consumers[c]) && Flying(s.consumers[c], m)
    ensures s.lock == Some(c) || (s.consumers[c].leftover && s.consumers[c].cut)
  {
    assert FlightOk(s.consumers[c]) && DrainOk(s.consumers[c]);
  }

  /** A short batch of a consumer that was never cut short, once through its wait, leaves nothing that was due. */
  lemma DueIsDeleted(x: Consumer, rows: map<Id, Time>, copies: map<Id, nat>, stores: nat, id: Id)
    requires BatchOk(x) && ConfirmedOk(x, rows, copies, stores) && !x.cut && x.pc == Unlocking(Passed(false)) &&
             id in x.due
    ensures id in rows ==> id in copies && copies[id] >= x.foundAt
  {
    assert DrainOk(x);
    var j :| 0 <= j < |x.batch| && x.batch[j] == id;
    PassedCopyIsDeleted(x, rows, copies, stores, j);
  }

  // ---- termination of the batch loops

  /** The messages of the batch the lock holder is working on. */
  ghost function Pending(s: State): set<Id> {
    if s.lock.Some? && s.lock.value < |s.consumers| && InBatch(s.consumers[s.lock.value].pc)
    then set id | id in s.consumers[s.lock.value].batch
    else {}
  }

  /** While nothing is stored and no batch is cut short, every batch that passes uses up at least one of `n` rows. */
  ghost predicate Bounded(n: nat, s: State) {
    Inv(s) && (s.stores == 1 && !s.anyCut ==> s.passes + |s.rows.Keys + Pending(s)| <= n)
  }

  lemma SmallerIsFewer(a: set<Id>, b: set<Id>)
    requires a <= b
    ensures |a| <= |b|
    ensures a < b ==> |a| < |b|
  {
    assert b == a + (b - a);
  }

  lemma StepKeepsBounded(n: nat, s: State, t: Step, c: nat)
    requires c < |s.consumers| && Bounded(n, s) && Inv(NextShared(s, t, c))
    ensures Bounded(n, NextShared(s, t, c))
  {
    var s' := NextShared(s, t, c);
    var x, x' := s.consumers[c], s'.consumers[c];
    var before, after := s.rows.Keys + Pending(s), s'.rows.Keys + Pending(s');
    OwnStepShape(x, t);
    if s'.stores == 1 && !s'.anyCut {
      if t.Check? && CanPass(x) {
        PassUsesUp(s, t, c);
        SmallerIsFewer(after, before);
      } else {
        assert Pending(s') <= before by { StepKeepsPending(s, t, c); }
        SmallerIsFewer(after, before);
      }
    }
  }

  lemma StepKeepsPending(s: State, t: Step, c: nat)
    requires LockOk(s) && c < |s.consumers|
    ensures Pending(NextShared(s, t, c)) <= s.rows.Keys + Pending(s)
  {
    var s' := NextShared(s, t, c);
    if s'.lock == Some(c) && InBatch(s'.consumers[c].pc) {
      BatchesComeFromRows(s, t, c);
      if InBatch(s.consumers[c].pc) {
        assert s.lock == Some(c);
        assert Pending(s') <= Pending(s);
      }
    } else if s'.lock.Some? && s'.lock.value != c {
      assert s'.lock == s.lock;
      assert Pending(s') == Pending(s);
    }
  }

  lemma BatchesComeFromRows(s: State, t: Step, c: nat)
    requires c < |s.consumers| && InBatch(NextConsumer(s, t, c).pc)
    ensures var x, d := s.consumers[c], NextConsumer(s, t, c);
            if InBatch(x.pc) then d.batch == x.batch else forall i :: 0 <= i < |d.batch| ==> d.batch[i] in s.rows
  {
    var x, d := s.consumers[c], NextConsumer(s, t, c);
    if t.Find? {
      FoundAreRows(x, t, s.rows, s.stores);
    } else {
      OtherStepKeepsBatch(s, t, c);
    }
  }

  lemma FoundAreRows(x: Consumer, t: Step, rows: map<Id, Time>, stores: nat)
    requires t.Find? && InBatch(NextTable(x, t, rows, stores).pc)
    ensures var d := NextTable(x, t, rows, stores);
            if InBatch(x.pc) then d == x else forall i :: 0 <= i < |d.batch| ==> d.batch[i] in rows
  {
    FindOutcome(x, t, rows, stores);
    if x.pc.Finding? { FoundInRows(rows, x.pc.excluded, t.now, x.size, t.found); }
  }

  lemma FoundInRows(rows: map<Id, Time>, excluded: set<Id>, now: Time, limit: int, found: seq<Id>)
    ensures IsFound(rows, excluded, now, limit, found) ==> forall i :: 0 <= i < |found| ==> found[i] in rows
  {
    if IsFound(rows, excluded, now, limit, found) {
      forall i | 0 <= i < |found| ensures found[i] in rows {
        assert Eligible(rows, excluded, now, found[i]);
      }
    }
  }

  lemma FindOutcome(x: Consumer, t: Step, rows: map<Id, Time>, stores: nat)
    requires t.Find?
    ensures var d := NextTable(x, t, rows, stores);
            || d == x
            || (x.pc.Finding? && d == x.(pc := Unlocking(Failed), failed := true))
            || (x.pc.Finding? && IsFound(rows, x.pc.excluded, t.now, x.size, t.found) &&
                d == Found(x, rows, stores, t.now, t.found))
  {
  }

  lemma OtherStepKeepsBatch(s: State, t: Step, c: nat)
    requires c < |s.consumers| && !t.Find? && InBatch(NextConsumer(s, t, c).pc)
    ensures InBatch(s.consumers[c].pc) && NextConsumer(s, t, c).batch == s.consumers[c].batch
  {
    OwnStepShape(s.consumers[c], t);
  }

  lemma PassedRowIsGone(x: Consumer, rows: map<Id, Time>, copies: map<Id, nat>)
    requires BatchOk(x) && ConfirmedOk(x, rows, copies, 1) && CanPass(x)
    ensures x.batch != [] && x.batch[0] !in rows
  {
    assert x.processing == {};
    assert x.base in x.confirmed;
    assert x.ids[x.base] == x.batch[0];
  }

  lemma PassUsesUp(s: State, t: Step, c: nat)
    requires c < |s.consumers| && LockOk(s) && BatchOk(s.consumers[c])
    requires ConfirmedOk(s.consumers[c], s.rows, s.copies, 1) && t.Check? && CanPass(s.consumers[c])
    ensures NextShared(s, t, c).rows.Keys + Pending(NextShared(s, t, c)) < s.rows.Keys + Pending(s)
  {
    var x := s.consumers[c];
    PassedRowIsGone(x, s.rows, s.copies);
    assert Critical(x.pc) && s.lock == Some(c);
    assert x.batch[0] in Pending(s);
    PassEndsBatch(s, t, c);
    assert NextShared(s, t, c).rows == s.rows;
  }

  lemma PassEndsBatch(s: State, t: Step, c: nat)
    requires c < |s.consumers| && s.lock == Some(c) && t.Check? && CanPass(s.consumers[c])
    ensures Pending(NextShared(s, t, c)) == {}
  {
  }

  lemma NextKeepsBounded(n: nat, s: State, t: Step)
    requires Bounded(n, s)
    ensures Bounded(n, Next(s, t))
  {
    NextKeepsInv(s, t);
    if t.Store? {
      assert t.id in s.rows || Next(s, t).stores != 1;
    } else if t.c < |s.consumers| {
      StepKeepsBounded(n, s, t, t.c);
    }
  }

  /**
  With nothing stored and no batch cut short, all consumers together pass at most as many nonempty
  batches as there were rows, for every batch size: their loops end unless a wait never returns.
  */
  lemma BatchesAreBounded(rows: map<Id, Time>, consumers: seq<Consumer>, steps: seq<Step>)
    requires AllNew(consumers)
    ensures var s := Run(Next, Init(rows, consumers), steps);
            s.stores == 1 && !s.anyCut ==> s.passes <= |rows|
  {
    var inv := (s: State) => Bounded(|rows|, s);
    RunKeepsInv(rows, consumers, []);
    forall s, t | inv(s) ensures inv(Next(s, t)) { NextKeepsBounded(|rows|, s, t); }
    assert rows.Keys + {} == rows.Keys;
    InvariantHolds(Next, inv, Init(rows, consumers), steps);
  }

  /** Where the worker is in its loop; the wait counts as one place. */
  function Phase(pc: Pc): nat {
    match pc
    case Idle => 0
    case Unlocking(end) => if end == Passed(true) then 7 else 1
    case Checking | Dozing | Asleep => 2
    case Sending | Adding => 3
    case Finding(_) => 4
    case Excluding => 5
    case Locking => 6
  }

  /** What is left of the batch to hand over. */
  function LeftToSend(x: Consumer): nat {
    if x.pc.Sending? && x.sent <= |x.batch| then 2 * (|x.batch| - x.sent) + 1
    else if x.pc.Adding? && x.sent <= |x.batch| then 2 * (|x.batch| - x.sent)
    else 0
  }

  /** Lexicographic order. */
  predicate Below(a: (nat, nat, nat), b: (nat, nat, nat)) {
    a.0 < b.0 || (a.0 == b.0 && (a.1 < b.1 || (a.1 == b.1 && a.2 < b.2)))
  }

  /** Rows that are there or being worked on, then the worker's place in its loop, then what is left of its batch. */
  ghost function LoopMeasure(s: State, c: nat): (nat, nat, nat)
    requires c < |s.consumers|
  {
    (|s.rows.Keys + Pending(s)|, Phase(s.consumers[c].pc), LeftToSend(s.consumers[c]))
  }

  /** A step of the worker's loop: all of them but the sleeping and waking inside its wait. */
  predicate InLoop(t: Step, x: Consumer) {
    t.Lock? || t.Exclude? || t.Find? || t.Send? || t.AddToProcessing? || t.EnterWait? || t.Unlock? ||
        (t.Check? && CanPass(x))
  }

  predicate IsDown(x: Consumer, d: Consumer) {
    Phase(d.pc) < Phase(x.pc) || (Phase(d.pc) == Phase(x.pc) && LeftToSend(d) < LeftToSend(x))
  }

  lemma LockingGoesDown(x: Consumer, t: Step, lockFree: bool)
    requires (t.Lock? || t.Unlock?) && NextLocking(x, t, lockFree) != x
    ensures IsDown(x, NextLocking(x, t, lockFree))
  {
  }

  lemma FindGoesDown(x: Consumer, t: Step, rows: map<Id, Time>, stores: nat)
    requires t.Find? && NextTable(x, t, rows, stores) != x
    ensures IsDown(x, NextTable(x, t, rows, stores))
  {
  }

  lemma OwnGoesDown(x: Consumer, t: Step)
    requires (t.Exclude? || t.Send? || t.AddToProcessing? || t.EnterWait?) && NextOwn(x, t) != x
    ensures IsDown(x, NextOwn(x, t))
  {
  }

  lemma LoopStepGoesDown(s: State, t: Step, c: nat)
    requires c < |s.consumers| && InLoop(t, s.consumers[c]) && !t.Check? && NextConsumer(s, t, c) != s.consumers[c]
    ensures IsDown(s.consumers[c], NextConsumer(s, t, c))
  {
    if t.Lock? || t.Unlock? {
      LockingGoesDown(s.consumers[c], t, s.lock.None?);
    } else if t.Find? {
      FindGoesDown(s.consumers[c], t, s.rows, s.stores);
    } else {
      OwnGoesDown(s.consumers[c], t);
    }
  }

  predicate InPlace(x: Consumer, d: Consumer) {
    Phase(d.pc) == Phase(x.pc) && LeftToSend(d) == LeftToSend(x)
  }

  lemma OwnStaysInPlace(x: Consumer, t: Step)
    requires t.Sleep? || t.Listen? || t.Remove? || t.Signal?
    ensures InPlace(x, NextOwn(x, t))
  {
    if t.Remove? {
      RemovedStaysInPlace(x, t.p);
    } else if t.Signal? {
      SignalledStaysInPlace(x, t.p);
    }
  }

  lemma RemovedStaysInPlace(x: Consumer, p: nat)
    ensures p < |x.ids| ==> InPlace(x, Removed(x, p))
  {
  }

  lemma SignalledStaysInPlace(x: Consumer, p: nat)
    ensures InPlace(x, Signalled(x, p))
  {
  }

  lemma OtherStepStaysInPlace(s: State, t: Step, c: nat)
    requires c < |s.consumers| && !t.Store? && !t.Wake? && !t.Crash? && !t.CutShort? && !InLoop(t, s.consumers[c])
    ensures InPlace(s.consumers[c], NextConsumer(s, t, c))
  {
    if !t.Check? && !t.Delete? { OwnStaysInPlace(s.consumers[c], t); }
  }

  lemma RowsOnlyGo(s: State, t: Step, c: nat)
    requires c < |s.consumers| && LockOk(s)
    ensures |NextShared(s, t, c).rows.Keys + Pending(NextShared(s, t, c))| <= |s.rows.Keys + Pending(s)|
  {
    StepKeepsPending(s, t, c);
    SmallerIsFewer(NextShared(s, t, c).rows.Keys + Pending(NextShared(s, t, c)), s.rows.Keys + Pending(s));
  }

  /**
  Termination of the batch loop. While nothing is stored, no consumer crashes and no batch is cut
  short, every step of a worker's loop lowers a well-founded measure and no step of anyone else
  raises it, for every batch size: a loop that does not end is one whose wait does not return.
  */
  lemma LoopStepsUseUp(s: State, t: Step, c: nat)
    requires Inv(s) && s.stores == 1 && c < |s.consumers|
    requires !t.Store? && !t.CutShort? && !t.Crash? && t != Wake(c) && t.c < |s.consumers|
    ensures c < |Next(s, t).consumers|
    ensures t.c == c && InLoop(t, s.consumers[c]) && NextConsumer(s, t, c) != s.consumers[c] ==>
              Below(LoopMeasure(Next(s, t), c), LoopMeasure(s, c))
    ensures Below(LoopMeasure(Next(s, t), c), LoopMeasure(s, c)) || LoopMeasure(Next(s, t), c) == LoopMeasure(s, c)
  {
    NextIsShared(s, t);
    if t.c == c {
      assert BatchOk(s.consumers[c]) && ConfirmedOk(s.consumers[c], s.rows, s.copies, 1);
      OwnStepUsesUp(s, t, c);
    } else {
      OthersStepUsesUp(s, t, c);
    }
  }

  lemma NextIsShared(s: State, t: Step)
    requires !t.Store? && t.c < |s.consumers|
    ensures Next(s, t) == NextShared(s, t, t.c) && |Next(s, t).consumers| == |s.consumers|
  {
  }

  lemma OthersStepUsesUp(s: State, t: Step, c: nat)
    requires c < |s.consumers| && !t.Store? && t.c < |s.consumers| && t.c != c && LockOk(s)
    ensures var m, m' := LoopMeasure(s, c), LoopMeasure(NextShared(s, t, t.c), c); Below(m', m) || m' == m
  {
    RowsOnlyGo(s, t, t.c);
    OthersAreLeft(s, t, t.c, c);
  }

  lemma OthersAreLeft(s: State, t: Step, d: nat, c: nat)
    requires c < |s.consumers| && d < |s.consumers| && d != c
    ensures |NextShared(s, t, d).consumers| == |s.consumers| && NextShared(s, t, d).consumers[c] == s.consumers[c]
  {
  }

  lemma OwnStepUsesUp(s: State, t: Step, c: nat)
    requires c < |s.consumers| && LockOk(s) && BatchOk(s.consumers[c]) &&
             ConfirmedOk(s.consumers[c], s.rows, s.copies, 1)
    requires !t.Store? && !t.CutShort? && !t.Crash? && !t.Wake?
    ensures var m, m' := LoopMeasure(s, c), LoopMeasure(NextShared(s, t, c), c);
            && (InLoop(t, s.consumers[c]) && NextConsumer(s, t, c) != s.consumers[c] ==> Below(m', m))
            && (Below(m', m) || m' == m)
  {
    var s' := NextShared(s, t, c);
    assert s'.consumers[c] == NextConsumer(s, t, c);
    RowsOnlyGo(s, t, c);
    if t.Check? && CanPass(s.consumers[c]) {
      PassUsesUp(s, t, c);
      SmallerIsFewer(s'.rows.Keys + Pending(s'), s.rows.Keys + Pending(s));
    } else if !InLoop(t, s.consumers[c]) {
      OtherStepStaysInPlace(s, t, c);
    } else if NextConsumer(s, t, c) != s.consumers[c] {
      LoopStepGoesDown(s, t, c);
    }
  }

  lemma ConsumerAfter(s: State, t: Step, c: nat)
    requires c < |s.consumers|
    ensures c < |Next(s, t).consumers|
    ensures Next(s, t).consumers[c] == if !t.Store? && t.c == c then NextConsumer(s, t, c) else s.consumers[c]
  {
  }
}
