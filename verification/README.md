# Verification of the message pipeline and its transaction primitives

A Dafny model of the hard part of a Go service template: messages that are stored in the same
transaction as the data they are about, delivered by an outbox or a storage consumer, processed by
listeners with bounded queues, and handled idempotently; together with what this stands on: the
worker pool and group, nested transactions, advisory locks and migrations, and, end to end, the
deletion of a user.

`dafny verify dfyconfig.toml` checks everything.

## How it is modelled

- What one goroutine does to its own data (queues, outbox, bus producer, group, database handle,
  migrator, query splitting, the storage query) is a class or a method with the source's loops, proved
  against a specification: a pure function of the old state, or a relation between table and log.
- What several goroutines or transactions do to shared data (listener, storage consumers, pool,
  advisory locks, user deletion, profile deletion, sessions) is a state machine: a total function
  `Next(state, step)` in which a step that is not enabled changes nothing. Every list of steps is
  then a run (`Runs.dfy`), so a lemma about `Run(Next, init, steps)` for all `steps` speaks of every
  interleaving, and of the state after a crash at any point.
- Brokers, databases, clocks and schedulers are choices: arguments of steps, nondeterministic
  values, or a budget of failures (`faults`) that may strike anywhere. Time is an integer.
- Mutex sections are single steps wherever they contain no blocking call; the places where the
  source's mutexes do not exclude each other are separate steps.

| file | component |
|---|---|
| `CommitOffsetQueue.dfy`, `AckNackQueue.dfy` | the processing queues of a listener |
| `Listener.dfy`, `ListenerAnswers.dfy` | the listener protocol over all three queues; what it answers for a message |
| `MessageStorage.dfy` | the query on the message table |
| `StorageConsumer.dfy`, `StorageConsumerHistory.dfy`, `StorageConsumerDrain.dfy`, `StorageConsumerWaits.dfy`, `StorageConsumerTraces.dfy`, `StorageConsumerOverlap.dfy` | any number of storage consumers, each with its listener; what must have happened before; the end of their loops; exactly which of their waits return; runs in which they get stuck; and runs in which a message is handled by two |
| `Outbox.dfy`, `BusProducer.dfy` | sending stored messages, and storing them |
| `WorkerPool.dfy`, `WorkerGroup.dfy` | the bounded pool and the error group |
| `Transaction.dfy`, `AdvisoryLocks.dfy`, `Migration.dfy`, `QuerySplit.dfy` | `pkg/sql` |
| `UserDeletion.dfy`, `ProfileDeletion.dfy`, `ProfileAtomicity.dfy`, `ProfilePresence.dfy`, `ProfileRuns.dfy`, `ProfileUpdates.dfy`, `Session.dfy` | deletion of a user, from the row to the profile and the sessions |
| `Runs.dfy`, `StringOrder.dfy`, `Options.dfy` | shared vocabulary |

## Where the code does less than one would hope

Each of these is kept in the model as the code has it, with a lemma that shows it.

- A storage consumer's batch can wait forever although all its messages are done: an acknowledgement
  may run between the hand-over of a message and `addToProcessing`, which then adds a stale id
  (`EarlyAckDoomsTheBatch`), and the signal may fall between the test of the count and the
  registration with the condition variable, because the two use different mutexes
  (`LostSignalDoomsTheBatch`). In every reachable state a waiting batch can still pass if and only if
  each id it waits for has a copy that can still be acknowledged (after cancellation: one whose
  handlers run or succeeded), and it has not decided to sleep after the last signal
  (`PassesIffNotDoomed`). The safety of the barrier holds all the same (`BatchPassesOnlyWhenDeleted`).
- After a batch was cut short by cancellation the topic lock is released with messages in flight, and
  another consumer can deliver the same message while its first handler is still at work
  (`HandledTwiceAfterCut`, for any two messages). A consumer has messages in flight only while it holds
  the lock, or after one of its own batches was cut short, since it started, and none has passed since
  (`InFlightHoldsLockOrWasCut`); so of two consumers with messages in flight at once, one is in that
  position (`OneConsumerInFlight`).
- In the outbox the deferred release of the lock overwrites the error of the batch, so a failed send is
  reported as "not all processed" without error and repeated at once, without backoff
  (`Outbox.Outbox.ProcessBatch`). Nothing is lost by it.
- The bus producer appends the topics of a type once for every message of that type, and registration
  refuses a second registration in a topic by name, not by type. So with k messages of a type in the
  list, each occurrence of a message is produced k times for each registration of its type in a topic
  (`CallsPerPair`). Every message of a list is produced exactly once for each of its topics if and only
  if the messages have pairwise different types and none of these is registered twice in one topic
  (`OncePerPairIff`), which registration ensures for types that always report the same name
  (`OneNamePerType`) and not for others (`TwoNamesProduceTwice`). The table hides the repetition because
  a second insertion does nothing (`BusProducer.BusProducer.Schedule`).
- `ackNackQueue` does not check that the message it releases is queued: it conserves tokens exactly
  for queued messages (`ReleaseConservesExactlyForMembers`), and a second acknowledgement of a message
  hangs it if no token is outstanding, and otherwise leaves one too many (`SecondAcknowledgementHangs`).
  That this never happens is a property of the listener (`TokensAreConserved`).
- A nested `WithinContext` whose error the outer function swallows leaves its writes in the outer
  transaction, which commits them (`SwallowedErrorIsKept`).
- Advisory locks are taken in ascending order of keys, but on the hashes of the keys. For every hash and
  set of keys, `CanDeadlockIff` says exactly when calls over these keys can deadlock: with exclusive
  locks only, if and only if two keys that share a lock id have a key with another id between them; with
  each key in one mode per call, or acquired exclusive first, if and only if two keys share a lock id; and
  without any such discipline, if and only if there is a key at all. The runs are `ExclusiveLocksDeadlock`,
  `CollidingIdsDeadlock` and `UpgradeDeadlocks`.
- A job submitted after the first `Wait` of a group can fail unnoticed (`LateErrorIsLost`): a `Wait`
  returns the first error of all jobs so far if and only if one had failed before the first `Wait`
  returned, or none has since (`WaitIsRightIff`).
- An event redelivered after its idempotency key was cleaned up is committed again
  (`ExpiredKeyCommitsTwice`); between two commits lies more than a key lifetime (`CommitsAreSpaced`).
- Success of the handler does not mean that the profile stays away. An update asks the user service and
  stores the profile later, without a lock or a transaction, so a store after the handler's delete
  survives, whether it comes before the handler's commit (`RacingUpdateStays`) or after it
  (`LaterUpdateStays`). In every run a profile is there if and only if a store of it followed the delete
  of every committed handling for its user, or it was there at the start and there was neither
  (`ProfileIsThereIff`); after a handling, such a store is by an update that asked before the user was
  deleted (`OnlyEarlierUpdatesRestore`); and a profile of a deleted user that is gone stays away for good
  if and only if no such update is still to store (`GoneForGoodIff`).

## Model

| member | source | states |
|---|---|---|
| CommitOffsetQueue.Queue.constructor | pkg/message/listenerqueue.go:51-67 | a new queue is empty, with one token per slot, at least one slot whatever size was asked for |
| CommitOffsetQueue.Queue.TakeToken | pkg/message/listenerqueue.go:69-71 | taking a token is the abstract operation: it succeeds exactly when the channel holds one |
| CommitOffsetQueue.Queue.AddProcessing | pkg/message/listenerqueue.go:73-87 | the array queue refines "append to the delivered sequence", refused exactly when all slots are taken |
| CommitOffsetQueue.Queue.MarkProcessed | pkg/message/listenerqueue.go:97-101 | exactly the positions still queued that hold the message become processed |
| CommitOffsetQueue.Queue.ProcessedPrefix | pkg/message/listenerqueue.go:103-119 | the count found by the loop is the longest processed run after the commit point |
| CommitOffsetQueue.Queue.Shift | pkg/message/listenerqueue.go:126-130 | moving entries within the one array drops exactly the first ones and keeps the rest in order |
| CommitOffsetQueue.Queue.ReturnTokens | pkg/message/listenerqueue.go:131-133 | the send loop blocks exactly when the channel has no room for all tokens |
| CommitOffsetQueue.Queue.CommitPrefix | pkg/message/listenerqueue.go:121-135 | an accepted offset is that of the last message of the prefix; the prefix leaves the queue and its slots become tokens |
| CommitOffsetQueue.Queue.AcknowledgeResult | pkg/message/listenerqueue.go:89-136 | a whole acknowledgement, with negative results, repetitions, refused commits and a blocked channel, refines the operation on delivered sequence, processed set and committed prefix |
| CommitOffsetQueue.Frontier | pkg/message/listenerqueue.go:108-116 | the end of the longest processed run: everything before it is processed, and it is the end of the queue or unprocessed |
| CommitOffsetQueue.AfterIsWf | pkg/message/listenerqueue.go:73-136 | in every history the committed prefix is processed and the delivered sequence is that prefix followed by at most a queue's capacity |
| CommitOffsetQueue.ProcessedIsAcked | pkg/message/listenerqueue.go:97-101 | after every history a position is flagged if and only if its message was acknowledged positively after it was delivered |
| CommitOffsetQueue.NeverPassesUnacknowledged | pkg/message/listenerqueue.go:89-136 | no history commits an offset beyond an unacknowledged message |
| CommitOffsetQueue.CommitPointIsLongestAckedPrefix | pkg/message/listenerqueue.go:89-136 | after each acknowledgement that returns nil the commit point is the longest acknowledged prefix, defined by the history alone |
| CommitOffsetQueue.CommitsStrictlyAdvance | pkg/message/listenerqueue.go:121-130 | successful commits strictly advance, and the last one is where the queue begins |
| CommitOffsetQueue.HistoryOnlyGrows | pkg/message/listenerqueue.go:73-136 | delivered sequence, processed positions and committed prefix are never taken back |
| CommitOffsetQueue.TokensConserved | pkg/message/listenerqueue.go:126-135 | if every added message was paid for with a token, tokens, held tokens and queued messages keep adding up to the size, nothing hangs and nothing is refused as full |
| AckNackQueue.Queue.constructor | pkg/message/listenerqueue.go:138-155 | a new queue is empty, with one token per slot |
| AckNackQueue.QueuedIsAddedAndNotReleased | pkg/message/listenerqueue.go:161-211 | in every history of operations, which every method of the queue extends by its own, the queue holds exactly the messages that were added and for which no acknowledgement was accepted since; for an ack-only queue a negative result never counts |
| AckNackQueue.TokensAreTakenAndReturned | pkg/message/listenerqueue.go:143-195 | in every history the channel holds the tokens it began with, less those taken, plus one for each acknowledgement that returned nil |
| AckNackQueue.ReleaseConservesExactlyForMembers | pkg/message/listenerqueue.go:189-194 | an accepted acknowledgement conserves tokens if and only if the message was queued; with nothing outstanding it hangs |
| AckNackQueue.SecondAcknowledgementHangs | pkg/message/listenerqueue.go:189-194 | in every balanced state, a second acknowledgement of a queued message hangs if and only if no token is then outstanding, and otherwise leaves one token too many |
| Listener.TokensAreConserved | pkg/message/listener.go:133-262 | in every run, for each of the three queues: free tokens, the worker's token and queued messages add up to the size, "queue is full" is unreachable, the token send under the mutex never blocks, and no message has two successful acknowledgements |
| ListenerAnswers.AcknowledgedMeansHandled | pkg/message/listener.go:168-262 | for each of the three queues and in every run, what a goroutine has answered, or is about to answer, is positive if and only if its message was skipped or all handlers of its last round returned nil, and negative if and only if a handler of that round failed; only the ack/nack queue accepts a negative answer |
| ListenerAnswers.RoundsAreRetries | pkg/message/listener.go:205-241 | in every run a round is repeated only after a failed one, with the ack/nack queue never; a skipped message runs none; a goroutine returns without an acknowledgement only when the listener was cancelled |
| ListenerAnswers.SkippedIsAcknowledged | pkg/message/listener.go:156-203 | a message that is skipped, with nothing in the way, ends acknowledged positively, for every queue |
| ListenerAnswers.RoundIsAnswered | pkg/message/listener.go:211-240 | a round of handlers, with nothing in the way, ends in the acknowledgement that its results call for: positive for every queue if none failed, negative with the ack/nack queue if one did |
| ListenerAnswers.FailedRoundIsRepeated | pkg/message/listener.go:237-256 | with the other queues a failed round is answered by nothing, and the goroutine is back at its loop |
| ListenerAnswers.RefusedIffUnsupported | pkg/message/listener.go:254-256 | a goroutine with a failed round goes back to its loop if and only if its queue answers that it takes no negative result; otherwise nothing changes |
| ListenerAnswers.HalvesMakeAcknowledgement | pkg/message/listenerqueue.go:176-195 | the call of the broker and the mutex section, one after the other, are the operation of the ack and ack/nack queues: accepted exactly when the broker accepts and the queue takes the result, and otherwise without effect |
| ListenerAnswers.WorkerDelivers | pkg/message/listener.go:137-155 | a worker that finds a token gives the next message a goroutine of its own and goes back to its loop, and stops only for a message that is already being processed |
| ListenerAnswers.WorkerStopsOnlyIf | pkg/message/listener.go:133-166 | in every run the worker has stopped only if the listener was cancelled or the channel closed, or, with the ack and ack/nack queues, a message was received twice |
| Listener.CommittedMeansHandled | pkg/message/listener.go:168-262 | with the offset queue, no committed offset covers a message that was neither skipped nor completely handled in one round |
| Listener.AllTokensReturn | pkg/message/listener.go:133-262 | for every queue, once all goroutines have acknowledged and the worker holds nothing, all tokens are back; failed commits delay this only while a goroutine has yet to repeat one |
| Listener.WorkerWaitsOnlyForGoroutines | pkg/message/listener.go:138-143 | in every run, if the worker finds no token, some goroutine is still to acknowledge: tokens are never lost |
| Listener.GoroutinesNeverStuck | pkg/message/listener.go:168-262 | in every run each goroutine that has not returned can move if the broker answers, also when its queue takes the mutex and returns the token |
| Listener.NextKeepsInv | pkg/message/listener.go:133-262 | every single step of worker and goroutines keeps the token balance and the match between queued messages and live goroutines |
| MessageStorage.Earliest | pkg/sql/messagestorage.go:47-47 | an earliest row |
| MessageStorage.Find | pkg/sql/messagestorage.go:42-80 | the query returns due, not excluded rows, each once, in schedule order, and all of them or, for a positive limit, the earliest ones |
| MessageStorage.ShortResultIsComplete | pkg/sql/messagestorage.go:54-56 | a result shorter than the limit, or without a limit, left nothing out |
| MessageStorage.NothingFoundNothingDue | pkg/message/storageconsumer.go:242-244 | an empty result means nothing is due, for every limit |
| StorageConsumer.NoMessageLost | pkg/message/storageconsumer.go:179-190 | in every run of any number of consumers and their listeners, crashes and cancellations included, each message ever stored is in storage, or was skipped, or had one complete round of handlers that all returned nil before its deletion |
| StorageConsumer.BatchPassesOnlyWhenDeleted | pkg/message/storageconsumer.go:221-285 | a batch that passed its wait has every message it delivered deleted, in every interleaving, also when an acknowledgement ran before the matching addToProcessing |
| StorageConsumer.NeverInFlightTwice | pkg/message/storageconsumer.go:233-292 | within one consumer no message is in flight twice at once |
| StorageConsumer.InFlightHoldsLockOrWasCut | pkg/message/storageconsumer.go:222-257 | in every run, a consumer with a message in flight holds the topic lock, or one of its own batches was cut short since it started and none has passed since |
| StorageConsumer.OneConsumerInFlight | pkg/message/storageconsumer.go:222-257 | two consumers have messages in flight at once only if one of the two is in that position |
| StorageConsumerDrain.DrainedWhenDone | pkg/message/storageconsumer.go:200-266 | in every run, when the worker of a consumer that was never cut short is back at its signal without an error since it was woken, nothing that was due at its last query is left, unless it was stored again later |
| StorageConsumerDrain.OneSignalDrainsTable | pkg/message/storageconsumer.go:200-266 | for every table whose rows are all due, a run in which a consumer with batches of one message, woken once, delivers every row once and is back at its signal with the table empty: a full batch does not end the loop |
| StorageConsumerHistory.LockIsGivenBack | pkg/message/storageconsumer.go:222-231 | in every run the holder of the topic lock is between taking and releasing it, or has made a release that failed without effect |
| StorageConsumerHistory.AcknowledgedOnlyIfDeleted | pkg/message/storageconsumer.go:179-190 | in every run a goroutine whose id is being removed from the processed ones has made a deletion that reported success |
| StorageConsumerHistory.CutOnlyIfCancelled | pkg/message/storageconsumer.go:246-257 | in every run a batch was cut short only in a consumer that was cancelled |
| StorageConsumerHistory.NothingIsAddedBeforeSignal | pkg/message/storageconsumer.go:268-285 | in every run, between the removal of the last id and the signal, under the mutex, no id is being processed and no other goroutine is about to signal |
| StorageConsumerHistory.RowStays | pkg/sql/messagestorage.go:82-95 | over any run, a row that is there all along keeps its time, whatever is stored under its id |
| StorageConsumer.BatchesAreBounded | pkg/message/storageconsumer.go:200-266 | with nothing stored and nothing cut short, all consumers together pass at most as many nonempty batches as there were rows, for every batch size |
| StorageConsumer.LoopStepsUseUp | pkg/message/storageconsumer.go:200-266 | termination: with nothing stored, no crash and nothing cut short, each step of a worker's batch loop outside its wait lowers a well-founded measure, for every batch size, and no other step raises it, so a loop that does not end is in a wait that does not return |
| StorageConsumerWaits.PassesIffNotDoomed | pkg/message/storageconsumer.go:246-285 | in every reachable state, cancelled or not, a waiting batch can still pass its wait without a crash if and only if it does not wait for an id without an acknowledgeable copy and has not missed the last signal |
| StorageConsumerWaits.DoomedForever | pkg/message/storageconsumer.go:259-263 | a doomed batch stays so in every continuation without a crash of its consumer, whatever else happens |
| StorageConsumerWaits.CanStillPass | pkg/message/storageconsumer.go:179-190 | any other waiting batch passes after finitely many steps of its own worker and listener, without crash or cancellation |
| StorageConsumer.NextKeepsInv | pkg/message/storageconsumer.go:153-292 | every step keeps what the results rest on: the lock, the flying copies, the batch and the history of deletions |
| StorageConsumerTraces.EarlyAckDoomsTheBatch | pkg/message/storageconsumer.go:246-257 | a run in which the acknowledgement overtakes addToProcessing and the batch is doomed with an empty table |
| StorageConsumerTraces.LostSignalDoomsTheBatch | pkg/message/storageconsumer.go:259-285 | a run in which the signal is lost between test and sleep and the batch is doomed with nothing being processed |
| StorageConsumerOverlap.HandledTwiceAfterCut | pkg/message/storageconsumer.go:254-256 | for any two messages, a run in which the handlers of the one scheduled first are at work in two consumers at once, after one consumer was cancelled in the middle of its batch |
| StorageConsumerTraces.BatchGoesThrough | pkg/message/storageconsumer.go:221-266 | a run in which nothing is overtaken: the message is handled, its row deleted and the wait passed |
| Outbox.Outbox.SendAndDelete | pkg/message/outbox.go:139-155 | one message is sent and deleted, or a failure was used up; table and log stay consistent |
| Outbox.Outbox.Delete | pkg/message/outbox.go:148-154 | the row of a message just sent is removed; a failed delete may or may not have removed it |
| Outbox.Outbox.DeliverAll | pkg/message/outbox.go:139-155 | all messages found are sent and removed in order, up to the first failure |
| Outbox.Outbox.Deliver | pkg/message/outbox.go:124-157 | "all processed" means that nothing due at a query made during the call is left; otherwise a failure was used up or the table shrank; all of it under the lock |
| Outbox.Outbox.ProcessBatch | pkg/message/outbox.go:106-158 | an error is returned if and only if taking or releasing the lock failed, once, whatever else went wrong inside; the lock is not held afterwards |
| Outbox.Outbox.ProcessBatches | pkg/message/outbox.go:90-101 | the loop ends for every batch size; it fails exactly with one failure of the lock, and without one nothing that was due when it was called is left |
| Outbox.Outbox.Process | pkg/message/outbox.go:89-104 | with retries until cancellation, here a number of repetitions, the processing ends for any finite number of failures: it gives up exactly after that many repetitions and one more failure of the lock, and otherwise nothing that was due when it was called is left |
| Outbox.Serve | pkg/message/outbox.go:69-158 | over a fixed backlog and any failures: sends never go back in schedule order, repeated sends are consecutive for distinct times, each message is sent at most once plus its failed deletes, every delete directly follows a send, nothing is lost; if the last run repeats often enough for the failures, everything due by then, and so at the start, was sent and deleted; and without failures exactly once |
| Outbox.OutboxGuarantees | pkg/message/outbox.go:139-155 | order, bounded duplication, single deletion and no loss follow from the consistency every method keeps |
| Outbox.DuplicatesAreConsecutive | pkg/message/outbox.go:124-155 | between two sends of a message only that message is sent |
| Outbox.SendsAreOrdered | pkg/message/outbox.go:124-155 | successful sends are nondecreasing in schedule time |
| BusProducer.BusProducer.RegisterOne | pkg/message/busproducer.go:158-179 | refuses a blank name and a name the topic already has, and otherwise keeps the three maps views of one list of registrations |
| BusProducer.BusProducer.Register | pkg/message/busproducer.go:122-137 | registers in order up to the first refusal, and keeps what came before it |
| BusProducer.BusProducer.HasProducers | pkg/message/busproducer.go:251-259 | the second lookup succeeds for every topic of a registered type: it cannot fail |
| BusProducer.BusProducer.Resolve | pkg/message/busproducer.go:239-260 | fails if and only if some type is unregistered; otherwise finds the topics of each type, repeated once per message of that type |
| BusProducer.BusProducer.StoreFor | pkg/message/busproducer.go:266-272 | one message is stored for each topic of a list; rows that were there stay as they were; a failure leaves a proper prefix of that |
| BusProducer.BusProducer.Schedule | pkg/message/busproducer.go:234-276 | an unregistered type fails before any store; on success the table is that of one store per message and registered topic, although the calls made are counted with their repetitions; a row that was added has the given time, or that of the clock during the call, and the payload of the first message of its key; a failed store, of which there is one at most, leaves a proper prefix of the calls |
| BusProducer.CallsPerPair | pkg/message/busproducer.go:241-273 | for every list, message and topic, the number of produce calls is the number of occurrences of the message, times the number of messages of its type, times the number of registrations of the type in the topic |
| BusProducer.OncePerPairIff | pkg/message/busproducer.go:249-273 | every message is produced exactly once for each of its topics if and only if no two messages have the same type and no type of the list is registered twice in one topic |
| BusProducer.OneNamePerType | pkg/message/busproducer.go:165-172 | the second condition follows from registration where equal types report equal names |
| BusProducer.TwoNamesProduceTwice | pkg/message/busproducer.go:165-175 | where they do not, a single message is produced twice |
| WorkerPool.NextKeepsInv | pkg/worker/pool.go:42-65 | every step keeps the counter equal to the slots held, and, while a caller sleeps, free slots covered by signals to come and woken callers |
| WorkerPool.NeverMoreThanMax | pkg/worker/pool.go:29-65 | no run has more jobs running than the limit, which is the number of processors for a negative request |
| WorkerPool.StartsIff | pkg/worker/pool.go:29-52 | in every run a caller that tests the counter gets its job started, and does not sleep, if and only if the pool was asked for no limit or fewer jobs than the limit hold a slot |
| WorkerPool.LimitIsKept | pkg/worker/pool.go:29-48 | the limit is the requested one or the number of processors, and without a limit nobody ever sleeps |
| WorkerPool.NobodySleepsForever | pkg/worker/pool.go:46-62 | once no job runs and no signal or woken caller is under way, no caller sleeps |
| WorkerPool.SomeStepIsEnabled | pkg/worker/pool.go:42-65 | while a submitted job is unfinished some step can be taken |
| WorkerPool.StepsUseUpWork | pkg/worker/pool.go:42-65 | every step other than a submission uses up work, so with the previous row every submitted job finishes |
| WorkerGroup.Group.JobDone | pkg/worker/group.go:54-70 | the channel holds the first error reported so far, later ones are dropped; the context is cancelled by that error, never by a nil result, and otherwise only by a Wait |
| WorkerGroup.Group.Wait | pkg/worker/group.go:73-85 | returns the first error among the jobs done before the first Wait, every time |
| WorkerGroup.Live | pkg/worker/group.go:53-85 | for every order of submissions, reports and Waits, each Wait returns the first error reported before the first Wait returned |
| WorkerGroup.WaitIsRightIff | pkg/worker/group.go:73-85 | that is the first error of all reports so far if and only if a job had failed by then or none has failed since |
| WorkerGroup.FirstErrorIsFirst | pkg/worker/group.go:59-63 | the first error is nil exactly when all results are, and no earlier job reported one |
| WorkerGroup.LateErrorIsLost | pkg/worker/group.go:75-84 | an error reported after the first Wait is not returned by a later one |
| Transaction.Database.WithinContext | pkg/sql/transaction.go:39-106 | a call with its whole subtree has exactly the effect of the specification on durable writes, open transactions, begun transactions and hooks; it returns nil if and only if its function ran and did and, for a call that began a transaction, its commit hook ran |
| Transaction.Database.Run | pkg/sql/transaction.go:39-106 | so has any program of writes and nested calls |
| Transaction.NestedTransactions | pkg/sql/transaction.go:39-106 | for every tree of nested calls over any instances and every statement in it: a call begins a transaction exactly when the innermost open one is not of its instance; a write is durable, once, exactly when it runs outside transactions or its owning call's function returned nil and its commit succeeded; onCommit runs once per successful commit and never in a nested call |
| Transaction.HooksRunAfterCommits | pkg/sql/transaction.go:97-103 | for every tree: after the commit hook of a call has run, no write inside that call becomes durable and no hook of a call inside it runs |
| Transaction.Execute | pkg/sql/transaction.go:39-106 | running the tree on the database yields exactly that, in that order |
| Transaction.EffectIsFind | pkg/sql/transaction.go:39-106 | the same inside any surrounding transaction, whose writes wait for its owner |
| Transaction.SwallowedErrorIsKept | pkg/sql/transaction.go:88-95 | a write of a nested call that returned an error is durable if the outer call succeeds |
| AdvisoryLocks.SortSorts | pkg/sql/transaction.go:71-80 | sorting any locks, repeated keys included, is a permutation in ascending order of keys |
| AdvisoryLocks.LocksExclude | pkg/sql/lock.go:42-59 | in every run, for any lock ids, no two unfinished transactions hold conflicting locks |
| AdvisoryLocks.FunctionsExclude | pkg/sql/transaction.go:81-89 | in every run, the functions of two transactions that name conflicting locks never run at once |
| AdvisoryLocks.NoOvertaking | pkg/sql/lock.go:42-59 | in every run and every continuation, as long as a transaction waits for a lock, one that has come later for a conflicting lock, and holds nothing the first one waits for, is not granted it |
| AdvisoryLocks.CanDeadlockIff | pkg/sql/transaction.go:71-86 | for every lock id function and set of keys, exactly when transactions that acquire locks in ascending order of keys can reach a deadlock, for each of four disciplines of callers |
| AdvisoryLocks.NoDeadlock | pkg/sql/transaction.go:71-86 | for any orders of locks that ascend, with keys repeated and modes mixed, as long as none acquires a lock id shared and later exclusive and keys that share an id have no other id between them: in every reachable state with an unfinished transaction some transaction can step |
| AdvisoryLocks.CallsNeverDeadlock | pkg/sql/transaction.go:71-86 | in terms of the calls, whatever order the unstable sort gives equal keys: calls that name each key in one mode never deadlock if no two keys share a lock id |
| AdvisoryLocks.CollidingIdsDeadlock | pkg/sql/lock.go:61-69 | for all keys a < c that share a lock id, two calls that name a shared and c exclusive reach a deadlock |
| AdvisoryLocks.ExclusiveLocksDeadlock | pkg/sql/lock.go:61-69 | for all keys a < b < c of which only a and c share a lock id, two calls with exclusive locks only reach a deadlock |
| AdvisoryLocks.UpgradeDeadlocks | pkg/sql/transaction.go:81-86 | two calls that acquire any one key shared and then exclusive reach a deadlock |
| Migration.SortById | pkg/sql/migration.go:60-62 | the result is a permutation whose ids are sorted |
| Migration.Collect | pkg/sql/migration.go:50-59 | the migrations of all sources and of the table itself, unless some source fails |
| Migration.SortedIsUnique | pkg/sql/migration.go:60-62 | the order of ids depends only on which ids there are |
| Migration.Migrator.PerformedIds | pkg/sql/migration.go:97-119 | the recorded ids, none if the table does not exist |
| Migration.Migrator.PerformQueries | pkg/sql/migration.go:148-155 | all queries in order, or a proper prefix and a failure |
| Migration.Migrator.Perform | pkg/sql/migration.go:121-158 | body and record are committed together or not at all; an id is never committed twice; without a failure of the database it fails only for a blank text, a recorded id or a missing table |
| Migration.Migrator.PerformAll | pkg/sql/migration.go:78-95 | under the lock, all pending ids in order, or exactly a prefix of them and an error; with nothing failing, distinct and nonblank migrations succeed if and only if the table exists or the first of the list creates it |
| Migration.Migrator.Execute | pkg/sql/migration.go:45-76 | a failed run commits exactly a prefix of its sorted pending list, a successful one all of it; with no sources nothing happens; with nothing failing, distinct and nonblank migrations succeed if and only if the migration table exists or the migration with the least id creates it; the lock is not held afterwards |
| Migration.FirstRun | pkg/sql/migration.go:45-119 | on an empty database where nothing fails, a run succeeds if and only if the least id creates the table, which it does if no source has an id before that of the table; it then commits all ids in sorted order |
| StringOrder.LessAtFirstDifference | pkg/sql/migration.go:60-62 | the order of ids: one is less than another if and only if, where they first differ, it ends or has the smaller character |
| Migration.GroupingDoesNotMatter | pkg/sql/migration.go:52-62 | what a run has to do depends on the ids in its sources, not on how they are grouped |
| Migration.RepeatChangesNothing | pkg/sql/migration.go:84-87 | after everything pending was recorded nothing is pending |
| Migration.RepeatSuccessful | pkg/sql/migration.go:45-180 | after any earlier runs, repeating a successful run commits nothing, and all its ids are committed |
| Migration.ExecuteMany | pkg/sql/migration.go:45-180 | over any runs with any failures the recorded ids are the ids whose body was committed, each once, duplicates in the sources included |
| QuerySplit.SplitIntoQueries | pkg/sql/migration.go:160-170 | the loop yields one query for each piece with a character that is not white space, in the order of the pieces; each is its piece without leading and trailing white space |
| QuerySplit.TextIsItsQueries | pkg/sql/migration.go:160-170 | every text is pieces without separators, joined by separators, of which exactly those that are not blank are its queries, in their order and trimmed |
| QuerySplit.JoinAfterSplit | pkg/sql/migration.go:161-161 | joining the pieces with the separator gives the text back |
| QuerySplit.PiecesHaveNoSeparator | pkg/sql/migration.go:161-161 | no piece contains a separator |
| QuerySplit.QueriesAreNotBlank | pkg/sql/migration.go:163-168 | every query is trimmed and not blank |
| QuerySplit.TextHasQuery | pkg/sql/migration.go:143-149 | a text that is not blank has at least one query, so no migration is recorded without executing anything |
| UserDeletion.DeletedIffOneEvent | internal/user/app/service/user.go:154-185 | over all interleavings and users, a user is committed as deleted exactly when exactly one deletion event for it has been committed, and otherwise there is none |
| UserDeletion.MarkIsPermanent | internal/user/infra/sql/userrepository.go:36-59 | a deletion mark is never cleared or changed, rows keep login and password, events stay |
| UserDeletion.CallsTellTheTruth | internal/user/app/service/user.go:108-185 | in every run: a deletion that found its user and returned nil leaves it deleted; a registration that returned an id had that row's login and password hash, and the row it saw was not deleted; an error of a registration still holds, some row has the login and is deleted or has another password; the unique constraint on logins is never hit |
| UserDeletion.OneUserPerLogin | internal/user/app/service/user.go:121-151 | all successful registrations of a login return the same user |
| UserDeletion.DeletionWorks | internal/user/app/service/user.go:154-185 | from any state, a deletion of an existing user that nothing gets in the way of marks that row with its time, stores one event, and changes nothing else |
| UserDeletion.RegistrationWorks | internal/user/app/service/user.go:121-136 | from any state, an unhindered registration of a new login adds one row that is not deleted |
| UserDeletion.ExistingLoginAnswers | internal/user/app/service/user.go:137-151 | from any state, an unhindered registration of a login that exists returns its id if and only if the row is not deleted and the password hashes are equal, an error otherwise, and changes no table |
| UserDeletion.DeletionOfNothing | internal/user/app/service/user.go:162-170 | from any state, an unhindered deletion of a user that does not exist or is deleted returns nil and changes no table |
| UserDeletion.NextKeepsInv | internal/user/app/service/user.go:108-185 | every step keeps rows and events matched, locks exclusive, ids fresh and logins distinct |
| ProfileDeletion.AtMostOnceWithinLifetime | internal/userprofile/app/service/userprofile.go:119-143 | in any window of a key lifetime the key and the profile deletion of an event are committed at most once, across any redeliveries, failures and concurrent attempts |
| ProfileDeletion.CommitsAreCounted | pkg/sql/idempotencykey.go:22-69 | at any time an event was committed exactly as often as its key was cleaned up, plus one while the key is there |
| ProfileDeletion.CommitsAreSpaced | pkg/idk/service.go:58-60 | of two commits for one event the later one inserted its key more than a lifetime after the earlier one began |
| ProfileDeletion.SuccessMeansDone | pkg/message/listener.go:264-285 | in every run, success is reported if and only if the user service answered and nothing cut the attempt short; and only if such a commit exists, by this attempt or another, or the user was reported missing or not deleted |
| ProfileAtomicity.KeyAndProfileTogether | internal/userprofile/app/service/userprofile.go:128-142 | over any stretch of any run a profile disappears and a key appears only by a commit for that user and that event, and every commit leaves its key until the cleaner removes it |
| ProfilePresence.ProfileIsThereIff | internal/userprofile/app/service/userprofile.go:88-143 | in every run a user has a profile if and only if a store of it took effect after the delete of every committed handling for that user, or it was there at the start and there was neither |
| ProfileRuns.AttemptCommits | internal/userprofile/app/service/userprofile.go:119-143 | an undisturbed attempt for a deleted user commits the key and the deletion and reports success |
| ProfileRuns.RedeliverySucceeds | pkg/message/listener.go:264-285 | from any state in which the key of an event is there, an undisturbed attempt at it is reported as success and changes no key, profile or commit |
| ProfileRuns.NothingIsDoneUnlessDeleted | internal/userprofile/app/service/userprofile.go:119-126 | from any state, an attempt that is told that the user is missing or not deleted is reported as success, one that gets no answer as failure, and neither changes anything |
| ProfileRuns.UpdateWorks | internal/userprofile/app/service/userprofile.go:99-111 | from any state, an undisturbed update for a user that is not deleted stores the profile |
| ProfileRuns.ExpiredKeyCommitsTwice | pkg/idk/service.go:13-13 | the bound is tight: after expiry and clean-up any event is committed a second time |
| ProfileUpdates.OnlyEarlierUpdatesRestore | internal/userprofile/app/service/userprofile.go:99-143 | once an event of a user was handled, a profile of the user is there only through an update that stored it after the delete of every committed handling and had asked before the user was deleted |
| ProfileUpdates.GoneForGoodIff | internal/userprofile/app/service/userprofile.go:99-143 | in every reachable state, the profile of a deleted user that is gone comes back in no continuation if and only if no update of it that asked before the deletion is still to store |
| ProfileUpdates.RacingUpdateStays | internal/userprofile/app/service/userprofile.go:133-136 | a profile stored between the handler's delete, which found none, and its commit, by an update that asked earlier, is there after success was reported |
| ProfileUpdates.LaterUpdateStays | internal/userprofile/app/service/userprofile.go:99-111 | and so is one stored after the commit |
| Session.AcceptedOnlyShortlyAfterDeletion | internal/user/app/service/auth.go:81-111 | no generated token of a user deleted at d is accepted at d plus 15 minutes plus the latency or later, in every run of logins, verifications, renewals and deletions; for instantaneous operations that is 15 minutes |
| Session.NeverAcceptedAfterLifetime | internal/user/infra/session/tokengenerator.go:21-64 | no generated token is accepted more than 7 days after its creation |
| Session.NoTokenAfterDeletion | internal/user/app/service/auth.go:58-111 | no token is created for a deleted user later than the latency after the deletion |
| Session.LoginStaysClosed | internal/user/app/service/user.go:141-143 | the login of a deleted user never again leads to a session or a new user |
| Session.NoSessionWithoutPassword | internal/user/app/service/auth.go:58-79 | in every run in which only generated tokens are presented, no token of a user is created or accepted before a login of that user with the right password |
| Session.LoginWorks | internal/user/app/service/auth.go:66-79 | from any state, the right password of a user that is not deleted gives a token |
| Session.RenewalWorks | internal/user/app/service/auth.go:94-111 | from any state, an old token of such a user that has not run out is accepted and replaced by a new one |
| Session.BoundIsTight | internal/user/app/service/auth.go:90-92 | for every latency some token is accepted one nanosecond before the bound |
| Session.LifetimeIsTight | internal/user/infra/session/tokengenerator.go:50-58 | some token is accepted when it is exactly as old as the lifetime |
| Session.UsedSessionGoesOn | internal/user/app/service/auth.go:90-111 | while the user exists, a client that presents its newest token is accepted forever if no pause exceeds 7 days less 15 minutes |

## Left out

- HTTP servers, clients, handlers and middleware, logging, metrics, observability and the On* hooks, containers, configuration and process start-up: they do not change the state of these protocols.
- Backoff intervals: a retry is "again, until success, a permanent error or cancellation".
- SQL text, the driver and connection pooling: tables are maps, and row locks, advisory locks and unique keys are modelled directly; loss of a session lock while its holder still works is not modelled.
- Serialization, keys of messages, metadata and middlewares of the bus producer: a stored row has a payload and a time.
- Hashes: lock ids are an arbitrary function of the key, idempotency keys are taken to be distinct for distinct events, password hashes are compared for equality or as an outcome.
- `LockUpdate`, `IsUpdateLockRequested` and `PrepareUpdateLockQuery`: pure functions of the context; their effect, a locking read, is a step of the user machine.
- `WithinSingleConnection` and the choice of the connection for a transaction: it does not change which transaction a write belongs to.
- Permissions, trimming and lower-casing of logins, `GetByID`, `GetByIDs`, `Get`, and the validation in `Update`: single branches.
- Panics inside functions and jobs, and commits whose result is unknown; deletes of messages that fail with an unknown effect are modelled.
- `pool.Wait` and the periodical jobs of `pkg/worker`: a wait group and a ticker loop.
- The brokers behind the queues: a broker accepts or refuses an acknowledgement.
- Forged session tokens: the token generator is an unsigned example, so the statements are about tokens it generated; other tokens may be presented in the model, and are judged as the code does.
- Clocks that differ between service and database, or go back.
- `AckNackQueue.Queue`, `Group.Do` and `Database.Exec`: their methods do what their specifications say step by step; what that means is stated by the lemmas and methods listed above.
- BusProducer.BusProducer.Register: takes the registrations in some order, since the source iterates over a map; the statement holds for every order.
- Migration.Migrator.Execute: does not model two migrators at once, because the session lock excludes that; the release of that lock only logs its error.
