# MongoDB transport, service executor and resharding donor, modelled in Dafny

This project models four pieces of the MongoDB server.

- **`TransportLayerASIO`**: an early ASIO-based transport layer. It starts
  its acceptors and registers every accepted session. It hands out tickets
  that hold a weak reference to their session and an expiration date. A
  session reads a message as a 16-byte header, whose first four bytes hold
  the message length as a little-endian int32, and then the body. It writes
  a message in one piece. Each of these I/O operations first tries a
  synchronous transfer and arms an asynchronous one when the socket would
  block. The operation's outcome goes into a one-slot completion cell: the
  first status wins, and it goes either to a waiting callback or to a later
  `getOperationStatus`.
- **`ServiceExecutorSilly`**: a thread pool. It keeps at least
  `max(reserve, 1)` threads beyond the tasks in flight. Worker threads
  retire after 512 tasks and exit after an idle timeout while the pool is
  above that floor. Shutdown waits until every thread has left the list.
- **The resharding donor state machine** (`ReshardingDonorService::DonorStateMachine`):
  the donor moves through `unused → preparing-to-donate → donating-initial-data →
  donating-oplog-entries → preparing-to-block-writes → (error) → blocking-writes →
  done`. It persists every transition. It reports the states the coordinator
  depends on with an update whose filter matches only the states the donor
  could have persisted before, so an update that arrives late cannot apply.
  Promises fulfilled by the coordinator's state gate the steps.
- **`WouldChangeOwningShardInfo`**: the extra information of a
  WouldChangeOwningShard error. It is serialized into BSON and parsed back.

Each module follows one source file. `base.dfy` holds the shared vocabulary
(`Option`, `Result`, `byte`, `Status` and its error codes and categories).
`wire_header.dfy` decodes the message length. `asio_ticket.dfy`,
`asio_session.dfy` and `transport_layer_asio.dfy` model the transport layer.
`service_executor_silly.dfy` models the executor.
`resharding_states.dfy` and `resharding_donor_service.dfy` model the donor.
`would_change_owning_shard.dfy` models the error information.

Objects whose fields the source updates in place are classes:
`ASIOSession`, `TransportLayerASIO`, `ServiceExecutor`, `DonorStateMachine`
and `BSONObjBuilder`. Their methods state the whole new state. Pure logic
is kept in functions: the completion slot, the guard order of `wait`, the
thread-count arithmetic, the state table, the promise updates, and
serialization.

Some inputs come from outside the modelled code and become parameters:

- what the socket returns (an error code and the bytes moved);
- the clock (`now`);
- which sessions are still alive (`live`);
- whether acceptors opened;
- how many handlers a worker's `run_for` ran;
- the statistics of the collection being resharded;
- the timestamp of the no-op write;
- where the donor's first step throws, and whether the config server refuses a coordinator update;
- which final oplog write fails;
- whether a cancellation token is canceled;
- whether the donor collection exists.

The donor's effects on the outside world are recorded in an `effects`
sequence, in the order it performs them: document writes, coordinator
updates, catalog refreshes, oplog writes, the collection drop and the
document removal.

## Model

| member | source | states |
|---|---|---|
| AsioTicket.MakeTicket | src/mongo/transport/transport_layer_asio.h:171-180 | a new ticket reports the session's id and the given expiration and refers weakly to that session |
| AsioTicket.GetSession | src/mongo/transport/transport_layer_asio.h:186-188 | locking the weak reference yields the session exactly when it is still alive |
| AsioTicket.TicketFollowsSessionLifetime | src/mongo/transport/transport_layer_asio.h:186-191 | a ticket yields its session while it lives, nothing once it is destroyed, and other sessions' deaths do not matter |
| WireHeader.MessageLengthOfHeader | src/mongo/transport/transport_layer_asio.cpp:273-274 | the message length read from a header is the little-endian int32 written in its first four bytes, whatever follows |
| WireHeader.DecodeEncode | src/mongo/transport/transport_layer_asio.cpp:273-274 | encoding a length and decoding it gives the length back |
| WireHeader.EncodeDecode | src/mongo/transport/transport_layer_asio.cpp:273-274 | decoding four bytes and encoding the result gives the bytes back |
| AsioSession.CompleteEach | src/mongo/transport/transport_layer_asio.cpp:390-408 | any run of completions keeps the slot holding a status or a callback but never both, invokes a callback at most once and never without a registered one, and leaves a status stored or delivered |
| AsioSession.StoredStatusAbsorbs | src/mongo/transport/transport_layer_asio.cpp:395-398 | once a status is stored, later completions change nothing and invoke nothing |
| AsioSession.FirstCompletionKept | src/mongo/transport/transport_layer_asio.cpp:397-401 | with no callback the first status of a run is kept, and getOperationStatus returns it and empties the slot |
| AsioSession.CallbackTakesFirstCompletion | src/mongo/transport/transport_layer_asio.cpp:400-407 | a registered callback is invoked once, with the first status, and a later completion is stored |
| AsioSession.RegisterAndCompleteCommute | src/mongo/transport/transport_layer_asio.cpp:368-374 | registering then completing and completing then registering both invoke the callback with the status; in the second order the status stays stored and is replayed to a later registration |
| AsioSession.SlotOperationsKeepExclusive | src/mongo/transport/transport_layer_asio.cpp:354-374 | completing, registering and taking the status each keep the slot from holding both a status and a callback |
| AsioSession.SyncAttempt | src/mongo/transport/transport_layer_asio.cpp:246-266 | a synchronous transfer finishes exactly when there is no error and every byte moved, arms an asynchronous transfer exactly on would-block (for the remaining bytes), and fails otherwise |
| AsioSession.BufferSize | src/mongo/transport/transport_layer_asio.cpp:278-281 | the read buffer holds the whole message and at least 1024 bytes, and grows beyond 1024 exactly when the message does |
| AsioSession.Realloc | src/mongo/transport/transport_layer_asio.cpp:279 | the grown buffer is new, has the requested size and keeps the old contents as its prefix |
| AsioSession.ASIOSession.constructor | src/mongo/transport/transport_layer_asio.cpp:216-218 | a new session has an empty slot, no operation in flight and no registry entry |
| AsioSession.ASIOSession.SetIter | src/mongo/transport/transport_layer_asio.h:114-116 | the session records its registry entry |
| AsioSession.ASIOSession.CompleteStatus | src/mongo/transport/transport_layer_asio.cpp:390-408 | a stored status makes completion a no-op; otherwise the status is stored, or handed to the registered callback, which is cleared |
| AsioSession.ASIOSession.Complete | src/mongo/transport/transport_layer_asio.h:135-139 | completes with the status built from the code and reason |
| AsioSession.ASIOSession.GetOperationStatus | src/mongo/transport/transport_layer_asio.cpp:354-366 | with no callback registered, returns the stored status (if any) and empties the slot |
| AsioSession.ASIOSession.GetOperationStatusAsync | src/mongo/transport/transport_layer_asio.cpp:368-374 | a stored status is delivered to the callback at once and stays stored; otherwise the callback is registered |
| AsioSession.ASIOSession.BeginRead | src/mongo/transport/transport_layer_asio.cpp:235-267 | a full synchronous header read continues with the body; a hard error completes with "failed header read"; would-block arms an asynchronous header read |
| AsioSession.ASIOSession.ContinueRead | src/mongo/transport/transport_layer_asio.cpp:269-313 | the buffer grows to the message length above 1024; a full body read hands the message the whole frame and completes OK; a hard error completes with "failed body read"; would-block arms a read of the rest of the body at the offset reached |
| AsioSession.ASIOSession.OnHeaderReadable | src/mongo/transport/transport_layer_asio.cpp:259-265 | an error completes with "failed header async read"; otherwise the rest of the header is placed after the bytes already read and the body read continues with the true header |
| AsioSession.ASIOSession.OnBodyReadable | src/mongo/transport/transport_layer_asio.cpp:304-311 | an error completes with "failed body async read"; otherwise the message receives the header and the whole body and the session completes OK |
| AsioSession.ASIOSession.BeginWrite | src/mongo/transport/transport_layer_asio.cpp:315-348 | the first bytes of the message are sent; a full write completes OK, a hard error completes with "failed write", would-block arms a write of the rest |
| AsioSession.ASIOSession.OnWritable | src/mongo/transport/transport_layer_asio.cpp:339-346 | an error completes with "failed async write"; otherwise the whole message has been sent and the session completes OK |
| AsioSession.HeaderAfterContinuationAsWritten | src/mongo/transport/transport_layer_asio.cpp:256-264 | as written, the asynchronous header read fills the 16 header bytes from offset 0 again, so the header holds the 16 wire bytes that follow the ones already read |
| AsioSession.AsWrittenContinuationLosesLength | src/mongo/transport/transport_layer_asio.cpp:244-264 | for a frame of length 20 whose header arrives 4 bytes then 12, the as-written header decodes to length 0 instead of 20 |
| AsioSession.ContinuationKeepsHeader | src/mongo/transport/transport_layer_asio.cpp:244-264 | reading the header's remainder after the bytes already read reassembles the true header and its length |
| TransportLayerAsio.Wait | src/mongo/transport/transport_layer_asio.cpp:70-96 | checks in order: not running gives ShutdownStatus, an expired ticket gives ExpiredStatus, a dead session gives TicketSessionClosedStatus; only a live session is waited on |
| TransportLayerAsio.AsyncWait | src/mongo/transport/transport_layer_asio.cpp:98-122 | runs the callback with exactly the status wait would return, and otherwise reaches the closed check for the ticket's own session, without touching a moved-from ticket |
| TransportLayerAsio.AsyncWaitAsWritten | src/mongo/transport/transport_layer_asio.cpp:98-122 | as written, every running call reads the expiration of the moved-from ticket |
| TransportLayerAsio.AsWrittenAsyncWaitReadsMovedFromTicket | src/mongo/transport/transport_layer_asio.cpp:101-111 | for an expired ticket on a running layer, wait reports expiry but asyncWait as written reads the moved-from ticket instead |
| TransportLayerAsio.DefaultExpirationNeverExpires | src/mongo/transport/transport_layer_asio.h:64-70 | a ticket with the default expiration never gets ExpiredStatus |
| TransportLayerAsio.TransportLayerASIO.constructor | src/mongo/transport/transport_layer_asio.cpp:46 | a new layer is not running and has no workers, acceptors or sessions |
| TransportLayerAsio.TransportLayerASIO.Start | src/mongo/transport/transport_layer_asio.cpp:137-187 | a second start fails with "TransportLayer is already running" and changes nothing; otherwise the layer is running with one more worker, a failed acceptor returns its error (running stays set), and with both acceptors open each is armed once |
| TransportLayerAsio.TransportLayerASIO.BeginAccept | src/mongo/transport/transport_layer_asio.cpp:189-191 | arms one accept on the acceptor |
| TransportLayerAsio.TransportLayerASIO.OnAccept | src/mongo/transport/transport_layer_asio.cpp:191-209 | an accept creates a new session with a fresh id, puts it at the front of the registry with a fresh entry that the session records, starts it, and re-arms the same acceptor |
| TransportLayerAsio.TransportLayerASIO.SourceMessage | src/mongo/transport/transport_layer_asio.cpp:50-58 | the read begun on the session has the outcome `beginRead` gives its answers (the body attempted behind a full header, "failed header read", or the rest of the header armed), and the ticket is on the session with the expiration (default: none) |
| TransportLayerAsio.TransportLayerASIO.SinkMessage | src/mongo/transport/transport_layer_asio.cpp:60-68 | the write begun on the session sends the written prefix and then completes OK on a full write, completes "failed write" on a hard error, or arms the unwritten rest on would-block; the ticket is on the session with the expiration |
| ServiceExecutorSilly.Floor | src/mongo/transport/service_executor_silly.cpp:93 | the thread floor is the reserve, but at least 1 |
| ServiceExecutorSilly.SpawnCount | src/mongo/transport/service_executor_silly.cpp:90-97 | scheduling spawns exactly enough threads to reach the floor plus the tasks executing, and none when there are already that many |
| ServiceExecutorSilly.Decide | src/mongo/transport/service_executor_silly.cpp:138-158 | a worker exits on shutdown, retires once it has executed the age limit of tasks after running handlers, exits when idle above the floor, and keeps running otherwise |
| ServiceExecutorSilly.IdleShrinkStopsAtFloor | src/mongo/transport/service_executor_silly.cpp:153-157 | idle timeouts never take the thread count below the floor, nor raise it |
| ServiceExecutorSilly.Erase | src/mongo/transport/service_executor_silly.cpp:162-167 | erasing a thread removes exactly one occurrence of it |
| ServiceExecutorSilly.EraseDistinct | src/mongo/transport/service_executor_silly.cpp:162-167 | on a list without duplicates the erased thread is gone and every other thread stays |
| ServiceExecutorSilly.ServiceExecutor.constructor | src/mongo/transport/service_executor_silly.cpp:48-56 | a new executor is stopped, has no threads and no tasks, and takes the parameters (defaults 4, 5000 ms, 512) |
| ServiceExecutorSilly.ServiceExecutor.AddThread | src/mongo/transport/service_executor_silly.cpp:111-124 | a new thread goes to the front of the list with no tasks executed |
| ServiceExecutorSilly.ServiceExecutor.AddThreads | src/mongo/transport/service_executor_silly.cpp:95-97 | the given number of new threads go in front of the old ones, each with a new id and no tasks executed, and every earlier count is kept |
| ServiceExecutorSilly.AsWrittenStartNeverStopsOnNegativeReserve | src/mongo/transport/service_executor_silly.cpp:65-66 | as written, with a negative reserve the loop has not stopped after any number of iterations from any number of added threads |
| ServiceExecutorSilly.AsWrittenStartAddsReserve | src/mongo/transport/service_executor_silly.cpp:65-66 | as written, with a reserve of zero or more the loop stops after adding exactly the reserve's count of threads, as the corrected start does |
| ServiceExecutorSilly.ServiceExecutor.Start | src/mongo/transport/service_executor_silly.cpp:62-68 | the executor runs with the reserve's count of new threads (none for a negative reserve) in front of the old ones, each new thread with no tasks executed and every earlier count kept, and returns OK |
| ServiceExecutorSilly.ServiceExecutor.Schedule | src/mongo/transport/service_executor_silly.cpp:85-109 | after shutdown the task is refused with "Executor not accepting new tasks due to shutdown" and nothing changes; otherwise it is counted and posted after the threads the spawn count asks for, which are new and have no tasks executed, while every earlier thread keeps its count |
| ServiceExecutorSilly.ServiceExecutor.StartRoutine | src/mongo/transport/service_executor_silly.cpp:126-127 | a started thread counts as running |
| ServiceExecutorSilly.ServiceExecutor.RunTask | src/mongo/transport/service_executor_silly.cpp:99-105 | the oldest posted task runs, leaves the executing count either way, and counts toward the thread's age only when it returns |
| ServiceExecutorSilly.ServiceExecutor.ExitThread | src/mongo/transport/service_executor_silly.cpp:162-170 | the thread leaves the list and the running count, and a death notification is sent |
| ServiceExecutorSilly.ServiceExecutor.WorkerStep | src/mongo/transport/service_executor_silly.cpp:138-160 | one pass of the worker loop acts on the decision: a thread that keeps running changes nothing; an exiting thread is removed, leaves the started set with every other started thread kept, and sends one death notification; a retiring one is replaced by a new thread at the front with no tasks executed; an idle exit leaves at least the floor running |
| ServiceExecutorSilly.ServiceExecutor.Shutdown | src/mongo/transport/service_executor_silly.cpp:70-83 | a stopped executor returns OK and changes nothing; a running one stops, stops the reactor and returns OK once every thread is gone, each having sent its death notification |
| ReshardingStates.InPotentialAbortScenario | src/mongo/db/s/resharding/resharding_donor_service.cpp:107-113 | exactly kError and kDone, both past kPreparingToDonate |
| ReshardingStates.ValidPreviousStates | src/mongo/db/s/resharding/resharding_donor_service.cpp:645-658 | only the four reported states have an entry, every listed previous state comes earlier in the order, and each list admits unused or donating-initial-data |
| ReshardingStates.DelayedUpdateCannotApply | src/mongo/db/s/resharding/resharding_donor_service.cpp:660-664 | an update for a state never matches a coordinator entry already at that state or later |
| ReshardingStates.ReportSequencesAccepted | src/mongo/db/s/resharding/resharding_donor_service.cpp:645-656 | every report the donor makes along its paths matches the state it reported before |
| ReshardingStates.DonorStateNameInjective | src/mongo/db/s/resharding/resharding_donor_service.cpp:681-684 | distinct states have distinct serialized names |
| ReshardingStates.StopRetrying | src/mongo/db/s/resharding/resharding_donor_service.cpp:138-153 | retry exactly on retriable, cursor-invalidated, cancellation and not-primary errors and on Interrupted; stop on anything else, OK included |
| ReshardingStates.RetryUntilStop | src/mongo/db/s/resharding/resharding_donor_service.cpp:134-156 | the retry loop ends at the first attempt whose status stops it, after retrying every earlier one |
| ReshardingStates.EnsureFulfilled | src/mongo/db/s/resharding/resharding_donor_service.cpp:118-122 | a pending promise becomes ready with OK; a ready one keeps its outcome |
| ReshardingStates.EnsureFailed | src/mongo/db/s/resharding/resharding_donor_service.cpp:124-128 | a pending promise becomes ready with the error; a ready one keeps its outcome |
| ReshardingStates.SignalsMonotonic | src/mongo/db/s/resharding/resharding_donor_service.cpp:380-394 | whatever the order of coordinator reports, ready promises keep their outcome, and a pending one is fulfilled with OK exactly when some report reached its stage |
| ReshardingDonorService.StateNamesMatchExactly | src/mongo/db/s/resharding/resharding_donor_service.cpp:679-686 | a state's name is in the `$in` list exactly when the state is in the table's list |
| ReshardingDonorService.MakeQueryForCoordinatorUpdate | src/mongo/db/s/resharding/resharding_donor_service.cpp:638-691 | the filter names the operation and this shard, and its `$in` list names, in table order, the valid previous states of the new state and no other state |
| ReshardingDonorService.WithCancellation | src/mongo/db/s/resharding/resharding_donor_service.cpp:466-470 | a ready promise passes its outcome on; a pending one fails with the cancellation error when the token is canceled and waits otherwise |
| ReshardingDonorService.CloningStepOutcomeAsWritten | src/mongo/db/s/resharding/resharding_donor_service.cpp:466-477 | as written, the cloning step succeeds once it completes, whatever the wait gave |
| ReshardingDonorService.AsWrittenCloningStepSwallowsCancellation | src/mongo/db/s/resharding/resharding_donor_service.cpp:466-477 | a canceled wait fails, yet the step as written reports success |
| ReshardingDonorService.AbortedDecision | src/mongo/db/s/resharding/resharding_donor_service.cpp:319-331 | a stepdown, or an error while not aborted, passes the status on; otherwise the operation finishes, aborted exactly when the abort token is canceled |
| ReshardingDonorService.DonorStateMachine.constructor | src/mongo/db/s/resharding/resharding_donor_service.cpp:200-209 | the machine takes the persisted context and recipients, with every promise pending, no abort reason and no abort source |
| ReshardingDonorService.DonorStateMachine.UpdateDonorDocument | src/mongo/db/s/resharding/resharding_donor_service.cpp:728-741 | the new context is persisted, then adopted |
| ReshardingDonorService.DonorStateMachine.TransitionState | src/mongo/db/s/resharding/resharding_donor_service.cpp:586-593 | never into kDonatingInitialData or kError; only the state of the context changes, and it is persisted |
| ReshardingDonorService.DonorStateMachine.TransitionToDonatingInitialData | src/mongo/db/s/resharding/resharding_donor_service.cpp:611-619 | the state changes together with the three clone statistics |
| ReshardingDonorService.DonorStateMachine.TransitionToError | src/mongo/db/s/resharding/resharding_donor_service.cpp:621-626 | the state becomes kError together with the abort reason, which is an error |
| ReshardingDonorService.DonorStateMachine.CoordinatorReportMatchesExactly | src/mongo/db/s/resharding/resharding_donor_service.cpp:693-719 | the coordinator update carries the context, names this operation and this donor, and its filter matches a state's name exactly when that state is a valid previous state of the context's state |
| ReshardingDonorService.DonorStateMachine.UpdateCoordinatorDocument | src/mongo/db/s/resharding/resharding_donor_service.cpp:693-719 | one coordinator update is sent with the current context, filtered to match exactly the valid previous states of the current state; an update the config server refuses fails with its error and sends nothing |
| ReshardingDonorService.DonorStateMachine.PrepareToDonate | src/mongo/db/s/resharding/resharding_donor_service.cpp:401-456 | past kPreparingToDonate nothing changes, and the clone statistics are there unless in a potential abort scenario; otherwise refresh, no-op write, then kDonatingInitialData with the collection's size and count (0 without a collection) and the timestamp; an in-progress index build (only with a collection), a failed refresh, no-op write or persist fails the step with the context unchanged and only the earlier effects done |
| ReshardingDonorService.DonorStateMachine.AwaitCloningThenDonateOplog | src/mongo/db/s/resharding/resharding_donor_service.cpp:458-478 | past kDonatingInitialData it proceeds unchanged; otherwise a refused coordinator update fails the step with nothing changed; else it reports kDonatingInitialData with the exact filter, and enters kDonatingOplogEntries exactly when cloning is done; a failed or pending wait leaves the state alone and is passed on |
| ReshardingDonorService.DonorStateMachine.AwaitApplyingThenPrepareToBlockWrites | src/mongo/db/s/resharding/resharding_donor_service.cpp:480-491 | past kDonatingOplogEntries it proceeds unchanged; otherwise it enters kPreparingToBlockWrites exactly when applying is done |
| ReshardingDonorService.DonorStateMachine.WriteFinalOplogEntriesThenBlockWrites | src/mongo/db/s/resharding/resharding_donor_service.cpp:493-566 | past kPreparingToBlockWrites it proceeds unchanged; otherwise one no-op per recipient in order, then the final-oplog promise is fulfilled and kBlockingWrites entered; a failing write fails the promise and the step with the writes before it kept |
| ReshardingDonorService.DonorStateMachine.DropOriginalCollectionThenTransitionToDone | src/mongo/db/s/resharding/resharding_donor_service.cpp:572-584 | past kBlockingWrites nothing changes; otherwise the source collection is dropped, then kDone persisted |
| ReshardingDonorService.DonorStateMachine.OnChainError | src/mongo/db/s/resharding/resharding_donor_service.cpp:237-258 | with the abort token canceled the error is passed on; otherwise the donor, not yet in kBlockingWrites, enters kError with the error and carries on |
| ReshardingDonorService.DonorStateMachine.RunStepsOnce | src/mongo/db/s/resharding/resharding_donor_service.cpp:219-236 | the four steps in order, stopping at the first that does not proceed; the state never moves back, proceeding leaves it past kPreparingToBlockWrites, an error is never OK and leaves it at or before kPreparingToBlockWrites; a failure of step 1 or of the cloning step's report fails with that error and the context unchanged; from kDonatingOplogEntries and kPreparingToBlockWrites steps 3 and 4 have the outcomes stated for RunLastStepsOnce |
| ReshardingDonorService.DonorStateMachine.RunLastStepsOnce | src/mongo/db/s/resharding/resharding_donor_service.cpp:231-236 | past kPreparingToBlockWrites nothing changes; from kDonatingOplogEntries an applying wait that does not proceed is passed on with nothing changed, and one that proceeds is followed by the final oplog entries; from kPreparingToBlockWrites (directly or after the wait) a failed final write fails with the error, the final-oplog promise failed and the context in kPreparingToBlockWrites, and otherwise every recipient's no-op is written, the promise fulfilled and kBlockingWrites persisted; the state never moves back |
| ReshardingDonorService.DonorStateMachine.RunUntilBlockingWritesOrErrored | src/mongo/db/s/resharding/resharding_donor_service.cpp:216-260 | the four steps in order; the state never moves back; when it proceeds the donor is in kBlockingWrites, kError or kDone, an error survives only when the abort token is canceled, and a retried attempt has a status `withAutomaticRetry` retries and leaves the donor at or before kPreparingToBlockWrites; a failure of step 1 or of the cloning step's report is passed on with nothing changed when the abort token is canceled, retried with the context unchanged when its status is retriable, and otherwise puts the donor in kError with that error; from kPreparingToBlockWrites a failed final write has the same three outcomes with the final-oplog promise failed, and with no failure the donor proceeds in kBlockingWrites with the promise fulfilled |
| ReshardingDonorService.DonorStateMachine.NotifyCoordinatorAndAwaitDecision | src/mongo/db/s/resharding/resharding_donor_service.cpp:262-279 | in kDone nothing is sent; otherwise a refused report sends nothing and is retried when its status is retriable and the abort token is not canceled, and fails the step otherwise; else the state is reported with the exact filter and the outcome is the decision promise under cancellation |
| ReshardingDonorService.DonorStateMachine.RemoveDonorDocumentAndComplete | src/mongo/db/s/resharding/resharding_donor_service.cpp:743-774 | without the collection nothing happens; otherwise the document is removed and the completion promise is failed with the abort reason, or fulfilled without one |
| ReshardingDonorService.DonorStateMachine.FinishReshardingOperation | src/mongo/db/s/resharding/resharding_donor_service.cpp:281-308 | the donor ends in kDone; the effects are exactly: the drop of the source collection (only when not aborted and coming from kBlockingWrites) and the persisted kDone (unless already done), then the coordinator report of kDone with the filter of its valid previous states, then the removal of the donor document when the collection exists; without it the completion promise is untouched |
| ReshardingDonorService.DonorStateMachine.OnReshardingFieldsChanges | src/mongo/db/s/resharding/resharding_donor_service.cpp:372-399 | an abort reason is handled alone: it is recorded, the critical section released, and the abort source canceled if `run()` made one, otherwise the decision promise failed with the reason; without one the promises and critical section follow the coordinator's state |
| ReshardingDonorService.DonorStateMachine.InitAbortSource | src/mongo/db/s/resharding/resharding_donor_service.cpp:776-795 | the abort token is canceled exactly when the stepdown token is, or an abort already failed the decision promise |
| ReshardingDonorService.DonorStateMachine.OnAbortEncountered | src/mongo/db/s/resharding/resharding_donor_service.cpp:797-819 | records the abort reason, cancels the abort source if there is one and otherwise fails the decision promise with the reason, and releases the critical section |
| ReshardingDonorService.DonorStateMachine.Interrupt | src/mongo/db/s/resharding/resharding_donor_service.cpp:354-359 | the completion promise is failed with the status unless it is already ready |
| WouldChangeOwningShard.Lookup | src/mongo/s/would_change_owning_shard_exception.cpp:60-63 | `obj[name]` is absent exactly when no field has the name, and otherwise is the value of the first field with it |
| WouldChangeOwningShard.BSONObjBuilder.Append | src/mongo/s/would_change_owning_shard_exception.cpp:47-50 | one embedded-object field is added at the end |
| WouldChangeOwningShard.Serialized | src/mongo/s/would_change_owning_shard_exception.cpp:46-51 | at most the two named fields, each present exactly when its part is, holding that part |
| WouldChangeOwningShard.Serialize | src/mongo/s/would_change_owning_shard_exception.cpp:46-51 | the builder gains the serialized fields after its existing ones |
| WouldChangeOwningShard.ReadOptionalObject | src/mongo/s/would_change_owning_shard_exception.cpp:60-63 | an absent field gives none, an embedded object gives that object, anything else is an error |
| WouldChangeOwningShard.ParseFromCommandError | src/mongo/s/would_change_owning_shard_exception.cpp:57-66 | succeeds exactly when neither field is present with a non-object value, and then holds what each field holds |
| WouldChangeOwningShard.Parse | src/mongo/s/would_change_owning_shard_exception.cpp:53-55 | gives the same information as parseFromCommandError |
| WouldChangeOwningShard.SerializeThenParse | src/mongo/s/would_change_owning_shard_exception.cpp:46-66 | what serialize writes after the error's own fields parses back to the same information |
| WouldChangeOwningShard.ParseSerializeParse | src/mongo/s/would_change_owning_shard_exception.cpp:46-66 | the information parsed from any command error, written out again and parsed, is unchanged |
| WouldChangeOwningShard.ParseWithoutFields | src/mongo/s/would_change_owning_shard_exception.cpp:57-66 | an object holding neither field parses as information with neither part |
| WouldChangeOwningShard.ParseRejectsNonObject | src/mongo/s/would_change_owning_shard_exception.cpp:60-63 | a non-object value under either name makes parsing fail |

## Left out

- Sockets, acceptors, the `io_service` worker thread, strands and `AsyncStream` are not modelled. What a transfer returns is a parameter; opening an acceptor is a status parameter.
- `ASIOSession::wait()` (poll one handler) has no return statement and is not modelled: `Wait` stops at the point where it would be called.
- `ASIOSession::closed()`, `end`, `endAllSessions` and `shutdown` are `MONGO_UNREACHABLE`; `AsyncWait` stops at the closed check.
- `sessionStats`, `remote` and `local` return constants and are not modelled.
- The session's own `wait(ticket, callback)` is declared but never defined (only `getOperationStatus(ticket, callback)` is); `GetOperationStatusAsync` models the defined one.
- The status codes and reasons of `ShutdownStatus`, `ExpiredStatus` and `TicketSessionClosedStatus` are defined outside this code; the model assumes them.
- So are the code and reason `withCancellation` reports on cancellation and `BSONElement::Obj()` raises on a non-object; only their kinds matter here.
- ReshardingDonorService.WithCancellation: `future_util::withCancellation` is defined outside this code; the model assumes that a promise already ready wins over a token already canceled.
- Threads, mutexes, atomics and the interleaving of callbacks are sequentialised: each method is one atomic step, and callbacks are recorded as invocations.
- The clock, session liveness and whether tokens are canceled are parameters.
- `std::cout`, logging and failpoints are left out. The failpoint inside the cloning step is covered under Findings only for the status it drops.
- Message length validation is still a TODO in the source. The model requires the length to lie between 16 and the frame, so a negative or short length is not modelled.
- ASIOSession.BeginRead: requires that no read is in flight on the session, which the source does not check.
- ServiceExecutorSilly.ServiceExecutor.RunTask: a task that throws terminates the process in the source; the model only records that it did not return normally.
- The executor's `dassert(_isRunning)` in `_addThread` becomes a precondition.
- The min-fetch no-op write, the catalog refresh, `ensureCollectionDropped`, the persistent task store and the coordinator update are recorded as effects. `generateMinFetchTimestamp`'s timestamp and the collection statistics are parameters and leave no effect. The failures of step 1 (at each point it can throw) and of the coordinator update are parameters as well. A failure of `ensureCollectionDropped`, of the document removal or of a persist outside step 1 is not modelled.
- ReshardingDonorService.DonorStateMachine.FinishReshardingOperation: the coordinator update is taken to succeed, because the source retries the whole step until it does; a stepdown during those retries is left out.
- `insertStateDocument`, `reportForCurrentOp`, `awaitFinalOplogEntriesWritten` and the destructor's invariant are not modelled.
- `run()`'s future chaining is not modelled as one method. Its pieces are (`InitAbortSource`, `RunUntilBlockingWritesOrErrored`, `NotifyCoordinatorAndAwaitDecision`, `AbortedDecision`, `FinishReshardingOperation`). The fatal error path is left out.
- `WaitForMajorityService`: the wait for the coordinator update to be majority committed is not modelled and leaves no trace; the update is taken to be durable once sent.
- ReshardingStates.RetryUntilStop: models the `until` predicate of `withAutomaticRetry` over a list of attempt outcomes; stopping on a canceled token is left out.
- The methods make a single attempt of a retried callable. A retriable status with the abort token not canceled gives `Retried`, with the state the attempt left; the next attempt is the next call, with the next answers as parameters. When the abort token is canceled the attempt's own status is passed on, not the token's cancellation error.
- The coordinator's states are collapsed to the five ranks `onReshardingFieldsChanges` compares against.
- The serialized donor state names are the enum's IDL names, which are defined outside this code.
- The critical section is a flag; acquiring and releasing it on the collection is not modelled.
- ReshardingDonorService.DonorStateMachine.OnAbortEncountered: its precondition states the source's invariant that, before `run()`, the decision promise is still pending.
- ReshardingDonorService.DonorStateMachine.TransitionState: requires the target state to keep the context invariant (clone statistics past kPreparingToDonate); every caller in the source meets it.
- The BSON value model has only embedded objects and opaque scalars. `getOwned()` copies and is the identity here. Arrays are scalars, although `BSONElement::Obj()` also accepts an array: an array under either field name parses in the source but fails in the model.
- Base.Categories: the error-code table is defined outside this code; only CallbackCanceled is given its category (cancellation), and ShutdownInProgress, ExceededTimeLimit and the other named codes are assumed to have none. Only the transport statuses use them, and none reaches `StopRetrying`.

## Findings

| source | as written | input that shows it | evidently intended | confidence | as-written member | corrected member |
|---|---|---|---|---|---|---|
| src/mongo/transport/transport_layer_asio.cpp:256-264 | after a partial synchronous header read, the asynchronous read fills all 16 header bytes from offset 0 again | a 20-byte frame whose header arrives as 4 bytes, then would-block, then the rest: the header holds wire bytes 4..19 and decodes to length 0 | read the remaining 16 − n bytes at offset n | high on the buffer arithmetic, not executed | AsioSession.HeaderAfterContinuationAsWritten, AsioSession.AsWrittenContinuationLosesLength | AsioSession.ASIOSession.OnHeaderReadable |
| src/mongo/transport/transport_layer_asio.cpp:107,111 | `asyncWait` reads the expiration and implementation of `ticket` after moving it into `ownedTicket` | a running layer and any ticket: line 107 reads the moved-from ticket, so an expired ticket is not reported as expired the way `wait` reports it | read `ownedTicket`, as `wait` does at lines 81 and 85 | high, not executed | TransportLayerAsio.AsyncWaitAsWritten, TransportLayerAsio.AsWrittenAsyncWaitReadsMovedFromTicket | TransportLayerAsio.AsyncWait |
| src/mongo/db/s/resharding/resharding_donor_service.cpp:473-477 | the cloning step ends in an `onCompletion` whose callback ignores its status and returns nothing, so the step succeeds whenever it completes | abort token canceled while recipients are still cloning: the wait fails, the step succeeds, and the chain runs the applying step with the donor still in kDonatingInitialData | return the status the callback receives | medium, not executed | ReshardingDonorService.CloningStepOutcomeAsWritten, ReshardingDonorService.AsWrittenCloningStepSwallowsCancellation | ReshardingDonorService.DonorStateMachine.AwaitCloningThenDonateOplog |
| src/mongo/transport/service_executor_silly.cpp:65-66 | `start()` adds threads while the count differs from the reserve, so a negative reserve never ends the loop | reserve -1: after any number of iterations the loop condition still holds, and the loop runs until the int counter overflows | add threads while the count is below the reserve, none for a negative one | high, not executed | ServiceExecutorSilly.AsWrittenStartNeverStopsOnNegativeReserve, ServiceExecutorSilly.AsWrittenStartAddsReserve | ServiceExecutorSilly.ServiceExecutor.Start |
