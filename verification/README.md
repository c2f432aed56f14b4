# Operune application layer: a verified model

Operune runs WebAssembly components as installations.  This project models the stateful core of its application
layer and proves what that core promises over whole runs:

- **Cancellation** (`CancelProtocol`): the atomic flag and watch channel of the cancellation token, one atomic
  access per step, any number of waiters and cancellers.
- **Scheduler** (`SchedulerFire`, `SchedulerLedger`, `SchedulerTable`, `SchedulerService`, `SchedulerDriver`): the
  periodic grid with its constant-time batch, the missed-fire ledger, the task table with its quotas, and the wake-up
  protocol between callers and the driver task.
- **Event bus** (`EventDelivery`, `EventProtocol`): bounded subscriber queues with dropped counts, and the protocol
  between publishers, `stop`, the pump and the consumers.
- **State and migration** (`StateStore`, `Migration`, `MigrationRuns`, `StateService`): the single-transaction store,
  staged migration with audit before commit, crashes and retries, and the guest-facing service behind the window.
- **Composition** (`GraphOrder`, `GraphCycle`, `ProviderGraph`, `GraphBuild`, `GraphPolicy`, `Removal`,
  `Composition`): resolution, in-degree ordering, cycle diagnosis, policy filtering, the service that switches records,
  policy and graph together, and uninstall.
- **Routes** (`RouteText`, `Routes`): path segments, template conflicts, the indexed registry, typed parameters.
- **Descriptor codec** (`DescriptorCodec`): the app-descriptor encoder and the bounded positional parser.
- **Pipeline** (`PipelineModel`, `PipelineSpec`, `Pipeline`, `PipelineRuns`, `PipelineServices`, `PipelineScenarios`):
  install, upgrade, rollback and enable around one snapshot swap, going through the composition and migration services
  above.  `PipelineSpec` says exactly how a run ends, from which calls fail; `Pipeline` is proved to do that;
  `PipelineRuns` says what it comes to over any runs of any installations, and `PipelineScenarios` plays the failing
  cases through from an empty host.

Ports (clock, grants, audit, registry, runtime, delivery) answer through parameters: an `Option`, a fault record, or an
oracle saying which calls succeed.  A store call is atomic and has no effect when it fails.

`dafny verify dfyconfig.toml` checks everything.

## Where the code differs from what it promises

Each item is a proved statement about the code as it is.

- The 32-bit grid factor saturates: a batch ends after `now`, and leaves the task on its grid, exactly when it has fewer
  than 2^32 due points (`SchedulerFire.BatchEndsAfterNow`, `SchedulerLedger.GridKeptExactly`).  The out-of-range exit
  of the batch loop is unreachable (`SchedulerFire.DueGridPointsAreRepresentable`).
- A stopped driver that finds a task due spins for ever (`SchedulerDriver.SpinningForever`,
  `SchedulerDriver.SpinningHappens`): at the top of its loop it can end exactly when nothing is due
  (`SchedulerDriver.StoppedDriverExits`), and it must end exactly when nothing is scheduled
  (`SchedulerDriver.StoppedDriverMustEnd`).
- A `schedule` between a clock failure and the driver's exit returns ok and leaves the task with no driver
  (`SchedulerDriver.ScheduleDuringExitIsOrphaned`, `SchedulerDriver.TasksCanBeOrphaned`); `ensure_driver` leaves one
  exactly when it does not meet one on its way out (`SchedulerDriver.EnsureDriverDecides`,
  `SchedulerDriver.DriverExists`).
- A publish that sends after the pump's last empty receive is told ok and reaches nobody
  (`EventProtocol.LateSendIsLost`, `EventProtocol.LateSendHappens`).
- The pump's batch is documented as bounded by the inbound capacity; it is not
  (`EventProtocol.BatchesAreUnbounded`): it is bounded so exactly when the queue at the first receive plus the sends
  accepted meanwhile is (`EventProtocol.BatchSize`).
- A migration whose guest writes nothing reports success and leaves the stored version where it was
  (`MigrationRuns.VersionAdvancesIffGuestWrote`, `MigrationRuns.MigratedWithoutMoving`), and a component can then be
  active over another version (`MigrationRuns.PhaseEndsAtDeclaredVersion`, `PipelineRuns.RunReports`).
- The storage crate implements the state store and its audit port on one connection that refuses audit rows while a
  transaction is open: with both ports on it no migration runs (`MigrationRuns.SharedConnectionNeverMigrates`) and
  `begin_transaction` fails leaving its transaction open (`StateService.StateService.BeginTransaction`).
- A guest that commits the migration transaction itself moves the data while the outcome says conflict or roll-back
  (`MigrationRuns.GuestCommitEscapesRollback`); that is the only way a migration that is not reported as done moves
  data (`MigrationRuns.DataMovesExactly`).
- The uninstall check and the graph rebuild agree unless a policy binding names the installation
  (`Removal.PreCheckAgreesUnlessBound`, `Removal.BoundPassesTheCheck`); then uninstall fails after the installation has
  left the snapshot.  A failing background stop, graph port or registry leaves it half removed as well, and which half
  is exact (`Composition.UninstallService.Uninstall`).
- An upgrade that has begun to drain the old candidate and then cannot write its record, or the new candidate's
  readiness, leaves the installation stuck: its recorded candidate is not active, and no upgrade or rollback to other
  bytes can replace it (`PipelineRuns.ReplacementSticksExactly` has the exact stages, `PipelineRuns.StuckExactly` those
  of any run, `PipelineScenarios.FailedRecord` and `PipelineScenarios.FailedReadiness` the calls).  It stays stuck
  through any runs of other bytes (`PipelineServices.FailedUpdateBlocksUpgrades`); it is freed exactly by a run of its
  recorded bytes for another installation that ends serving (`PipelineRuns.FreedExactly`).
- Candidates belong to bytes, not to installations: a second installation of the same bytes that is replaced, or fails,
  gets the first one stuck (`PipelineRuns.StuckExactly`).
- In the second of these cases the record names the new bytes while the old entry serves, and an upgrade to the new
  bytes is answered as already done (`PipelineScenarios.FailedReadiness`); that is the only way record and snapshot part
  (`PipelineRuns.AgreesExactly`).
- The schema phase commits before everything that can still fail: a run locks the serving version out of its state
  exactly when it gets to that phase and its migration commits something, however the run ends
  (`PipelineRuns.LockedOutExactly`, `PipelineServices.FailedUpgradeLocksStateOut`, `PipelineScenarios.LockedOut`).
- Conflict detection ignores the length limit of request paths: it can report two templates no accepted path
  matches (`Routes.DetectCanBeWrong`), and means what it says exactly when their shortest common path is within the
  limit (`Routes.DetectIsExact`).

## Model

| member | source | states |
|---|---|---|
| `CancelProtocol.InvOverRuns` | crates/application/src/cancel.rs:57-83 | over every interleaving of the atomic steps: nothing is sent before the flag is set, at most one sender is ever in flight, and a blocked waiter that has not been notified has a send still to come |
| `CancelProtocol.NoLostWakeup` | crates/application/src/cancel.rs:57-83 | a waiter blocked after the flag is set can wake, or a send is still to come that finds a receiver and publishes |
| `CancelProtocol.ReturnedOnlyAfterCancel` | crates/application/src/cancel.rs:73-83 | no waiter returns before a cancel; the channel is written at most once however many cancellers there are |
| `CancelProtocol.StepDecreases` | crates/application/src/cancel.rs:57-83 | every atomic step strictly lowers the number of steps the calls in flight can still take |
| `CancelProtocol.CancelledRunsReleaseEveryWaiter` | crates/application/src/cancel.rs:73-83 | runs are bounded, and a cancelled run that cannot go on by itself has no waiter left inside the call |
| `SchedulerFire.DueGridPointsAreRepresentable` | crates/application/src/scheduler.rs:608-615 | every due grid point lies at or before now, so the out-of-range exit of the batch is never taken |
| `SchedulerFire.DueGridPointsAreExact` | crates/application/src/scheduler.rs:456-471 | a grid point is counted as due if and only if it lies at or before now; without an interval exactly one is |
| `SchedulerFire.BatchEndsAfterNow` | crates/application/src/scheduler.rs:456-478 | the batch ends on the first grid point strictly after now if and only if the due count fits the 32-bit factor |
| `SchedulerFire.FirePeriodic` | crates/application/src/scheduler.rs:607-646 | the periodic branch delivers every due grid point up to the first refusal and counts all the rest as missed at once |
| `SchedulerLedger.BatchRefinesSingles` | crates/application/src/scheduler.rs:607-646 | the batch gives the same payloads, missed count, sequence and next fire as firing each due grid point singly against a queue that stays full once full |
| `SchedulerLedger.FireKeepsCountLedger` | crates/application/src/scheduler.rs:589-646 | one round keeps the ledger: each payload carries the gap to the last delivered sequence number, the task the gap since then |
| `SchedulerLedger.FireKeepsGridLedger` | crates/application/src/scheduler.rs:608-646 | one round keeps every payload and the next fire on the task's own grid |
| `SchedulerLedger.GridKeptExactly` | crates/application/src/scheduler.rs:456-478 | a round leaves the task on its grid if and only if the due count fits the 32-bit factor |
| `SchedulerLedger.FireLedger` | crates/application/src/scheduler.rs:560-649 | over any sequence of rounds and refusals, delivered fires, the misses they carry and the pending misses add up to sequence - 1, each payload reports exactly the gap, and each was scheduled on its grid point |
| `SchedulerLedger.OneShotFiresExactlyOnce` | crates/application/src/scheduler.rs:590-606 | over any rounds a one-shot task fires exactly once: nothing before the first round at or past its instant, then completed for good, with either one payload at its own instant or one counted miss |
| `SchedulerTable.FireUpToPointwise` | crates/application/src/scheduler.rs:579-648 | a round fires each due task exactly once, touches no other task, and delivers only the task's own payloads under its name |
| `SchedulerTable.RoundInOrder` | crates/application/src/scheduler.rs:579-648 | a round delivers in identifier order |
| `SchedulerTable.FireKeepsBalance` | crates/application/src/scheduler.rs:560-649 | a round over the whole table keeps every task's ledger and schedules nothing new |
| `SchedulerTable.FireKeepsGrid` | crates/application/src/scheduler.rs:560-649 | a round over the whole table keeps the payloads and the next fire of every task on its own grid, unless a task is more than 2^32 points behind |
| `SchedulerTable.CancelEndsTask` | crates/application/src/scheduler.rs:300-325 | cancelling leaves the task cancelled, without a next fire and not live, every other task and all counters as they were, delivers nothing, and wakes the driver |
| `SchedulerTable.EarliestNextFire` | crates/application/src/scheduler.rs:652-658 | the least next fire among the scheduled tasks, or nothing when there is none |
| `SchedulerTable.RoundLeavesNothingDue` | crates/application/src/scheduler.rs:518-521 | after a round the earliest next fire is strictly later than now, so the driver's immediate re-loop makes progress |
| `SchedulerService.SchedulerService.Schedule` | crates/application/src/scheduler.rs:220-285 | each refusal in the source's order, an invalid trigger being exactly one that is not in the future or whose interval is below the minimum, and the registration otherwise; quotas, distinct identifiers and ledgers are kept |
| `SchedulerService.RegisterKeepsInv` | crates/application/src/scheduler.rs:244-282 | registration keeps both quotas, identifiers never shared between installations, and every ledger |
| `SchedulerService.RegisterKeepsGrid` | crates/application/src/scheduler.rs:244-282 | registration keeps every task of every installation on its grid |
| `SchedulerService.RegistrationAddsOneTask` | crates/application/src/scheduler.rs:242-284 | a successful registration adds exactly one live task under an identifier no installation has used, keeps every earlier task and wakes the driver; a refusal leaves every installation as it was |
| `SchedulerService.SchedulerService.Register` | crates/application/src/scheduler.rs:242-284 | succeeds exactly within both quotas and before a stop, and is refused for the first of the total quota, the stop and the own quota that stands in the way; a refusal changes no task |
| `SchedulerService.RegistersExactly` | crates/application/src/scheduler.rs:242-284 | the same about the registration as a function |
| `SchedulerService.SchedulerService.Cancel` | crates/application/src/scheduler.rs:292-325 | succeeds exactly for a scheduled task of an installation that is not stopped; then that task is cancelled, without a next fire and not live, and every other task is as it was; otherwise nothing changes |
| `SchedulerService.SchedulerService.Stop` | crates/application/src/scheduler.rs:354-372 | records the stop even for an unknown installation; exactly the first call cancels the token |
| `SchedulerService.SchedulerService.FireDue` | crates/application/src/scheduler.rs:560-649 | one firing round in task order, nothing when stopped, unknown or without a clock; every count ledger is kept, and every grid ledger when no due task is more than 2^32 points behind |
| `SchedulerDriver.InvOverRuns` | crates/application/src/scheduler.rs:485-540 | over every interleaving: the handle is set exactly while a driver runs, what the driver scanned is current or a wake-up waits, and the driver ends only after a clock failure or a cancelled token |
| `SchedulerDriver.ParkedIsExact` | crates/application/src/scheduler.rs:493-530 | a parked driver has an unseen wake-up or sleeps until exactly the earliest next fire of the table |
| `SchedulerDriver.DriverExists` | crates/application/src/scheduler.rs:276-285 | once every schedule call has returned a driver is running exactly when the last ensure_driver did not meet a driver on its way out and no driver has decided to end since |
| `SchedulerDriver.EnsureDriverDecides` | crates/application/src/scheduler.rs:393-412 | ensure_driver leaves a live driver behind if and only if it does not meet one on its way out |
| `SchedulerDriver.DriverExistsUnlessClockFails` | crates/application/src/scheduler.rs:276-285 | short of a clock failure and a stop a driver is always running once every schedule call has returned |
| `SchedulerDriver.DueTaskIsFired` | crates/application/src/scheduler.rs:485-530 | a due task is fired within six driver steps, whatever is scheduled, cancelled or ticked meanwhile |
| `SchedulerDriver.StepApproachesFire` | crates/application/src/scheduler.rs:485-530 | every driver step brings a due task strictly closer to its fire and no caller's step moves it away |
| `SchedulerDriver.FiringFires` | crates/application/src/scheduler.rs:560-649 | the firing step gives the due task its full round and appends the table's payloads to the deliveries |
| `SchedulerDriver.CancelIsFinal` | crates/application/src/scheduler.rs:287-325 | over any later run of schedules, cancels, ticks and rounds a cancelled task stays cancelled, delivers nothing more and cannot be cancelled again |
| `SchedulerDriver.DriverCanAlwaysStep` | crates/application/src/scheduler.rs:485-530 | while a task is due the driver is never stuck |
| `SchedulerDriver.ScheduleDuringExitIsOrphaned` | crates/application/src/scheduler.rs:393-412 | a task scheduled while the driver is on its way out is accepted and left without a driver; this needs a clock failure |
| `SchedulerDriver.TasksCanBeOrphaned` | crates/application/src/scheduler.rs:512-517 | from every fresh installation there is such a run |
| `SchedulerDriver.SpinningForever` | crates/application/src/scheduler.rs:518-521 | a stopped driver with a due task never reaches the branch that looks at the token |
| `SchedulerDriver.SpinningHappens` | crates/application/src/scheduler.rs:518-521 | every fresh installation can reach the spin: schedule, stop, cancel the token, and let the task fall due |
| `SchedulerDriver.StoppedDriverExits` | crates/application/src/scheduler.rs:492-540 | a stopped driver at the top of its loop can end if and only if no task is due |
| `SchedulerDriver.StoppedDriverMustEnd` | crates/application/src/scheduler.rs:492-540 | the driver steps of a stopped driver are bounded, over every interleaving with a working clock, if and only if no task is left scheduled |
| `SchedulerDriver.StoppedDriverCanStep` | crates/application/src/scheduler.rs:492-540 | until it has ended a driver whose token is cancelled always has a step to take |
| `EventDelivery.OfferKeepsBalance` | crates/application/src/event.rs:438-454 | the drop ledger and the queue bound survive every fan-out: deliveries, drops they report and pending drops are all the events offered, each delivery in its place |
| `EventDelivery.OfferDelivers` | crates/application/src/event.rs:438-454 | an event offered to a queue with room goes out with the pending drop count, which starts over; one offered to a full queue is dropped and counted |
| `EventDelivery.OfferAllPointwise` | crates/application/src/event.rs:422-456 | every subscriber of the snapshot is offered the event exactly once and nobody else is touched |
| `EventDelivery.Bus.FanOut` | crates/application/src/event.rs:422-456 | every subscriber named is sent the event if its queue has room and counts it as dropped if not, nobody else is touched, and every queue stays bounded and balanced |
| `EventDelivery.Bus.Take` | crates/application/src/event.rs:485-494 | a consumer takes the queue's head, in order, once, and nothing else of the subscription changes |
| `EventDelivery.SubseqNoDup` | crates/application/src/event.rs:422-456 | a subsequence of an order without repeats has none |
| `EventProtocol.InvOverRuns` | crates/application/src/event.rs:234-456 | over every interleaving: fanned out, in hand and queued events are the accepted ones in order; queues are bounded; identifiers and answers match; deliveries follow the fan-out order |
| `EventProtocol.AcceptedWorkSurvivesStop` | crates/application/src/event.rs:266-291 | everything accepted before stop took the lock is fanned out exactly once in order before the pump is gone; an event is fanned out exactly when it was accepted before the pump's last empty receive |
| `EventProtocol.NothingNewIsAcceptedAfterStop` | crates/application/src/event.rs:318-331 | after stop only calls already past the lock can be accepted; with none, all accepted work is fanned out |
| `EventProtocol.LateSendIsLost` | crates/application/src/event.rs:251-257 | a call that still holds its sender at the pump's last empty receive is answered ok and its event never reaches anyone |
| `EventProtocol.LateSendHappens` | crates/application/src/event.rs:251-257 | such a run exists on every bus with room for an event |
| `EventProtocol.PublishAnswers` | crates/application/src/event.rs:234-257 | a publish is refused at once exactly after a stop; a send is accepted exactly when the pump is not gone and the inbound queue has room, and is told which of the two it was if not |
| `EventProtocol.AnswersAreFinal` | crates/application/src/event.rs:234-257 | an answer once given stands over every later interleaving |
| `EventProtocol.SubscriberView` | crates/application/src/event.rs:422-456 | what a subscriber receives is a subsequence of acceptance order without repeats, from a bounded queue, and its payloads account for every event fanned out to it |
| `EventProtocol.SubscriberIsOffered` | crates/application/src/event.rs:422-456 | every event whose fan-out is over for a subscriber was offered to it if and only if that fan-out named it, once each and in fan-out order |
| `EventProtocol.DroppedExactlyWhenFull` | crates/application/src/event.rs:422-456 | over any interleaving a subscriber is sent exactly the events whose offer met a queue with room, in order; an event is dropped if and only if the queue was full when it was offered |
| `EventProtocol.StoppedPumpIsBounded` | crates/application/src/event.rs:370-417 | after a stop the pump takes a bounded number of steps whatever publishers and consumers do |
| `EventProtocol.StoppedPumpCanStep` | crates/application/src/event.rs:370-417 | until it is gone a stopped pump always has a step to take |
| `EventProtocol.BatchesAreUnbounded` | crates/application/src/event.rs:390-398 | with room for a single event a batch can reach any size |
| `EventProtocol.BatchGrowsBySends` | crates/application/src/event.rs:390-398 | while a batch is collected, batch and queue together grow by exactly the accepted sends |
| `EventProtocol.BatchSize` | crates/application/src/event.rs:390-398 | a batch is exactly what was accepted and not fanned out; it stays within the inbound capacity if and only if the queue at the first receive plus the sends accepted meanwhile does, so always when none is |
| `StateStore.OpKeepsDbOk` | crates/storage-sqlite/src/executor.rs:2431-2649 | every operation keeps: a store without a version is empty, no row is newer than the store, the open transaction writes at no older version and sees the committed rows under its own writes |
| `StateStore.VersionNeverDecreases` | crates/storage-sqlite/src/executor.rs:2431-2649 | across any mix of writes, transactions, failed commits and aborts, and crashes, no installation's stored version goes back or is lost |
| `StateStore.OnlyCommitMovesData` | crates/storage-sqlite/src/executor.rs:2392-2425 | while a transaction is open only its own commit changes committed data, and only its installation's |
| `StateStore.TxWriteReadsBack` | crates/storage-sqlite/src/executor.rs:2431-2649 | a write inside a transaction succeeds exactly in that transaction, a delete only of a key it sees; then the transaction reads it back at its own version, every other key as before, and nothing is committed |
| `StateStore.WriteReadsBack` | crates/storage-sqlite/src/executor.rs:2431-2649 | a put or delete outside a transaction succeeds exactly when allowed, reads back, and changes no other key and no other installation; the error otherwise |
| `StateStore.TransactionEnds` | crates/storage-sqlite/src/executor.rs:2392-2425 | after a commit everybody reads what the transaction saw, at its version if it wrote; after an abort, a failed commit or a crash, what they read before it began; a failed abort leaves it open |
| `StateStore.BeginReads` | crates/storage-sqlite/src/executor.rs:2431-2649 | a transaction begins exactly where none is open, at the stored version or, for a migration, above it, and sees the committed rows; the error otherwise |
| `Migration.MigrationIsAtomic` | crates/application/src/migration.rs:203-309 | with a guest that leaves its transaction open, an attempt returns migrated exactly when data and version moved together to the target, audited as started then committed; every other return leaves all data alone |
| `Migration.MigratedHoldsLast` | crates/application/src/migration.rs:203-309 | behind a reported migration every key of the store holds the guest's last write to it, at the target version, nothing if that was a delete, and its old row if the guest wrote nothing to it; no other installation's store has changed |
| `Migration.MovedHoldsLast` | crates/application/src/migration.rs:203-309 | the same for any commit of the guest's writes, and the stored version is the target if any of them took effect |
| `MigrationRuns.GuestRunsInsideWindow` | crates/application/src/migration.rs:238-270 | the guest runs with the window open and its own transaction the only one |
| `MigrationRuns.WindowClosesOnEveryExit` | crates/application/src/migration.rs:161-170 | whatever fails, the window is closed when the attempt returns |
| `MigrationRuns.VersionAdvancesIffGuestWrote` | crates/storage-sqlite/src/executor.rs:2611-2630 | a migration reported as done moved the stored version if and only if the guest wrote something |
| `MigrationRuns.MigratedWithoutMoving` | crates/storage-sqlite/src/executor.rs:2611-2630 | such a migration: reported as migrated to 2, the store still at 1 |
| `MigrationRuns.DataMovesExactly` | crates/application/src/migration.rs:203-309 | for any guest and any faults: migrated is returned exactly when the guest was reached, kept its transaction open and succeeded with audit and commit intact; any other return leaves the data alone if and only if the guest committed no write of its own |
| `MigrationRuns.GuestReachedIsExact` | crates/application/src/migration.rs:203-262 | the guest is called exactly when the store is at the source version below the target, no transaction is open, and read, begin and the first audit row succeed |
| `MigrationRuns.GuestCommitEscapesRollback` | crates/application/src/state.rs:407-417 | what the caller of a migration whose guest committed by itself is told under every fault: conflict, audit failure or roll-back, with the data at the target |
| `MigrationRuns.SharedConnectionNeverMigrates` | crates/storage-sqlite/src/executor.rs:2082-2087 | with audit rows on the state connection no migration runs, and one that could begin fails with the audit error |
| `MigrationRuns.AttemptIsAllOrNothing` | crates/application/src/migration.rs:203-309 | one attempt, with failures, a trap and a crash anywhere, changes nothing or reaches the full target |
| `MigrationRuns.AttemptsConverge` | crates/application/src/migration.rs:9-24 | any sequence of such attempts leaves the original data at the source version or the fully migrated data |
| `MigrationRuns.AtTargetStays` | crates/application/src/migration.rs:213-222 | at the target every later attempt says so without running the guest |
| `MigrationRuns.CleanAttemptCompletes` | crates/application/src/migration.rs:9-24 | after any history, a restart and one attempt without faults end at the target |
| `MigrationRuns.StagesGrowVersion` | crates/application/src/migration.rs:203-309 | no stage of any migration, by any guest, takes a stored version back |
| `MigrationRuns.VersionNeverDecreasesOverHistories` | crates/application/src/install.rs:861-941 | across any mix of state operations, transactions, migrations by any guest, crashes and activations, no stored schema version decreases or disappears, and a store without one is empty |
| `MigrationRuns.PhaseEndsAtDeclaredVersion` | crates/application/src/install.rs:861-941 | a component that passes the schema phase over a non-empty store runs at its declared version exactly when the store was there or the migration wrote; one that fails has changed no data unless its guest committed by itself |
| `MigrationRuns.AttemptMeans` | crates/application/src/migration.rs:203-309 | for any guest and any faults an attempt from the source version succeeds exactly in the orderly case and moves the data exactly when the service or the guest itself committed |
| `MigrationRuns.AnswersWithoutWindow` | crates/application/src/migration.rs:203-237 | what is answered from the stored version alone: read failure, nothing to migrate, already there, an unexpected version, a target below the source |
| `MigrationRuns.AnswersWithoutGuest` | crates/application/src/migration.rs:238-262 | what is answered and audited when another transaction is open, none can be begun, or its beginning cannot be audited |
| `MigrationRuns.AnswersAfterGuest` | crates/application/src/migration.rs:262-309 | what is answered and audited once the guest has run, for every guest and every fault |
| `StateService.MigrationService.Migrate` | crates/application/src/migration.rs:203-309 | the migration method performs exactly the five stages, closing the window on every exit; after a success every key holds the guest's last write to it or its old row |
| `StateService.StateService.Get` | crates/application/src/state.rs:214-238 | the stored value, unless a window, another schema version, an open transaction, a store call that fails by itself or a failing audit stands in the way; which error is reported, in each case |
| `StateService.RefusedExactly` | crates/application/src/state.rs:163-174 | a call is refused as not ready during a migration, as the store's own failure under its own name, and as unsupported exactly when the stored version is another one |
| `StateService.StateService.Cas` | crates/application/src/state.rs:247-298 | writes exactly when allowed, the current value is the expected one and the store does not fail by itself; then that key alone changes; the answer in every case, a failing audit hiding a write that happened |
| `StateService.StateService.BeginTransaction` | crates/application/src/state.rs:307-331 | opens a transaction exactly outside a window, at the stored version, with none open and no store failure; the answer in every case; on one connection with the audit it fails and leaves its transaction open |
| `StateService.StateService.CommitTransaction` | crates/application/src/state.rs:407-435 | a transaction opened elsewhere still commits, and the caller is told of an internal error |
| `StateService.StateService.AbortTransaction` | crates/application/src/state.rs:444-468 | aborting what is not open succeeds and changes nothing; committed data never changes |
| `GraphOrder.PeelIsOrdered` | crates/domain/src/graph.rs:531-601 | the ordering lists participants once, each only after everything depending on it |
| `GraphOrder.Kahn` | crates/domain/src/graph.rs:575-601 | the in-degree loop computes the least-first peeling |
| `GraphCycle.ExplainFailure` | crates/domain/src/graph.rs:603-620 | when the ordering is incomplete the search always finds a closed dependency path among the nodes left behind, so both fail-stops are unreachable |
| `GraphCycle.FindCycle` | crates/domain/src/graph.rs:627-700 | the search returns a real cycle, or a finishing order of everything it reached |
| `GraphCycle.CyclicIsNeverComplete` | crates/domain/src/graph.rs:596-605 | a graph with a cycle is never ordered completely |
| `ProviderGraph.GraphIsUnique` | crates/domain/src/graph.rs:314-393 | the same records always give the same graph, activation order included |
| `ProviderGraph.OrderIsTopological` | crates/domain/src/graph.rs:405-411 | the activation order lists every participant once, providers before their consumers |
| `ProviderGraph.NoSelfEdge` | crates/domain/src/graph.rs:382-385 | an installation never resolves to itself |
| `ProviderGraph.ResolvesExactly` | crates/domain/src/graph.rs:460-529 | an edge means: its provider offers the interface at that version, the requirement's bounds admit it, it is the highest such version, and nobody else offers the interface at any admitted version |
| `ProviderGraph.AccurateErrorsRefuse` | crates/domain/src/graph.rs:314-327 | records an accurate missing, incompatible, ambiguous or cycle error describes have no graph |
| `GraphBuild.Resolve` | crates/domain/src/graph.rs:460-529 | one requirement resolves to the only candidate at its highest compatible version, or the error is true of the records |
| `GraphBuild.TryBuild` | crates/domain/src/graph.rs:328-393 | succeeds if and only if no installation occurs twice and the records have a graph; returns that graph, or the first error in the order of the checks: repeated provider, repeated consumer, first failing requirement, cycle |
| `GraphBuild.ReportedErrorIsUnique` | crates/domain/src/graph.rs:314-327 | the records determine the reported error, up to which cycle is shown |
| `GraphPolicy.GraphPolicy.Bind` | crates/application/src/composition.rs:323-346 | binds, or refuses a second binding or an excluded provider; bound and excluded providers stay disjoint |
| `GraphPolicy.GraphPolicy.Exclude` | crates/application/src/composition.rs:349-362 | excludes exactly the providers no binding names; disjointness is kept |
| `GraphPolicy.AppliedExactly` | crates/application/src/composition.rs:386-425 | after filtering a bound interface is offered by exactly its bound provider, an unbound one by exactly the non-excluded providers that had it, with every version |
| `GraphPolicy.ApplyIsIdempotent` | crates/application/src/composition.rs:386-425 | applying the rules twice succeeds and is applying them once |
| `GraphPolicy.BoundIsNeverAmbiguous` | crates/application/src/composition.rs:32-49 | a requirement on a bound interface has no other candidate |
| `GraphPolicy.ApplyRecordsIsApplyTable` | crates/application/src/composition.rs:383-425 | with one record per provider the loop over records is the rules applied to the table they mean |
| `GraphPolicy.RecordOrderIsIrrelevant` | crates/application/src/composition.rs:383-425 | the same records in another order mean the same table, fulfil the same rules and leave the same table after them |
| `GraphPolicy.Apply` | crates/application/src/composition.rs:386-425 | fails exactly when some binding's provider does not offer its interface, and names such a binding |
| `Removal.RemovalTheorem` | crates/application/src/composition.rs:651-665 | the rebuild without an installation succeeds if and only if no other requirement resolves to it and no binding names it; then every other edge is unchanged |
| `Removal.PreCheckAgreesUnlessBound` | crates/application/src/uninstall.rs:131-143 | the uninstall check and the rebuild disagree exactly on installations a binding names |
| `Removal.BoundPassesTheCheck` | crates/application/src/uninstall.rs:131-143 | such an installation: the uninstall check passes and the graph without it cannot be built |
| `Composition.CompositionService.UpdatePolicy` | crates/application/src/composition.rs:539-566 | succeeds exactly when the records have a graph under the policy and no port fails, and keeps the active graph that of the records; the error of the first failure otherwise, which changes nothing |
| `Composition.CompositionService.BuildCandidate` | crates/application/src/composition.rs:675-709 | the candidate is the graph of the records with the installation's whole group replaced |
| `Composition.CompositionService.CommitActivation` | crates/application/src/composition.rs:628-646 | records and graph switch together exactly when the new records have a graph and no port fails; the error of the first failure otherwise, which changes nothing |
| `Composition.CompositionService.Deactivate` | crates/application/src/composition.rs:651-665 | without port failures succeeds exactly for unused, unbound installations and keeps every other edge; a failure changes nothing |
| `Composition.UninstallService.Uninstall` | crates/application/src/uninstall.rs:121-214 | the answer of the first step that fails, exactly, and what has been done by then: snapshot, background work, graph and registration in this order; a bound installation passes the check and is refused by the graph |
| `RouteText.NormalizeRequestPath` | crates/application/src/web_app.rs:251-275 | accepts exactly the paths that are their valid segments joined, and returns those segments |
| `RouteText.AcceptedPathsStayInside` | crates/application/src/web_app.rs:251-275 | an accepted path has no empty, current or parent segment, no backslash and no control character |
| `RouteText.PathHasOneReading` | crates/application/src/web_app.rs:268-274 | an accepted path has only one reading as segments |
| `RouteText.RenderThenParse` | crates/application/src/web_app.rs:333-375 | rendering a typed value and parsing it at its type gives it back |
| `RouteText.ParsedHasType` | crates/application/src/web_app.rs:333-375 | whatever parses is in range for its declared type |
| `RouteText.ParsesExactly` | crates/application/src/web_app.rs:333-375 | for every text and type: a text parses exactly when it is a value of the type, and to that value; a boolean is "true" or "false", an integer an optional permitted sign and digits within 64 bits |
| `RouteText.DigitsAreDecimal` | crates/application/src/web_app.rs:333-375 | digits mean what they mean in decimal, leading zeros included |
| `RouteText.RenderedIsSegment` | crates/application/src/web_app.rs:251-275 | a rendered value is a valid segment |
| `Routes.DetectIsExact` | crates/domain/src/web.rs:919-951 | some path the host accepts matches both templates if and only if a conflict is reported, the templates are not empty, and their shortest common path is within the length limit |
| `Routes.DetectIsExactOnSegments` | crates/domain/src/web.rs:919-951 | without the length limit two templates conflict if and only if some sequence of valid segments matches both |
| `Routes.DetectCanBeWrong` | crates/domain/src/web.rs:919-951 | two templates of 4005 bytes each that are reported as a conflict although no accepted path matches both |
| `Routes.CheckConflicts` | crates/domain/src/web.rs:1457-1471 | the pairwise check accepts exactly the declarations without conflicts |
| `Routes.NoConflictsExactly` | crates/domain/src/web.rs:1457-1471 | a declaration passes exactly when no two of its routes with the same method can be matched by the same valid segments |
| `Routes.AtMostOneMatch` | crates/application/src/web_app.rs:161-167 | in an accepted declaration a path matches at most one route of a method |
| `Routes.DeclaredRoutesHaveNoConflicts` | crates/domain/src/web.rs:1457-1471 | comparing each pair once, in one order, is enough for every pair |
| `Routes.MatchTemplate` | crates/application/src/web_app.rs:280-298 | matches exactly when lengths and literals agree, and captures each parameter at its position |
| `Routes.BuildTypedParams` | crates/application/src/web_app.rs:303-329 | the values the segments are of their declared types, in declaration order, or the name of the first declared parameter whose segment is no value of its type |
| `Routes.BuildIndexes` | crates/application/src/web_app.rs:180-195 | the indexes list every route under its identifier and method and nothing else |
| `Routes.RouteRegistry.Resolve` | crates/application/src/web_app.rs:213-243 | resolving through the indexes is resolving by the set of declared routes: the route that matches, with every parameter the value its segment is, or the refusal |
| `Routes.MalformedIsRefused` | crates/application/src/web_app.rs:303-329 | a path that matches a route with a text that is no value of its parameter's type is refused, naming the first such parameter |
| `Routes.RouteRegistry.RouteById` | crates/application/src/web_app.rs:203-205 | finds a declared identifier and no other |
| `Routes.ResolutionIsUnique` | crates/application/src/web_app.rs:213-243 | a path has one resolution, error included, whatever the declaration order |
| `Routes.RenderThenResolve` | crates/application/src/web_app.rs:213-243 | rendering values into a route's template and resolving gives back that route and those values in declaration order; they pass request validation exactly when there are at most 64 |
| `Routes.ValidateRequestParams` | crates/application/src/web_app.rs:833-850 | accepts exactly parameter lists that agree with the declaration in number, order, name and type, up to 64 |
| `Routes.DeclaredRoutesAlwaysPass` | crates/application/src/contract.rs:583-594 | for routes of a descriptor the parser accepts, rendered parameters always pass request validation |
| `DescriptorCodec.ParseItems` | crates/application/src/contract.rs:896-925 | the list loop checks the limit first, keeps the order and stops at the first error |
| `DescriptorCodec.ParserIsGrammar` | crates/application/src/contract.rs:846-1048 | the parser accepts exactly the values of the descriptor grammar, field names and positions included, that are within the host limits, and reads each as what the grammar says it is |
| `DescriptorCodec.ReadingErrors` | crates/application/src/contract.rs:1282-1391 | what each reading complains about: a missing field, a value of another kind, a text above its limit |
| `DescriptorCodec.RouteRoundTrip` | crates/application/src/contract.rs:974-1048 | a route parses back to itself exactly when it and its parameters are within the limits |
| `DescriptorCodec.DescriptorRoundTrip` | crates/application/src/contract.rs:709-893 | parsing an encoded descriptor gives it back exactly when all lists and strings are within the host limits, and is refused as too large otherwise |
| `DescriptorCodec.ReencodingIsStable` | crates/application/src/contract.rs:846-893 | whatever the parser accepts re-encodes to something it parses to the same descriptor |
| `PipelineModel.LifecycleSteps` | crates/domain/src/lifecycle.rs:60-97 | how each candidate state is reached, and only so |
| `Pipeline.Pipeline.TransitionCandidate` | crates/application/src/install.rs:1603-1621 | moves the candidate along the lifecycle exactly when read, write and lifecycle allow it, and says what stood in the way otherwise |
| `Pipeline.Pipeline.FailCandidate` | crates/application/src/install.rs:1566-1581 | a failure touches no other candidate |
| `Pipeline.Pipeline.Admit` | crates/application/src/install.rs:345-447 | succeeds exactly when every check before it and every write does; then the bytes are stored and the candidate starts over; nothing is ever removed |
| `Pipeline.Pipeline.Identify` | crates/application/src/install.rs:449-587 | succeeds exactly for the installation's own component at a version that is not another digest's; a binding once made is kept; only a fresh install gets a record |
| `Pipeline.Pipeline.Prepared` | crates/application/src/install.rs:340-746 | the exact conditions for getting to the activation and for waiting for approval; until then snapshot, graph and all other installations are left alone, and the state store moves exactly when the schema phase is reached and commits |
| `PipelineSpec.PhaseMeans` | crates/application/src/install.rs:861-941 | when the schema phase passes, and what it leaves in the store, from the stored version, the two readings, the guest and the faults |
| `Pipeline.Pipeline.GateGraph` | crates/application/src/install.rs:589-638 | passes exactly the records that have a graph under the policy, when its calls succeed |
| `Pipeline.Pipeline.RunPhase` | crates/application/src/install.rs:861-941 | the two readings, the version check and the migration service perform exactly the schema phase |
| `Pipeline.Pipeline.CommitActivation` | crates/application/src/install.rs:1510-1550 | records and graph switch together or not at all; after the gate only a failing port stops the commit |
| `Pipeline.Pipeline.Start` | crates/application/src/install.rs:695-746 | the new entry is assembled from what was compiled, linked, instantiated and read, all of one digest |
| `Pipeline.Pipeline.Activate` | crates/application/src/install.rs:1235-1298 | what an install or enable leaves at each failing stage: graph, record, candidate and snapshot in this order |
| `Pipeline.Pipeline.Replace` | crates/application/src/install.rs:1304-1393 | what an upgrade leaves at each failing stage: a snapshot switched only after record and readiness, an error over a switched snapshot only from the final drain, a drain begun only for an active candidate |
| `Pipeline.Pipeline.Run` | crates/application/src/install.rs:340-813 | how a run ends, exactly, from which calls fail: its answer, down to which error, the snapshot, records, graph records, grants, bytes, bindings, state store and every candidate it leaves, those shared with other installations included |
| `PipelineRuns.RunTouchesOne` | crates/application/src/install.rs:340-813 | a run touches no other installation, keeps every version binding and every component, and takes no schema version back |
| `PipelineRuns.RunReports` | crates/application/src/install.rs:340-813 | a success serves the request completely or found it served; an error of the final drain leaves the new version serving completely, any other error the snapshot as it was; waiting for approval moves nothing |
| `PipelineRuns.ServedRecordAndEntry` | crates/application/src/install.rs:1235-1393 | after any run that ends serving, record and serving entry both carry the request's component, version and digest, every part of the entry is of those bytes, and the last known good digest is the one replaced |
| `PipelineRuns.ServedPassedEverything` | crates/application/src/install.rs:340-813 | a run that ends serving with nothing behind it failing has had every check, audit and write on its way succeed, and an upgrade has replaced something that served |
| `PipelineRuns.PreparedIsSound` | crates/application/src/install.rs:340-746 | what is activated is the installation's own component at a version that is not another digest's, has a graph, is granted its imports, and declares one schema version, not behind its state |
| `PipelineRuns.UnpreparedLeavesNoActivation` | crates/application/src/install.rs:340-746 | a run that does not get to the activation leaves at most a record for its new installation that serves nothing |
| `PipelineRuns.OnlyGrantedIsServed` | crates/application/src/install.rs:695-748 | whatever gets to the activation imports only capabilities its installation has been granted; a run that does not get there leaves all grants as they were |
| `PipelineRuns.StuckExactly` | crates/application/src/install.rs:430-445 | after a run for any installation, exactly when an installation's recorded candidate is not active: from how the run ended and whose bytes it ran |
| `PipelineRuns.ReplacementSticksExactly` | crates/application/src/install.rs:1350-1366 | an upgrade or rollback gets its installation stuck if and only if it announces the swap, the old candidate starts draining, and the record or the readiness of the new one cannot be written |
| `PipelineRuns.StuckStays` | crates/application/src/install.rs:1330-1366 | a stuck installation stays stuck and serves what it served through any run of other bytes, its own never succeeding |
| `PipelineRuns.FreedExactly` | crates/application/src/install.rs:430-445 | it is freed if and only if its recorded bytes are run for another installation and that run ends serving |
| `PipelineRuns.StuckOverHistories` | crates/application/src/install.rs:340-813 | the same over any history of runs of other bytes for any installations |
| `PipelineRuns.AgreesExactly` | crates/application/src/install.rs:1353-1385 | if record and serving entry agree on digest and version everywhere before a run, they do after it unless its record moved to other bytes or another version and the readiness could not be written, and exactly then they do not |
| `PipelineRuns.AgreesOverHistories` | crates/application/src/install.rs:340-813 | so they agree throughout any history without such a run |
| `PipelineRuns.LockedOutExactly` | crates/application/src/install.rs:675-748 | the served version is refused its state after a run if and only if the run reached the schema phase, its migration committed and something was written, however the run ended |
| `PipelineRuns.CleanRunPrepares` | crates/application/src/install.rs:340-746 | where component, version, grants, state and graph allow it, a run whose calls succeed gets to the activation |
| `PipelineServices.UpgradeService.Upgrade` | crates/application/src/upgrade.rs:111-147 | the answer of each guard in order, and otherwise that of the run: a swap has moved record, graph, state and snapshot, field by field the request's, and names both digests; any other success has moved nothing |
| `PipelineServices.SwapsExactly` | crates/application/src/upgrade.rs:111-147 | a swap is reported if and only if the run ends serving without a failure |
| `PipelineServices.UpgradeService.Rollback` | crates/application/src/upgrade.rs:150-195 | the answer of each guard in order; a swap goes to the last known good digest, whose bytes are always there |
| `PipelineServices.UpgradeService.RollbackTwice` | crates/application/src/upgrade.rs:150-195 | two rollbacks restore both digests, and the whole record, version included, as long as the bytes still say what it says; both succeed if and only if both runs end serving |
| `PipelineServices.InstallService.Install` | crates/application/src/install.rs:160-175 | a success records and serves the new digest with its graph and state, its candidate active; a failure leaves the snapshot |
| `PipelineServices.InstallService.Enable` | crates/application/src/install.rs:195-236 | keeps both digests whatever happens, and serves only on success |
| `PipelineServices.FailedUpdateBlocksUpgrades` | crates/application/src/install.rs:1350-1366 | after one upgrade that fails at the record or at the readiness, no later run of other bytes, for this or any other installation, changes what is recorded or served |
| `PipelineServices.FailedUpgradeLocksStateOut` | crates/application/src/install.rs:675-748 | after an upgrade, whatever fails in it, the version served before is refused its state if and only if the schema phase was reached and its migration committed a write |
| `PipelineScenarios.FailedRecord` | crates/application/src/install.rs:1350-1366 | from an empty host: install, an upgrade whose record cannot be written, an upgrade refused though no call fails; a second installation of the old bytes frees it |
| `PipelineScenarios.FailedReadiness` | crates/application/src/install.rs:1353-1366 | the same with the readiness unwritten: the record names bytes that do not serve, upgrading to them is answered as done, other bytes and rollback are refused |
| `PipelineScenarios.BackAndForth` | crates/application/src/upgrade.rs:150-195 | install, upgrade and two rollbacks that both succeed |
| `PipelineScenarios.LockedOut` | crates/application/src/install.rs:675-748 | an upgrade migrates the state, then fails to write its record; the old version serves and is refused its state |

## Left out

- Wasm compilation, linking, instances, deadlines and host imports: foreign calls; their results are oracle answers.
- SQLite, encryption, HTTP and serialization: input and output; a store call is atomic and has no effect when it fails.
- Configuration, secrets, page navigation, lifecycle administration and name checks: short branches that would add only easy members.
- Decimal route parameters: floating-point parsing; the other four parameter types are modelled.
- Parsing template text into literal and parameter segments: templates are already segments, with valid literals and distinct names.
- Page declarations in the conflict check: only the pairwise check of routes is modelled.
- `SchedulerService.SchedulerService.Schedule`: task identifiers do not wrap at 2^64, and the runtime check is made once.
- `SchedulerLedger.FireLedger`: assumes fewer than 2^32 due points per round and a sequence number below 2^64; the count ledger of the table needs only the second.
- `SchedulerDriver.DueTaskIsFired`: the clock does not run backwards or fail, and the installation is not stopped, during the run considered.
- The delivery queue of the scheduler: each delivery attempt succeeds or not by an oracle, which covers every queue and consumer.
- Event topics and payloads: carried along unchanged; an event is its identifier, and the subscriber snapshot is any list in ascending order.
- A subscriber spawned without an asynchronous runtime: its queue is closed at once; the pump always has a runtime.
- `Migration.MigrationIsAtomic`: attempts for one installation do not overlap, and other callers' store operations fall before or after an attempt, not between its stages.
- `MigrationRuns.AttemptsConverge`: a guest that meets a store failure inside its transaction reports an error rather than success.
- `StateService.StateService.Cas`: calls are sequential; the source reads and writes in two store calls.
- Reads and writes inside a guest transaction through the state service: they pass straight to the store operations modelled here.
- Value sizes and unregistered installations in the store: refusals without effect.
- Cancelled state commands: inside a transaction they roll it back, which is what a crash does to the store.
- Version requirements are intervals of release versions: semver requirements are conjunctions of comparators, and component versions have no pre-release part.
- `GraphBuild.TryBuild`: which of several cycles is reported is not fixed, and the versions an incompatible requirement did find are not listed.
- `Composition.CompositionService.CommitActivation`: calls are sequential; the source holds no lock across load, replace and swap.
- The upgrade compatibility analysis and the reading of records from the binary's surface: stages that may refuse before the graph gate and change nothing.
- A pipeline without composition, state or web wiring: all three are present; without one its stages do nothing.
- `Pipeline.Pipeline.Run`: a failed upgrade does not restore grants, graph records, the state store or the record, and the model says so rather than otherwise.
- `PipelineRuns.StuckExactly`: disabling and uninstalling move candidates and records too; histories here are of install, enable, upgrade and rollback.
- Audit logs of the pipeline and the asset cache: appended to, never read back.
