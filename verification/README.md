# Cron engine, delivery and platform store: a verified model

A Dafny model of the parts of the bot that keep shared state: the tables of cron
specs and runs, the loop that delivers what finished runs have to say, the
reconciler that keeps one sleeping loop per scheduled spec, the lease file that
guards a job, the table of session mutexes and its sweeper, the content-addressed
store through which managed files reach the sandbox, the sync of notes back to the
host, and the watcher of the agent's configuration.

`dafny verify dfyconfig.toml` checks everything.

## How it is organised

| file | what it holds |
|---|---|
| `CronTables`, `CronDb` | the two tables; every SQL statement as a function, and a connection that executes them in place and may fail |
| `ScheduleCodec`, `SpecHistory`, `SpecWrites`, `LegacyMigration`, `LockTtl`, `Text` | the schedule columns and what every history of writes keeps of them; what each write comes to for who loads the table; the start-up rewrite of old rows; TTL text |
| `DeliveryProtocol` | runs, specs, executors and the delivery loop as a transition system, one SQL statement a step |
| `DeliverySafety`, `DeliveryAttempts`, `DeliveryTargets`, `DeliveryProgress` | what every history of that system keeps |
| `DeliveryLoop`, `JobExecutor` | the loop and one job execution as objects updated in place, each proved to produce histories of the protocol |
| `JobLocks`, `OneShots`, `Triggers`, `Reconciler` | the lease, how often a one-shot runs under it, manual triggers, and passes of the reconciler |
| `SessionLocks` | per-session mutexes, their reference counts and the sweeper |
| `SandboxFs`, `PlatformLayout`, `DeploySteps`, `PlatformDeploy`, `PlatformGc`, `DirectoryHash` | the sandbox file system with its commands, the manifest, the deploy, the sweep of the store, the directory digest |
| `ReverseSync`, `ConfigWatcher`, `YamlEscape` | the three smaller loops |

Interleavings are transition systems: a state, the events that are enabled in it,
and lemmas by induction over every possible sequence of events. Objects that the
program updates in place are classes whose methods are proved against functions or
relations on values; the lemmas are about those. In `SandboxFs` every command may
fail part-way, and `trace` keeps every state the file system passed through, so a
contract over the trace speaks of a deploy that stops anywhere.

Where a property holds only under a condition, the condition is a named predicate and
is shown to be exact or, clause by clause, needed:

* deduplication keeps a job's newest news exactly if the row its UPDATE keeps is no
  older than what it drops; the program's SELECT and UPDATE are two statements, and a
  run finishing between them can be lost (`SplitDedupCanLoseNews`);
* the lease excludes two bodies of one job only if check and write act as one step, no
  body outlives its TTL, the TTL is positive and the spec is not deleted mid-run; a step
  outside these clauses is exactly one after which a second body can begin
  (`DisciplineIsExact`), each clause has a history that breaks exclusion with all the
  others granted, and the validator accepts `0m`; where runs remove their locks the check is also not too strict;
* a one-shot runs at most once only if no tick comes between the end of its body and the
  deletion of its spec. The program removes the lock first and deletes the spec after the
  output is stored, so under every clause of the discipline it may run twice
  (`TickInTheGapRunsTwice`);
* a trigger call is lost by exactly five kinds of step (`ExactStepIff`); all the others
  are answered or pending;
* the bytes fed for a directory tell its contents apart among directories of the same
  names and sizes, and not in general (`StreamIsNotInjective`);
* a run's target is the spec's current one only if the run is inserted with it. The
  program does not guarantee that: it inserts the target of the spec it loaded, which a
  redirect may have overtaken while the job waited (`StaleSpecMissesRedirect`). What it
  does guarantee is a target the spec had at that load or later;
* a run reaches its chat only if it awaits delivery when the process stops: one stopped in
  its body stays running for good (`RestartLosesRuns`);
* an escaped text reads back exactly if it has no control character but line feed and
  tab; a carriage return is not escaped (`CarriageReturnIsLost`);
* a TTL that validates is applied as spelled exactly if it fits a duration;
* a deploy that stops leaves every addressed file right, but a directory whose upload
  stopped looks complete to the next deploy (`StoppedUploadLooksComplete`);
* a directory kept directly below the store would be emptied by the sweep
  (`TargetIsSafeIff`); the manifest keeps directories one level deeper;
* a file whose deploy stopped before the rename is never swept while its entry is active,
  since its path begins the address (`ScratchIsNeverSwept`);
* the first update path changes the schedule of a row exactly if the row has no run time.

Three comments in the repository say something else than the code does, and the model
follows the code. The trigger is described as cleared after the run completes
(crates/right-agent/src/cron_spec.rs:809); the reconciler clears it before the run
starts. A job execution is said to check the lock again under the upgrade guard
(crates/bot/src/cron.rs:1093-1095); it checks before it waits for that guard. The sweep
is said to keep prefix directories (crates/right-core/src/platform_store.rs:355); it
keeps every path that is a string prefix of an active one, directory or not.

## Model

| member | source | states |
|---|---|---|
| DeliverySafety.NewestNewsIsNeverSuperseded | crates/bot/src/cron_delivery.rs:69-107 | over every history with atomic dedup, each superseded run has a run of its job that finished no earlier and is not superseded; among a job's newest news one is never superseded |
| DeliverySafety.NewsInvAlong | crates/bot/src/cron_delivery.rs:69-107 | that property, with the invariants it rests on, is kept by every step of loop, executors, spec tools and restarts |
| DeliverySafety.SupersedeKeepsNewsIff | crates/bot/src/cron_delivery.rs:98-104 | wherever the UPDATE lands, it keeps all news exactly if each row it hits is outlived by the kept row or by a settled one |
| DeliverySafety.LatestLosesNothing | crates/bot/src/cron_delivery.rs:73-92 | the row ordered last by finish time, NULL first, meets that condition |
| DeliverySafety.SplitDedupCanLoseNews | crates/bot/src/cron_delivery.rs:73-104 | from the first boot, a history in which a run finishes between the SELECT and the UPDATE and is superseded by an older one |
| DeliveryAttempts.DeliveryIsBoundedAndStopsAtSuccess | crates/bot/src/cron_delivery.rs:258-436 | in one process no run is handed to delivery more than 3 times, nor after a success, whatever writes fail |
| DeliveryAttempts.AttemptInvAlong | crates/bot/src/cron_delivery.rs:258-436 | the counters and the in-memory set account for every call made, along every history |
| DeliveryAttempts.SettledStays | crates/bot/src/cron_delivery.rs:54-65 | no step ever clears a delivery time or changes a settled run's job or target |
| DeliveryAttempts.ThreeFailuresGiveUp | crates/bot/src/cron_delivery.rs:410-432 | the third failure settles the run as given up and forgets its counter |
| DeliveryTargets.SnapshotRefinesReread | crates/right-agent/src/cron_spec.rs:588-631 | if runs are inserted with the current target of their job, the target chosen at dedup is the spec's current or last one, over any mix of inserts, redirects, marks, deletions |
| DeliveryTargets.ChosenTargetIsNoOlderThanLoad | crates/bot/src/cron.rs:204-225 | what holds without that: with runs inserted from a spec loaded earlier, the chosen target is one the spec had at that load or later |
| DeliveryTargets.TargetHadSinceLoad | crates/bot/src/cron.rs:204-225 | over every history every row's target is one its spec had at the row's load or later |
| DeliveryTargets.StaleSpecMissesRedirect | crates/bot/src/cron.rs:346-398 | a history in which a spec is loaded, redirected and only then its run inserted: the run is chosen for the old chat |
| DeliveryTargets.SnapshotStepIff | crates/bot/src/cron.rs:204-225 | the exact condition for one step to keep snapshots and specs in agreement: inserts use the job's target, a name is not reused for another target while runs wait |
| DeliveryTargets.SettledRunsAreFrozen | crates/right-agent/src/cron_spec.rs:620-627 | once settled, at any point of any history from the first boot, a run keeps settlement, job and target |
| DeliveryTargets.SpecsFollowTools | crates/right-agent/src/cron_spec.rs:640-668 | over every history a job has a spec exactly if the last creation or deletion of its name was a creation |
| DeliveryTargets.RestartLosesRuns | crates/bot/src/cron.rs:382-398 | a run that awaits no delivery when the process stops never will: over every later history nothing of its row changes but the target, so a run stopped in its body stays running for good |
| DeliveryTargets.CallsGoToAllowedChats | crates/bot/src/cron_delivery.rs:308-375 | over every history each call logged was made to a chat that the allowlist of the classification before it holds |
| DeliveryTargets.ClassifyIffAllowed | crates/bot/src/cron_delivery.rs:217-229 | a chosen run goes on to delivery exactly if it has a chat on the allowlist, is settled without target exactly if it has none, and is denied otherwise |
| DeliveryProgress.TurnReducesWork | crates/bot/src/cron_delivery.rs:266-436 | an undisturbed turn past the idle gate, writes going through, is one settlement and strictly reduces the attempts left summed over waiting jobs |
| DeliveryProgress.EverythingSettlesInTime | crates/bot/src/cron_delivery.rs:266-436 | after any history, with outcome writes going through and no new notification, at most 3 settlements per waiting job happen, whatever others write before, between and during the passes; once that many have, nothing waits |
| DeliveryProgress.PassesSettleInTime | crates/bot/src/cron_delivery.rs:266-436 | if no waiting run is remembered as sent at the start, every pass beyond the dedup is exactly one settlement, so such passes number at most 3 per waiting job and one under way |
| DeliveryProgress.NothingIsSkipped | crates/bot/src/cron_delivery.rs:308-311 | in such a history no run is ever skipped |
| DeliveryProgress.EveryDedupSettles | crates/bot/src/cron_delivery.rs:299-436 | where no run is skipped each pass beyond the dedup ends in exactly one settlement |
| DeliveryProgress.SettlementsArePaidFor | crates/bot/src/cron_delivery.rs:266-436 | the settlements so far plus the work left never exceed the work at the start, event by event |
| DeliveryProgress.EveryPassSettles | crates/bot/src/cron_delivery.rs:308-436 | every pass that classifies a run ends in exactly one settlement |
| DeliveryProgress.IdleLoopCanTurn | crates/bot/src/cron_delivery.rs:275-306 | while something waits an idle loop can take a turn |
| DeliveryProgress.OnlyPersistedNewsIsNoisy | crates/bot/src/cron.rs:761-770 | of all executor steps only persisting a notification adds something to deliver |
| DeliveryProgress.ToolStepsAreQuiet | crates/right-agent/src/cron_spec.rs:473-668 | spec tools never add anything to deliver |
| DeliveryProgress.TurnIsAHistory | crates/bot/src/cron_delivery.rs:266-436 | a turn is a possible history of the statement-by-statement protocol |
| DeliveryProgress.TurnProgressesIff | crates/bot/src/cron_delivery.rs:308-311 | with nothing to supersede, a turn leaves the state as it is exactly if its run is one whose outcome write failed |
| DeliveryProgress.CountsBelowAlong | crates/bot/src/cron_delivery.rs:258-264 | over every history every run has an attempt left, but for one that is just being given up |
| DeliveryLoop.Courier.Step | crates/bot/src/cron_delivery.rs:266-436 | one pass of the loop body, with tools and executors writing between its statements, is a history of the protocol whatever fails; it makes at most one call, to an allowed chat, and settles exactly one run if it got beyond the dedup with a run not sent before, and none otherwise |
| DeliveryLoop.Courier.Deduplicate | crates/bot/src/cron_delivery.rs:69-107 | the SELECT and the UPDATE as two statements with others writing between them |
| DeliveryLoop.Others.Act | crates/bot/src/cron.rs:761-770 | any number of statements of tools and executors is a history that leaves the loop's own state alone |
| DeliveryLoop.Courier.HandleChosen | crates/bot/src/cron_delivery.rs:308-436 | from the deduplicated run on: skipped exactly if it was sent before; else exactly one call, to the run's own target, if its chat is there and allowed, and none otherwise, with the outcome written that belongs to it |
| DeliveryLoop.Courier.DeliverThroughSession | crates/bot/src/cron_delivery.rs:371-434 | one call is logged; a failed one uses up one attempt, the last one leads to giving up |
| DeliveryLoop.Courier.Record | crates/bot/src/cron_delivery.rs:394-397 | a run whose outcome write reports an error is remembered, also if the write took effect; a run given up loses its counter |
| DeliveryLoop.Courier.Run | crates/bot/src/cron_delivery.rs:266-436 | any number of passes, with others writing all the while, is a history that keeps the bound on calls and makes none after a success |
| DeliveryLoop.BootIsBounded | crates/bot/src/cron_delivery.rs:256-264 | whatever history came before, a process that boots starts within the bound |
| CronDb.Connection.FetchPending | crates/bot/src/cron_delivery.rs:24-49 | the oldest awaiting run, or none exactly if nothing awaits |
| CronDb.Connection.SelectLatest | crates/bot/src/cron_delivery.rs:73-96 | the job's latest awaiting run, or none exactly if it has none |
| CronDb.Connection.SupersedeOlder | crates/bot/src/cron_delivery.rs:98-104 | supersedes exactly the job's other awaiting runs, and counts them |
| CronDb.Connection.DeduplicateJob | crates/bot/src/cron_delivery.rs:69-107 | without other writers: returns the job's latest awaiting run and the number of others, all of which become superseded |
| CronDb.Connection.MarkDeliveryOutcome | crates/bot/src/cron_delivery.rs:54-65 | sets outcome and time of one run; an error does not exclude that it did |
| CronDb.Connection.InsertRunningRun | crates/bot/src/cron.rs:204-225 | a new running row with the spec's target, refused for a known id |
| CronDb.Connection.UpdateSpecPartially | crates/right-agent/src/cron_spec.rs:473-637 | the statements built field by field amount to the row function, and move undelivered runs with a changed target, or nothing happens |
| CronDb.Connection.BuildSetList | crates/right-agent/src/cron_spec.rs:525-576 | executing the SET list assignment by assignment gives the patched row |
| CronDb.Connection.CreateSpecRow | crates/right-agent/src/cron_spec.rs:332-381 | an accepted request adds exactly one row under a name that was free, with the prompt, the TTL and the target asked for, the given budget or 5.0 and no trigger |
| CronDb.Connection.Trigger | crates/right-agent/src/cron_spec.rs:795-807 | only an existing row is triggered |
| CronDb.Connection.ClearTrigger | crates/right-agent/src/cron_spec.rs:810-817 | clears the trigger time of that row only, unless the database fails |
| CronDb.Connection.Delete | crates/right-agent/src/cron_spec.rs:640-654 | removes exactly that row and fails for a missing one |
| CronDb.Connection.Load | crates/right-agent/src/cron_spec.rs:723-783 | every row that decodes is loaded, the others are skipped |
| SpecWrites.CreateIsAcceptedIff | crates/right-agent/src/cron_spec.rs:332-348 | exactly which create requests are accepted: valid name that is free, worded prompt, valid TTL, positive budget, one kind of schedule meant |
| SpecWrites.CreatedSpecReads | crates/right-agent/src/cron_spec.rs:350-381 | whoever loads the table after an accepted request reads the kind that was meant, the prompt, TTL and target asked for, the given budget or 5.0 and no trigger |
| SpecWrites.FirstCreateReads | crates/right-agent/src/cron_spec.rs:293-327 | the first create path: what it accepts, and that its row loads as a recurring job without a target |
| SpecWrites.BackgroundReads | crates/right-agent/src/cron_spec.rs:390-430 | a background continuation loads with its session, chat and thread, and its lease is six hours |
| SpecWrites.PatchedSpecReads | crates/right-agent/src/cron_spec.rs:525-586 | whoever loads the table after an accepted partial update reads every field given as given and every other as before |
| SpecWrites.UnnamedJobsAreUntouched | crates/right-agent/src/cron_spec.rs:293-668 | over every history of writes without a migration, a job that no write names keeps its row or stays without one |
| Text.JobNameIff | crates/right-agent/src/cron_spec.rs:171-187 | which names are valid, by the ranges of their characters |
| JobLocks.NoTwoBodiesOfAJob | crates/bot/src/cron.rs:340-361 | from any lock files, no disciplined history runs two bodies of one job together, for all mixes of starts |
| JobLocks.ExecutionsFollowTheirEvents | crates/bot/src/cron.rs:340-361 | over every history an execution is past its check, in its body or gone as its own last event says, and no other moves it |
| JobLocks.LeaseStep | crates/bot/src/cron.rs:85-98 | each disciplined step keeps every body covered by a fresh lock with its own start time |
| JobLocks.LeaseStepIff | crates/bot/src/cron.rs:85-98 | where fresh locks belong to bodies, a step keeps every body covered and alone exactly if it meets every clause of the discipline, at any TTLs |
| JobLocks.DisciplineIsExact | crates/bot/src/cron.rs:340-361 | a step breaks the discipline exactly if it makes two bodies, or leads to where one newcomer's check and write, granted everything, makes them two |
| JobLocks.LostCoverAdmitsTwo | crates/bot/src/cron.rs:340-361 | a body whose lock is not fresh lets any newcomer in, within every clause |
| JobLocks.WriteIsSafeIff | crates/bot/src/cron.rs:340-361 | where every fresh lock belongs to a running body, writing the lock keeps exclusion exactly if the lock file is not fresh |
| JobLocks.LocksBelongStepIff | crates/bot/src/cron.rs:674-675 | the steps that keep every fresh lock a running body's are all but a run's end that fails to remove its lock |
| JobLocks.CheckIsExactAlong | crates/bot/src/cron.rs:340-361 | so the check is exact after every disciplined history in which runs remove their locks |
| JobLocks.LeftLockBlocks | crates/bot/src/cron.rs:85-98 | a lock left behind keeps everyone out though nobody runs |
| JobLocks.SplitCheckAdmitsTwo | crates/bot/src/cron.rs:342-358 | two starters pass the check before either writes, with every other clause of the discipline granted |
| JobLocks.DeleteMidRunAdmitsTwo | crates/right-agent/src/cron_spec.rs:656-665 | deleting a spec while its body runs lets a second one in, with every other clause granted |
| JobLocks.OverrunAdmitsTwo | crates/bot/src/cron.rs:96-97 | a body that outlasts its lease keeps nobody out, with every other clause granted |
| JobLocks.NonPositiveTtlAdmitsTwo | crates/bot/src/cron.rs:96-97 | with a TTL of zero or less exclusion fails although every clause is granted |
| JobLocks.ValidatorAdmitsZeroTtl | crates/right-agent/src/cron_spec.rs:217-229 | such a TTL passes validation |
| JobExecutor.Executor.ExecuteJob | crates/bot/src/cron.rs:327-675 | skipped exactly on a fresh lock; otherwise check, write and removal are its steps in a history of the lease protocol, and its row writes steps in a history of the delivery protocol, with others acting at every wait; a fully written row is as the body's end demands |
| JobExecutor.Executor.ReadLock | crates/bot/src/cron.rs:85-98 | what blocks a start: a heartbeat younger than the TTL, or a TTL too long to read; without a TTL in the row exactly a heartbeat less than 1800 seconds old |
| JobExecutor.OthersKeepOwnRow | crates/right-agent/src/cron_spec.rs:620-627 | while a row has its executor, no other step changes anything of it but its target |
| JobExecutor.Executor.RunLocked | crates/bot/src/cron.rs:392-672 | under the lock the row is inserted and finished, and not at all if it could not be inserted |
| JobExecutor.Executor.FinishRow | crates/bot/src/cron.rs:924-937 | finish time and status by how the body ended; nothing if the log directory could not be made |
| JobExecutor.Executor.PersistRow | crates/bot/src/cron.rs:695-860 | what the run has to tell is stored in its row |
| JobExecutor.CompleteExecutionOutcome | crates/bot/src/cron.rs:533-537 | a fully written row stays running exactly in the log-directory case and is a success exactly if the body succeeded, and has news exactly if a reply asked or a failure could be worded, with that text |
| LockTtl.ValidatedTtlIsApplied | crates/bot/src/cron.rs:63-79 | TTL text accepted at write time is applied as spelled exactly if the length fits a duration, and panics otherwise; it is never replaced by the 30-minute fallback |
| LockTtl.DefaultIsHalfAnHour | crates/bot/src/cron.rs:341 | a row without a TTL, or with text nobody can read, gets a lease of 1800 seconds |
| LockTtl.MinutesAndHours | crates/bot/src/cron.rs:63-79 | for every number, its decimal spelling with `m` is that many times 60 seconds and with `h` that many times 3600, and panics exactly beyond 9223372036854775 seconds either way |
| Text.DecimalReads | crates/bot/src/cron.rs:67-70 | the number reader reads back every number's decimal spelling |
| Text.TrimCutsSpace | crates/bot/src/cron.rs:67-70 | trimming cuts white space at both ends and nothing else |
| LockTtl.ValidatorAdmitsTooLong | crates/right-agent/src/cron_spec.rs:217-229 | every number of 14 to 18 digits, in hours, is accepted and panics |
| LockTtl.ReaderAcceptsPaddedNumbers | crates/right-agent/src/cron_spec.rs:217-229 | the reader accepts more than the validator, exactly the padded numbers |
| ScheduleCodec.StoredKindDecodes | crates/right-agent/src/cron_spec.rs:94-133 | the columns written for any schedule kind decode to that kind and hold nothing beside it |
| ScheduleCodec.ResolvedRequestDecodes | crates/right-agent/src/cron_spec.rs:259-290 | a create request is accepted exactly if it means one kind, and its columns decode to it and hold nothing beside it |
| ScheduleCodec.StoredAsIsInjective | crates/right-agent/src/cron_spec.rs:121-133 | different kinds never share columns |
| SpecHistory.HistoriesDecode | crates/right-agent/src/cron_spec.rs:723-783 | over every history of creates, background inserts, partial updates, triggers, deletes and migrations every row decodes and none is skipped on load; an empty schedule occurs only with a run time |
| SpecHistory.WriteKeepsDecoding | crates/right-agent/src/cron_spec.rs:332-637 | each single write keeps that |
| SpecHistory.PatchDecodes | crates/right-agent/src/cron_spec.rs:525-553 | a partial update changes the decoded kind as asked and only if asked |
| SpecHistory.FirstUpdatePathTakesEffectIff | crates/right-agent/src/cron_spec.rs:435-463 | the first update path's schedule takes effect exactly if the row has no run time |
| LegacyMigration.MigrateLegacyBgContinuation | crates/bot/src/cron.rs:280-318 | rewrites exactly the migratable rows, counts them, and does all or nothing, whether the query, a write or the commit fails |
| LegacyMigration.RewriteRow | crates/bot/src/cron.rs:299-314 | a row is rewritten exactly if prefix, line break and UUID are all there |
| LegacyMigration.MigrationIsIdempotent | crates/bot/src/cron.rs:275-279 | a second pass finds nothing to rewrite |
| LegacyMigration.MigratedRowDecodes | crates/bot/src/cron.rs:309-313 | a rewritten row carries the body and decodes to the header's session exactly if it has no run time |
| LegacyMigration.LegacyRowsMigrateToNewForm | crates/right-agent/src/cron_spec.rs:390-418 | every row of the old convention becomes what the new convention writes |
| Triggers.CallsAreConserved | crates/bot/src/cron.rs:1274-1322 | over every interleaving of loads, clears, edits, trigger calls and restarts each successful call of a job was answered by a start, is pending, or was lost by one counted step |
| Triggers.NothingIsLostIff | crates/bot/src/cron.rs:1274-1322 | starts and what is pending equal the calls exactly if no step was one that loses a call |
| Triggers.StartsNeverExceedCalls | crates/bot/src/cron.rs:1274-1322 | so triggered starts of a job never outnumber its successful calls |
| Triggers.ExactStepIff | crates/bot/src/cron.rs:1276-1290 | the steps that lose a call, exactly: a call on top of a waiting one, a start skipped on a lock, deleting a triggered row not loaded, a failed clear of a row no longer triggered, a restart with a job cleared or loaded and no longer triggered |
| Triggers.CallsBalanceStep | crates/bot/src/cron.rs:1274-1322 | each step moves calls and what is owed together, but for a loss |
| Triggers.HandlingAllIsAHistory | crates/bot/src/cron.rs:1274-1322 | undisturbed, handling the loaded triggers in any order clears and starts exactly those it should |
| Triggers.CallsCanCoalesce | crates/bot/src/cron.rs:1276-1282 | a history that loses one call, which comes between load and clear |
| Triggers.RowsFollowTools | crates/right-agent/src/cron_spec.rs:795-817 | over every history triggering, loading, clearing and starting change nothing of any row but its trigger time: a row is what was last written by a creation or an edit |
| Reconciler.Reconciler.Pass | crates/bot/src/cron.rs:1154-1328 | one pass, with the tools writing to the rows meanwhile: a job starts exactly if the table at the load makes it due (run time come, a kind fired every tick, or a trigger whose clear goes through) and its lock is not fresh; which loops are kept, aborted and spawned; its own trigger statements are the load and then the handling of each loaded trigger, in a history of the trigger protocol |
| Reconciler.Reconciler.ReconcileLoops | crates/bot/src/cron.rs:1220-1272 | aborts exactly the loops of specs removed or changed in anything but the trigger time, and spawns only what is missing, with fresh tasks |
| Reconciler.Reconciler.AbortChanged | crates/bot/src/cron.rs:1220-1231 | aborts exactly the loops whose spec is gone or differs from the loaded one in anything but its trigger time; no task is leaked or shared, and none that was aborted is current |
| Reconciler.Reconciler.FireOneShots | crates/bot/src/cron.rs:1097-1152 | one start for each unlocked job of the batch, none for the others |
| CronTables.SameConfigIff | crates/right-agent/src/cron_spec.rs:152-161 | two specs count as the same exactly if they are equal up to the trigger time |
| OneShots.RunsOnceIff | crates/bot/src/cron.rs:1097-1152 | over every history within the lease discipline, a one-shot's body runs at most once exactly if nobody writes its lock after a body ended |
| OneShots.OnceFromHereIff | crates/bot/src/cron.rs:1078-1092 | when its only body has ended, a second one can still begin exactly if the row is still there or a started execution is ahead of its lock write |
| OneShots.KeptGapRunsOnce | crates/bot/src/cron.rs:674-675 | it runs at most once if no tick falls between a body's end and the row's deletion and no body ends with another execution on its way |
| OneShots.SoundAlong | crates/bot/src/cron.rs:1097-1152 | along every such history the lease covers the running body, and bodies begun are those ended and the one running |
| OneShots.TickInTheGapRunsTwice | crates/bot/src/cron.rs:1110-1143 | the program does not keep that gap: a history within every clause in which the next tick runs the body again |
| OneShots.StragglerRunsTwice | crates/bot/src/cron.rs:340-361 | a history in which an execution already on its way runs the body again after the row is gone |
| OneShots.EveryExecutionCloses | crates/bot/src/cron.rs:1078-1092 | over every history an execution that was started is on its way, under the lock or about to delete its spec, in just one of these, until it has tried to delete it, whether it found the lock fresh, could not write it or ran |
| OneShots.DeletionTakesRowAndLock | crates/right-agent/src/cron_spec.rs:640-665 | the row is there exactly until an execution deletes it, and the lock file goes with it unless its removal fails |
| Reconciler.Reconciler.FireTriggered | crates/bot/src/cron.rs:1274-1322 | starts exactly the loaded triggers whose clear goes through and whose job is not locked, whatever the tools write in between |
| Reconciler.Reconciler.HandleTrigger | crates/bot/src/cron.rs:1276-1290 | one trigger: a clear that fails, or a clear and then a start or a skip |
| Reconciler.LoopsFollowTheTable | crates/bot/src/cron.rs:1233-1272 | after any run of passes the loops are exactly the cron-scheduled specs of the last loaded table, each carrying its spec's every field but the trigger time |
| Reconciler.SecondPassIsQuiet | crates/right-agent/src/cron_spec.rs:152-161 | a repeat on the same table, triggers or not, aborts and spawns nothing |
| Reconciler.UnchangedLoopIsNeverAborted | crates/right-agent/src/cron_spec.rs:146-161 | a loop keeps its task through every pass in which its spec is unchanged but for triggers |
| SessionLocks.AtMostOneHolder | crates/bot/src/lib.rs:825-849 | in every interleaving of acquire, grant, drop and sweep a session has at most one holder |
| SessionLocks.InvStep | crates/bot/src/cron_delivery.rs:463-472 | each step keeps every client's clone the mutex its session's entry still has |
| SessionLocks.DropIsSafeIff | crates/bot/src/lib.rs:842-844 | dropping an entry is safe exactly when its count is one |
| SessionLocks.DroppingAWaitedForEntryAdmitsTwo | crates/bot/src/lib.rs:842-844 | a sweeper that only spared held mutexes would admit two holders |
| SessionLocks.SessionTable.Sweep | crates/bot/src/lib.rs:842-844 | keeps exactly the entries some task still refers to |
| SessionLocks.SessionTable.GetOrInsert | crates/bot/src/telegram/worker.rs:1759-1766 | acquiring is the acquire step, for a new session and a known one |
| SessionLocks.SweepIsExact | crates/bot/src/lib.rs:842-844 | the sweeper drops an entry exactly if no client has a clone of it, and leaves all others alone |
| SessionLocks.ClientsFollowTheirEvents | crates/bot/src/telegram/worker.rs:1759-1766 | over every history a task has nothing, a clone it waits on, or the session, as its own last event says |
| PlatformDeploy.DeployManifest | crates/right-core/src/platform_store.rs:380-439 | at every state on the way each link is as before, absent, or leads to content with the entry's hash; on success all do; a clean sweep leaves only what is needed |
| PlatformDeploy.DeployEntry | crates/right-core/src/platform_store.rs:194-325 | on success the link leads to the address, whose content is right exactly if nothing wrong was there before |
| PlatformDeploy.AtomicSymlink | crates/right-core/src/platform_store.rs:154-188 | at every state the link is as before, absent, new, or a directory being removed; nothing but the temporary link and missing parents is touched besides |
| PlatformDeploy.StoreFile | crates/right-core/src/platform_store.rs:202-232 | a file reaches its address whole or not at all |
| PlatformDeploy.StoreDirectory | crates/right-core/src/platform_store.rs:249-321 | on success the address holds exactly the host's tree, or the directory it held before |
| PlatformDeploy.MakeSubdirectories | crates/right-core/src/platform_store.rs:277-293 | adds only directories below the new address |
| PlatformDeploy.LinkStatesDuring | crates/right-core/src/platform_store.rs:400-427 | while one entry is deployed, every other entry's link and content stay as they are |
| PlatformDeploy.StoppedDeployCanBeFollowed | crates/right-core/src/platform_store.rs:380-439 | from whatever state a deploy stopped in, the next one may start exactly if the directories it needs are absent or complete |
| PlatformDeploy.StoppedUploadLooksComplete | crates/right-core/src/platform_store.rs:252-258 | a directory upload stopped after its mkdir is taken for complete, and is so exactly if the empty tree has the entry's hash |
| PlatformDeploy.GcLeavesEntries | crates/right-core/src/platform_store.rs:429-430 | the sweep after the last entry, complete or not, leaves every link and its content |
| DeploySteps.PlacedResolvesIff | crates/right-core/src/platform_store.rs:206-208 | skipping the upload of an existing address is right exactly if the address was complete |
| DeploySteps.StoreStaysSound | crates/right-core/src/platform_store.rs:223-231 | at every state of a deploy each addressed file holds what its name says, and no link stands at an address |
| DeploySteps.SoundStoreServesNextDeploy | crates/right-core/src/platform_store.rs:206-208 | so a later deploy may skip any file it finds |
| DeploySteps.SlotsAreKept | crates/right-core/src/platform_store.rs:194-325 | whatever an address holds survives the deploy of any entry |
| DeploySteps.OtherLinksAreKept | crates/right-core/src/platform_store.rs:154-188 | a deploy leaves the other entries' links alone |
| DeploySteps.TargetsAreDistinct | crates/right-core/src/platform_store.rs:52-54 | no two entries share an address |
| DeploySteps.UploadedTree | crates/right-core/src/platform_store.rs:295-320 | uploads into a bare directory that all succeed leave exactly the host's tree |
| DeploySteps.TmpIs | crates/right-core/src/platform_store.rs:168-172 | the temporary link stands beside the link under its name with the suffix |
| PlatformLayout.BuildManifest | crates/right-core/src/platform_store.rs:79-152 | fails exactly if a managed file that is there cannot be read; otherwise the manifest holds exactly the managed files that exist, and no two entries are in each other's way |
| PlatformLayout.UnreadableIffNoEntry | crates/right-core/src/platform_store.rs:95-147 | the build fails exactly if some managed file that is there would be left without an entry |
| PlatformLayout.ManagedIsWellPlaced | crates/right-core/src/platform_store.rs:84-147 | the concrete names, links and prefixes meet every condition the deploy and the sweep rely on |
| PlatformLayout.ManagedNamesAreClean | crates/right-core/src/platform_store.rs:84-93 | no managed name extends another up to a dot |
| PlatformLayout.ManagedNamesAre | crates/right-core/src/platform_store.rs:84-93 | which names are managed |
| PlatformGc.GcPlatform | crates/right-core/src/platform_store.rs:330-377 | removes only stale listed paths, at every state; when it reports success every listed path left is needed |
| PlatformGc.StaleMissesActive | crates/right-core/src/platform_store.rs:352-362 | no stale path is an active target, above it or inside it |
| PlatformGc.GcSparesActive | crates/right-core/src/platform_store.rs:365-374 | removing any part of the stale subtrees leaves each active target, its contents and its ancestors |
| PlatformGc.TargetIsSafeIff | crates/right-core/src/platform_store.rs:131-146 | an only target is safe from the sweep exactly if it lies two levels down or has nothing in it |
| PlatformGc.OldVersionIsStale | crates/right-core/src/platform_store.rs:346-363 | every earlier version of a managed entry is stale |
| PlatformGc.ScratchIsNeverSwept | crates/right-core/src/platform_store.rs:352-362 | a file left under its bare name by a deploy that stopped before the rename stays through every sweep with the entry active: its path begins the active one |
| PlatformGc.Find | crates/right-core/src/platform_store.rs:337-339 | lists exactly the paths one or two levels below the store |
| PlatformGc.AddressIs | crates/right-core/src/platform_store.rs:202-203 | the printed address of an entry is the store, the prefix, the name and the hash in that order |
| SandboxFs.Sandbox.UploadAll | crates/right-core/src/platform_store.rs:295-320 | concurrent uploads in any interleaving touch only the tree's files; on success each has its content |
| SandboxFs.Sandbox.RmRf | crates/right-core/src/platform_store.rs:180 | removes from the leaves up; a failure leaves some of it |
| SandboxFs.Sandbox.Mv | crates/right-core/src/platform_store.rs:182-185 | a rename, or a copy then an unlink; never onto a directory |
| DirectoryHash.DirectoryHash | crates/right-core/src/platform_store.rs:23-49 | the hasher is fed the same bytes for every order in which the walk lists the same files |
| DirectoryHash.WalkOrderDoesNotMatter | crates/right-core/src/platform_store.rs:33 | sorting by path gives one sequence for one set of files |
| DirectoryHash.SortedIsUnique | crates/right-core/src/platform_store.rs:33 | two sorted listings of the same files are equal |
| DirectoryHash.StreamTellsContentsApart | crates/right-core/src/platform_store.rs:34-43 | among directories with the same names and sizes the bytes are the same exactly if the contents are |
| DirectoryHash.StreamEqualIff | crates/right-core/src/platform_store.rs:34-43 | for listings that agree entry by entry in the lengths of paths and contents, the bytes fed are the same exactly if all paths and contents are |
| DirectoryHash.MovedFileChangesStream | crates/right-core/src/platform_store.rs:35-39 | a file whose path becomes another of the same length, with its content unchanged, changes the bytes fed |
| DirectoryHash.StreamIsNotInjective | crates/right-core/src/platform_store.rs:39-42 | with other names or sizes they need not be: path and content run together, so two directories feed the same bytes |
| ReverseSync.HostDir.ReverseSyncMd | crates/bot/src/sync.rs:82-181 | for every completion order the final files and the errors are the same function of the downloads |
| ReverseSync.HostDir.HandleCompletions | crates/bot/src/sync.rs:105-150 | no file is deleted before all downloads are in |
| ReverseSync.HostDir.ApplyDeletes | crates/bot/src/sync.rs:154-164 | deletes the deferred files and reports those it could not |
| ReverseSync.SyncOutcome | crates/bot/src/sync.rs:105-170 | nothing changes if every download failed; else each file that came is its download, each that failed is absent, and each that left nothing or could not be read, like the unlisted ones, is untouched; where the host refuses a write or a deletion the file is as before |
| ReverseSync.ErrorsAreWhatIsAmiss | crates/bot/src/sync.rs:105-180 | an error is reported exactly for a file whose copy could not be read or that afterwards is not what its download asks for |
| ReverseSync.SyncIsDetermined | crates/bot/src/sync.rs:82-181 | two syncs of the same downloads leave the same files |
| ConfigWatcher.StepwiseDiffRefinesBootDiff | crates/bot/src/config_watcher.rs:39-70 | comparing with the last acceptable snapshot asks for a restart exactly when comparing with the boot file would |
| ConfigWatcher.Watcher.Watch | crates/bot/src/config_watcher.rs:109-167 | the watcher stops exactly at the first notice that is not harmless beside the boot file; before it the model cell follows the last snapshot |
| YamlEscape.ThreePassesAreOneMap | crates/bot/src/cron_delivery.rs:110-114 | the three replacements equal one map over the characters |
| YamlEscape.EscapedScalarReadsBackIff | crates/bot/src/cron_delivery.rs:109-114 | quoted and escaped, a text ends where the program closed it and reads back as itself exactly if it has no control character but line feed and tab; any other text is unreadable |
| YamlEscape.CarriageReturnIsLost | crates/bot/src/cron_delivery.rs:110-114 | a carriage return, a line break to YAML, passes the escape unchanged and makes the scalar unreadable |
| YamlEscape.QuoteFirstWouldBreak | crates/bot/src/cron_delivery.rs:110-114 | the order of the replacements matters |

## Left out

- Subprocesses, SSH, gRPC, Telegram and Claude: a job body and a delivery call end in any of their outcomes, freely chosen.
- The cron, time, UUID, JSON and YAML readers and SHA-256 are parameters; `Readers`/`Sound`, `Parser`, `Hasher` and `Platform` say what is assumed of them.
- SQLite itself: a statement takes effect whole or not at all. A query that fails on an unexpected NULL is a failing statement.
- DeliveryLoop.Courier.Step: one clock reading serves a whole pass.
- DeliverySafety.NewestNewsIsNeverSuperseded: assumes the dedup SELECT and UPDATE act as one step, which the program's two statements do not guarantee.
- DeliveryTargets.SnapshotRefinesReread: assumes runs are inserted with the spec's current or last target, which the program does not guarantee, and that a name is not reused for another target while runs wait; `SnapshotStepIff` shows both exact and `ChosenTargetIsNoOlderThanLoad` says what holds without the first.
- DeliveryProgress.EverythingSettlesInTime: says nothing once an outcome write has failed or after a restart; the oldest such run is then picked again and again (`TurnProgressesIff`).
- JobLocks.NoTwoBodiesOfAJob: under the named discipline only, which the program does not enforce.
- Reconciler.Reconciler.Pass: which locks are fresh when looked at, and which clears fail, are inputs. Deleting a one-shot spec after its run is in `OneShots`. A TTL too long to read panics the pass.
- OneShots.RunsOnceIff: one job, started by ticks; a manual trigger of a one-shot, which does not delete its spec, the sleeping loop of a cron-scheduled one and a tool that deletes the spec are not among the events. An execution that finds the lock fresh deletes the spec and its lock even so; mid-run that is outside the discipline.
- JobExecutor.Executor.ExecuteJob: the process does not restart during an execution; a restart is an event of `DeliveryProtocol`.
- The sleeping of a job loop until its next fire time, loops that end by themselves, shutdown, and panics of a task other than over a TTL.
- SpecHistory.HistoriesDecode: the first update path is not part of the histories, since it leaves a run time beside a new schedule; `FirstUpdatePathTakesEffectIff` treats it.
- Text.Trim: ASCII white space only. A TTL whose last character takes several bytes is not modelled.
- PlatformDeploy.DeployManifest: assumes that addressed files found in the store are right (every state of every deploy keeps that), that directories at the manifest's addresses are completely uploaded, that no link stands at an address and no directory at a temporary link's path; links among the ancestors of a path, and a plain directory where an upload would land, are not modelled beyond the command failing.
- PlatformDeploy.AtomicSymlink: a plain directory at the link's place is removed file by file, so it can be seen half-removed.
- File permissions (`chmod`), links of entries that dropped out of the manifest, the limit of ten uploads at a time, and host files changing during a deploy.
- PlatformGc.Find: paths whose names hold line breaks or outer white space.
- A file entry without cached content cannot be expressed: the payload carries it.
- ReverseSync.HostDir.ReverseSyncMd: the early return on a panicking download task; a host file that exists but cannot be read counts as different.
- ConfigWatcher.Watcher.Watch: the second writer of the model cell.
- Log clean-up, usage records, attachments, reflection, prompt assembly and the text of notices; of the YAML summary only its scalars.
- `doctor`, `init`, code generation, templates, policy, login, keep-alive and speech-to-text: plumbing with only easy facts.
