# Verification of the run orchestrator and its services

This project models, in Dafny, the parts of the repository whose correctness depends on more than one
statement: the Symphony run orchestrator, the API memory refresh, and the long-lived connections and
counters of the workers. `dafny verify dfyconfig.toml` checks all of it.

A database is explicit state: maps of rows. Where the code leaves a gap between two statements, the model
has a step for each, and theorems quantify over every sequence of steps; a step that is not enabled changes
nothing. The classes of the source are classes here, with the same fields and branches; each method is tied
to a specification function, about which the lemmas speak. Times, random values, connect outcomes and the
behaviour of provisioning steps are parameters. Each SQL statement is one atomic step.

| files | what they model |
|---|---|
| `RunStates`, `RunTable`, `RunProtocol`, `StateMachine`, `Recovery`, `TickCapacity` | run life cycle: transition graph, compare-and-swap under interleaving, watchdog, recovery, claiming loop |
| `ClaimTable`, `ClaimProtocol`, `ClaimManager`, `LockKeys` | work item claims under advisory locks, and their keys |
| `PipelineModel`, `Pipeline`, `EnvFile`, `Paths`, `Versions` | provisioning: crash, resume, rollback; `.env` round trip; path and version checks |
| `ApiMemory`, `ApiRefresh`, `OperationKeys` | onboarding, refresh and keys of API memories |
| `Lifecycle`, `Listener`, `Breaker`, `WebhookBreaker`, `RateLimit` | controllers: reconciling, reconnecting, circuit breakers, polling and reservations |
| `Enrollment`, `EntryRecorder`, `AttachSession`, `Socks`, `Utf8` | terminal worker: enrollment tokens, entry batches, attach queue, SOCKS5 decoder |
| `Strings`, `Sets`, `Wrappers` | string operations, set sizes and Option, shared |

## What the proofs found

Each of these is a lemma with a concrete or fully general witness, next to the exact condition under which
the code does meet the promise.

- A `transition` overtaken by writers that do not count the version (recovery, cancel, retry, approve,
  merge, issue sync) still wins its compare-and-swap; it leaves a terminal state exactly if one of them
  cancelled or recovery found the run terminating. A run revived so puts its orchestrator over the limit, or
  makes the update throw if another run of the same item and attempt has begun.
- Recovery stamps `completed_at` on states that are not terminal, nothing clears it, and the watchdog skips
  stamped runs: a recovered and retried run can hang without a timeout.
- Recovery releases the claims of a dead orchestrator only if that orchestrator had a run to recover.
- A row skipped by `FOR UPDATE SKIP LOCKED` turns "already claimed" into an exception from the unique index,
  exactly if it is still live when the insert comes.
- Half of the range of `uuidToLockKey` is outside the signed 32-bit keys of an advisory lock: a project or host
  whose hash is 2^31 or more, as that of 00000000-0000-4000-8000-000000000000, gets no new claim.
- A step that fails between creating its resource and registering the rollback leaves the resource. Rollback
  keeps the recorded statuses, so a resume after a rolled-back failure succeeds without the resources of the
  steps it skips; a resume after a crash runs the steps after a recorded ssh_connect without a connection.
- The `.env` file the pipeline writes does not always parse back; a carriage return, U+2028 or U+2029 in a
  value hides what follows it from the check, and drops it.
- `validatePath` accepts nothing below the root directory.
- Refresh can be refused by the unique key of a row that it is about to delete; deduplicated operation keys
  can still collide.
- A provider that failed and is set back to active before the next pass is never reconnected.
- Each rejected LISTEN leaves one more client of the listener open, and `stop` ends the last only; a throwing
  onReconnect or an event of a replaced client has that effect too. A throwing onNotification loses the rest of
  its batch.
- A lost probe keeps a half-open breaker blocking for ever, and a late report of an earlier request lets a
  second probe out beside the first; the webhook breaker lets all requests through half open, where its
  comment says one probe.
- With default bounds polling overspends a nearly exhausted budget; reservations after the reset time are
  not counted.
- A token that expires between the read and the increment is still used; a subscriber that throws rejects a
  client whose connection is committed; attempts that are being validated do not count for the rate limit.
- A notification during a tick is dropped and waits for the fallback timer.
- A client that hangs up while its transport is being opened leaks the transport; a SOCKS request split over
  two reads is refused; a SOCKS name can be spelled as an address, and ill-formed names fall together.

## Model

| member | source | states |
|---|---|---|
| RunStates.TerminalIffNoExit | src/symphony/states.ts:49-56 | a state is terminal exactly if the graph has no edge out of it |
| RunStates.RankStep | src/symphony/states.ts:75-269 | every edge lowers a rank, by at least one, except edges into provisioning, awaiting approval or paused, which raise it by at most eight |
| RunStates.HistoryBound | src/symphony/states.ts:75-269 | a history with k entries into those three states has at most 9k + 10 transitions |
| RunStates.HistoryBoundTight | src/symphony/states.ts:75-269 | for every k there is a history that meets the bound |
| RunStates.UnderwayHasAttempt | src/symphony/states.ts:75-269 | a run that is running or later got there by provisioning, prompting, running, and has been underway since |
| RunStates.SuccessShape | src/symphony/states.ts:75-269 | a history that ends succeeded ends merge pending, post-merge verify, issue closing, succeeded; prompting and running follow its last provisioning at once |
| RunStates.EveryStateIsReached | src/symphony/states.ts:75-269 | every one of the 22 states is reached by some history |
| RunStates.EveryRunCanBeEnded | src/symphony/states.ts:75-269 | a run can be cancelled at once from exactly the states that are neither terminal nor failed nor terminating; a failed one after being queued again; a terminating one ends terminated, released or with its cleanup failed |
| RunTable.JudgeMeaning | src/symphony/state-machine.ts:114-199 | the checks of `transition` pass exactly if the run exists, the version is the expected one, the edge exists and the claim epoch matches; it answers "already there" exactly for a repeated terminal state |
| RunTable.TimeoutTargetIsValid | src/symphony/state-machine.ts:486-511 | the timeout target of every state with a timeout is an edge of the graph and has no timeout itself |
| RunTable.TimedOutRunsCanBeRetried | src/symphony/state-machine.ts:486-511 | a timed-out running run is stalled, one awaiting approval paused, a claimed one orphaned, a terminating one finished, any other failed; all but the finished one can be queued again |
| RunTable.MovedRunsGetTheirTime | src/symphony/state-machine.ts:210-217 | a run that was moved is overdue exactly when the limit of its new state has passed since the move |
| RunTable.RecoversAllBut | src/symphony-worker/recovery.ts:26-45 | recovery leaves unclaimed, failed, stalled, orphaned and terminal runs; it fails those not begun, stalls those underway, orphans paused ones and terminates terminating ones |
| RunProtocol.CountingReach | src/symphony/state-machine.ts:108-264 | invariant of every interleaving of checks, guarded updates, tick claims and watchdog moves: statuses form a path from unclaimed, and the version is its length |
| RunProtocol.TransitionsFollowGraph | src/symphony/state-machine.ts:108-264 | in each such interleaving a run's statuses are a path in the graph and its version counts them exactly |
| RunProtocol.OneWinnerPerVersion | src/symphony/state-machine.ts:201-228 | no two changes of one run carry the same version, so one caller at most wins with a given expected version |
| RunProtocol.ChangeColumns | src/symphony/state-machine.ts:205-228 | what every change of the log writes in each column of its run, by kind of writer; the update time is that of the change, and no other run changes |
| RunProtocol.ChangedRunsGetTheirTime | src/symphony/state-machine.ts:205-228 | a changed run is not timed out before its limit has passed since the change, whatever the others do meanwhile |
| RunProtocol.TerminalStays | src/symphony/state-machine.ts:136-158 | a run in a terminal state keeps its row whatever steps follow |
| RunProtocol.CleanChangesFollowGraph | src/symphony-worker/recovery.ts:83-96 | with recovery and the API routes, which set the status without counting the version: a counted change still follows the graph unless such a writer came between its check and its update |
| RunProtocol.OvertakenCommit | src/api/symphony/routes.ts:836-842 | a check that passed, any steps of other callers and bypassing writers, then the commit: it is refused exactly if someone counted the version in between; otherwise it starts from the status those writers left, which is terminal, with no edge to the target, exactly if one cancelled the run or recovery found it terminating; it wins unless it revives the run beside an unfinished one of the same item and attempt, when the unique index makes it throw |
| RunProtocol.IndexHolds | migrations/148_symphony_run_state_machine.up.sql:99-106 | whatever the order of statements, bypassing writers included, no two unfinished runs share work item and attempt |
| RunProtocol.BypassesEndRun | src/api/symphony/routes.ts:836-842 | a list of bypassing writers leaves a terminal state exactly if one cancels, or recovery finds the run terminating, or it was terminal before |
| RunProtocol.StampedRunsEscapeWatchdog | src/symphony-worker/recovery.ts:83-89 | nothing clears completed_at, so no watchdog step ever changes a run that recovery has stamped |
| RunProtocol.RecoveredRunHangs | src/symphony-worker/recovery.ts:83-89 | a run that is recovered, retried and provisioned again sits in a state with a timeout that is never enforced |
| StateMachine.BatchCovers | src/symphony/state-machine.ts:335-356 | a batch limit no smaller than the number of candidates selects every one of them |
| StateMachine.SweepClears | src/symphony/state-machine.ts:328-400 | after such a sweep no unlocked run is overdue; every changed row was overdue, took an edge and counted its version |
| StateMachine.SymphonyStateMachine.Transition | src/symphony/state-machine.ts:108-264 | answers as the checks say and leaves the table alone, or moves exactly one row and records one event; the moved row has the new status and version, is stamped now, started if it was not, completed exactly if the state is terminal, and is otherwise unchanged |
| StateMachine.SymphonyStateMachine.Update | src/symphony/state-machine.ts:201-228 | changes the row if and only if the expected version still holds, column by column as a transition does |
| StateMachine.SymphonyStateMachine.WatchdogSweep | src/symphony/state-machine.ts:328-400 | moves exactly the overdue rows of the batch, each to its timeout target, reports exactly those, and has no move refused |
| StateMachine.SymphonyStateMachine.SweepRows | src/symphony/state-machine.ts:361-386 | the loop: every row of the batch is judged on its own, in batch order |
| StateMachine.SymphonyStateMachine.SweepRow | src/symphony/state-machine.ts:360-396 | one selected row: moved if it has reached its limit, otherwise untouched |
| LockKeys.UuidToLockKey | src/symphony/claim.ts:92-100 | the loop computes the FNV-1a hash as an unsigned number below 2^32; it is a lock key, which Postgres wants signed, exactly if it is below 2^31 |
| LockKeys.SomeIdHasNoLockKey | src/symphony/claim.ts:92-100 | the version 4 UUID 00000000-0000-4000-8000-000000000000 has a hash above 2^31, so no lock key |
| ClaimProtocol.Reach | src/symphony/claim.ts:141-345 | invariant of every interleaving of claim transactions with releases, renewals and expiries |
| ClaimProtocol.MaxEpochIsCount | src/symphony/claim.ts:300-310 | under the invariant the highest epoch of an item is the number of its claims |
| ClaimProtocol.ClaimsAreExclusive | src/symphony/claim.ts:178-345 | an item has at most one live claim, and a later claim of it has a strictly higher epoch |
| ClaimProtocol.EpochsHaveNoGap | src/symphony/claim.ts:300-330 | the epochs of an item are 1, 2, 3, … in the order of its claims |
| ClaimProtocol.SuccessNamesAClaim | src/symphony/claim.ts:141-345 | a transaction that reports a claim names a committed row for its own item |
| ClaimProtocol.AddedClaimIsOwn | src/symphony/claim.ts:308-330 | every claim is added live by a transaction for its own item, orchestrator and idempotency key, with the epoch that counts the item's claims, and is the one it reports |
| ClaimProtocol.NoDeadlock | src/symphony/claim.ts:178-206 | while a transaction is unfinished some transaction can step, also when lock keys collide |
| ClaimProtocol.StepsAreFinite | src/symphony/claim.ts:141-345 | each statement brings its own transaction nearer its end and leaves the others alone |
| ClaimProtocol.LiveUntilStopped | src/symphony/claim.ts:350-397 | over any steps, a claim that was live and is so no more was released under its own id, or expired when its lease was over |
| ClaimProtocol.InsertConflictsIff | src/symphony/claim.ts:208-345 | in every reachable state, an insert meets the unique index and throws if and only if a row that this transaction skipped as locked is still live for its item |
| ClaimProtocol.InsertNeverConflicts | src/symphony/claim.ts:208-225 | in every reachable state, a transaction past the check that skipped no row finds no live row of its item: the locks alone keep live claims apart |
| ClaimProtocol.SkippedRowThrows | src/symphony/claim.ts:208-225 | a locked live row that is skipped turns the answer "already claimed" into an exception, from every state in which the check is due |
| ClaimProtocol.KeysReach | src/symphony/claim.ts:186-206 | in every reachable state a transaction past the locks has a project and a host key below 2^31: with any other key the lock statement throws |
| ClaimProtocol.NoClaimWithoutLockKey | src/symphony/claim.ts:186-206 | in any mix of callers, one whose project or host has no such key never adds a claim; if it is told of one, then of an unexpired one with its own idempotency key that was there before |
| ClaimProtocol.BarredReach | src/symphony/claim.ts:151-206 | in every reachable state such a caller is before its locks, or has thrown, or has repeated a claim with its item and idempotency key |
| ClaimProtocol.ClaimsNeedLockKeys | src/symphony/claim.ts:178-345 | every claim is added by a caller whose project and host have lock keys |
| ClaimManager.SymphonyClaimManager.ClaimWorkItem | src/symphony/claim.ts:141-345 | run alone: repeats an unexpired claim of the same key, fails on a project or host without a lock key, refuses a taken item, then the first full level, else appends a claim with a fresh epoch |
| ClaimManager.SymphonyClaimManager.ReleaseClaim | src/symphony/claim.ts:350-363 | releases the claim if it is live, stamps it, leaves its other columns and every other claim, and keeps both table invariants |
| ClaimManager.SymphonyClaimManager.RenewLease | src/symphony/claim.ts:402-416 | extends the lease of a live claim, never revives another, and changes nothing else |
| ClaimManager.SymphonyClaimManager.ExpireStaleClaims | src/symphony/claim.ts:368-397 | afterwards no selected live claim is past its end; exactly the stale ones are expired and stamped, every other claim is unchanged |
| ClaimManager.AppendKeeps | src/symphony/claim.ts:300-330 | a claim with the next epoch, for an item without a live one, keeps both table invariants |
| Recovery.RecoveryIsComplete | src/symphony-worker/recovery.ts:51-118 | a recovered row is not active, terminal rows and rows of living orchestrators stay as they are |
| Recovery.ClaimsGoneIff | src/symphony-worker/recovery.ts:97-107 | a dead orchestrator's claims are all released exactly if it had none or had at least one run to recover |
| Recovery.Database.RecoverOrphanedRuns | src/symphony-worker/recovery.ts:51-118 | every unfinished run of the orchestrator goes to failed, stalled, orphaned or terminated as its state asks, stamped and otherwise unchanged; every other row is unchanged, and each recovered run is reported exactly once, with its statuses |
| Recovery.Database.SelectOrphans | src/symphony-worker/recovery.ts:58-71 | exactly the runs the orchestrator owns in a state that is not terminal, each once |
| Recovery.Database.ReleaseClaimsOf | src/symphony-worker/recovery.ts:97-107 | releases every live claim of the orchestrator; doing it again changes nothing |
| Recovery.Database.RecoverySweep | src/symphony-worker/recovery.ts:124-153 | does so for exactly the orchestrators whose heartbeat is stale and removes exactly their heartbeats |
| TickCapacity.CapacityKept | src/symphony-worker/run.ts:276-321 | whatever interleaves between count, select and claims, overtaken transitions included, an orchestrator's active runs plus the claims its tick may still make exceed the limit its ticks read by at most the number of its runs revived from a terminal state |
| TickCapacity.RevivalAddsOne | src/symphony/state-machine.ts:201-228 | a write adds an active run exactly if it takes one out of a terminal state, and then one |
| TickCapacity.Overrun | src/symphony-worker/run.ts:276-321 | from any state with a run to cancel and one to claim: cancel, a whole tick at the limit, then the overtaken transition leaves one active run too many |
| TickCapacity.OwnerIsForGood | src/symphony-worker/run.ts:304-316 | nothing clears the owner of a run, so a tick claims a run at most once in its life |
| TickCapacity.OtherWritersKeepOwner | src/symphony-worker/recovery.ts:83-96 | transitions and all bypassing writers keep the owner, as the capacity result asks of them; of these only an overtaken transition can revive a run |
| TickCapacity.SymphonyWorker.Tick | src/symphony-worker/run.ts:266-337 | run alone: claims the oldest waiting runs up to the free slots, its counter is then the number of active runs, and a second tick in flight does nothing |
| TickCapacity.SymphonyWorker.ClaimAll | src/symphony-worker/run.ts:303-321 | every selected run is claimed and counted, no other is touched |
| TickCapacity.SymphonyWorker.ClaimRow | src/symphony-worker/run.ts:305-316 | the guarded UPDATE hits exactly an unclaimed run without owner |
| TickCapacity.SymphonyWorker.ScheduleTick | src/symphony-worker/run.ts:239-241 | schedules exactly if nothing is scheduled, in flight or shutting down |
| TickCapacity.WakeUpsAreHeard | src/symphony-worker/run.ts:237-249 | a wake-up that comes while no tick is in flight is followed by the beginning of a tick |
| TickCapacity.WakeUpDuringTickIsDropped | src/symphony-worker/run.ts:239-249 | one that comes during a tick changes nothing; without a fallback or another wake-up exactly one tick follows if a callback scheduled before runs after the present tick, and otherwise none |
| PipelineModel.TableIsPrefix | src/symphony/provisioning.ts:499-658 | after any crashes, failures, cancellations and resumes the status table is a completed prefix and at most one running or failed step |
| PipelineModel.ResumeNeverReruns | src/symphony/provisioning.ts:542-602 | a resume neither records nor registers a step that the table has as completed |
| PipelineModel.AttemptPrefix | src/symphony/provisioning.ts:609-658 | one attempt stopped after any number of effects leaves such a table |
| PipelineModel.RollbackIsReverse | src/symphony/provisioning.ts:1099-1123 | the rollbacks are the registrations in exact reverse order, each once |
| PipelineModel.SshClosesLast | src/symphony/provisioning.ts:717-733 | the SSH connection is closed after every other rollback |
| PipelineModel.RollbackLeavesOnlyFailures | src/symphony/provisioning.ts:506-537 | as every step registers what it has created before it completes, an unsuccessful attempt leaves exactly the resources whose own rollback failed and that of a step which failed between creating and registering; it leaves nothing exactly if there is neither |
| PipelineModel.LeftBehind | src/symphony/provisioning.ts:717-1090 | for any steps: what is left of the created resources is exactly what was not registered or whose rollback failed |
| PipelineModel.ResumeKeepsWhatIsThere | src/symphony/provisioning.ts:542-602 | a successful resume has a skipped step's resource exactly if it was there before |
| PipelineModel.ResumeAfterRollbackMissesResources | src/symphony/provisioning.ts:1099-1123 | rollback leaves the recorded statuses, so a resume after it succeeds without any resource of the steps it skips |
| PipelineModel.WhatAStepFinds | src/symphony/provisioning.ts:542-658 | an earlier step has run in the process of an attempt, and left its resource there if it registers one, exactly if the attempt did not start after it |
| PipelineModel.ResumeRunsUnconnected | src/symphony/provisioning.ts:548-570 | after any crashes and resumes, a later step runs with an SSH connection of its process exactly if ssh_connect was not recorded completed before the process began |
| Pipeline.ProvisioningPipeline.Execute | src/symphony/provisioning.ts:499-537 | the effects, the table and the step results of a whole attempt, and its rollback results if a step failed |
| Pipeline.ProvisioningPipeline.Resume | src/symphony/provisioning.ts:542-602 | the same from the first step not recorded completed; whatever the end, the steps completed before and those of the attempt are reported in order, with the status the table ends up with |
| Pipeline.ProvisioningPipeline.RunSteps | src/symphony/provisioning.ts:506-530 | the loop: effects, rollback stack and results up to the first cancellation or failure |
| Pipeline.ProvisioningPipeline.RunFrom | src/symphony/provisioning.ts:506-537 | what execute and resume share: the loop, then the rollback exactly if it stopped early, and one result for each step reached |
| PipelineModel.ResumeFrom | src/symphony/provisioning.ts:548-570 | the first step that is not recorded completed |
| Pipeline.ProvisioningPipeline.ExecuteStep | src/symphony/provisioning.ts:609-658 | records running, lets the step register, records the result |
| Pipeline.ProvisioningPipeline.PerformRollback | src/symphony/provisioning.ts:1099-1123 | unwinds the whole stack newest first, going on after errors |
| EnvFile.ParseEnvFile | src/symphony/provisioning.ts:252-296 | equals the line-by-line specification; what it returns has distinct valid keys and values free of `$(`, backtick and `${` |
| EnvFile.AssignmentLine | src/symphony/provisioning.ts:252-296 | a line `key=value`, white space around it aside: the value up to the first line terminator is refused exactly if it holds a backtick, `$(` or `${`, and otherwise put under the key without its quotes |
| EnvFile.SkippedLine | src/symphony/provisioning.ts:258-271 | blank lines, comments and lines without `key=` are skipped |
| EnvFile.LeadingSpaceDoesNotCount | src/symphony/provisioning.ts:259 | white space before a line changes nothing in the parse |
| EnvFile.UnquoteMeans | src/symphony/provisioning.ts:284-290 | one pair of single or double quotes around a value is removed, whatever is between them; other values are kept |
| EnvFile.PrintThenParse | src/symphony/provisioning.ts:818-825 | parsing printed text gives each value trimmed at its end and stripped of one layer of quotes |
| EnvFile.RereadIffStable | src/symphony/provisioning.ts:280-290 | that is the same value exactly if it neither ends in white space nor is quoted |
| EnvFile.RoundTrip | src/symphony/provisioning.ts:252-296 | the written file parses to the same ordered map if and only if every value is stable |
| EnvFile.NestedQuotesDoNotSurvive | src/symphony/provisioning.ts:280-290 | a value in two layers of quotes loses one on each pass |
| EnvFile.LinesKeepWellFormed | src/symphony/provisioning.ts:252-296 | every successful parse is well formed |
| EnvFile.LineIsCut | src/symphony/provisioning.ts:252-296 | of a line with a key only the value up to the first carriage return, U+2028 or U+2029 is checked and kept |
| EnvFile.TerminatorHidesRest | src/symphony/provisioning.ts:262-293 | a line is accepted exactly if no shell code stands before the first such character, and its whole value is kept exactly if there is none |
| EnvFile.HiddenTail | src/symphony/provisioning.ts:262-293 | whatever follows a carriage return in a value, shell code included, is neither refused nor kept |
| Paths.NormalizeKeepsMeaning | src/symphony/provisioning.ts:358-363 | normalising keeps the segments, makes an empty relative path the root, and is idempotent |
| Paths.PrefixOfSegments | src/symphony/provisioning.ts:341-350 | a string prefix up to a slash is a prefix of segments |
| Paths.AcceptsExactly | src/symphony/provisioning.ts:325-352 | a path is accepted exactly if it has no `..` and is its parent or below it in the tree; below the root itself nothing is accepted |
| Versions.CompareVersions | src/symphony/provisioning.ts:1133-1155 | the result is decided by the first place where the two versions differ, missing places being zero |
| Versions.PrintedIsRead | src/symphony/provisioning.ts:1133-1155 | a version printed from numbers is read as those numbers, so 1.10.0 is above 1.9.0 |
| Versions.LessIsTransitive | src/symphony/provisioning.ts:1133-1155 | the order is transitive and compatible with equality |
| Versions.Trichotomy | src/symphony/provisioning.ts:1133-1155 | exactly one of less, same and greater holds |
| Versions.TrailingZeroDoesNotCount | src/symphony/provisioning.ts:1133-1155 | a version with `.0` appended is the same version |
| ApiMemory.ApiMemoryStore.Insert | migrations/122_api_memory.up.sql:6-27 | an insert is refused exactly if the source has the key already, whatever its kind |
| ApiMemory.ApiMemoryStore.InsertAll | src/api/api-sources/onboard.ts:275-295 | a list is inserted if and only if its keys are distinct and free; then exactly its rows are added |
| ApiMemory.ApiMemoryStore.Onboard | src/api/api-sources/onboard.ts:216-295 | succeeds exactly if the keys of operations, tags and overview are all distinct; then the source has one row for each of them, with every column taken from the specification and its text, and no other row; otherwise rolls back |
| ApiRefresh.ExistingOperations | src/api/api-sources/refresh.ts:118-124 | the map holds the row of each current operation |
| ApiRefresh.NewOperations | src/api/api-sources/refresh.ts:126-150 | the map holds for each key the memory of the last operation that has it, in order of first occurrence |
| ApiRefresh.Upsert | src/api/api-sources/refresh.ts:152-181 | gets through exactly if no new key is that of a row that is not an operation; updates and inserts add up to the new keys |
| ApiRefresh.UpsertOne | src/api/api-sources/refresh.ts:155-181 | one key: its row is updated in place, or a row is inserted unless the key is taken |
| ApiRefresh.UpdateRow | src/api/api-sources/refresh.ts:159-166 | the UPDATE makes the row equal to the new memory although it sets five columns only |
| ApiRefresh.DeleteStale | src/api/api-sources/refresh.ts:184-190 | deletes exactly the operations that are no longer in the specification |
| ApiRefresh.Regenerate | src/api/api-sources/refresh.ts:192-235 | replaces tag groups and overview, or is refused exactly when one of their keys is that of an operation |
| ApiRefresh.ReplaceGroups | src/api/api-sources/refresh.ts:192-213 | old tag groups out, new ones in; refused exactly on a repeated key or one of an operation |
| ApiRefresh.ReplaceOverview | src/api/api-sources/refresh.ts:215-235 | old overview out, new one in; refused exactly if an operation has its key |
| ApiRefresh.Refresh | src/api/api-sources/refresh.ts:104-235 | gets through exactly under RefreshFits; then the source has a row for the last operation of each key, each tag group and the overview, every column from the specification, and no other row; surviving operations keep their row ids; created + updated are the new keys, updated + deleted the old ones; other sources are untouched |
| ApiRefresh.RefreshAgreesWithOnboarding | src/api/api-sources/refresh.ts:118-235 | when onboarding would succeed, a refresh that gets through leaves exactly what onboarding would, and it gets through unless a new key is that of a present tag group or overview |
| ApiRefresh.RefreshCanRefuse | src/api/api-sources/refresh.ts:168-181 | a specification that onboarding accepts and refresh refuses |
| ApiRefresh.PlainKeysFit | src/api/api-sources/refresh.ts:118-235 | keys that do not look like those of tag groups or the overview are never refused |
| OperationKeys.RenamingKeepsKey | src/api/api-sources/operation-key.ts:9-28 | renaming a path parameter does not change the key, wherever it stands |
| OperationKeys.KeyTellsApart | src/api/api-sources/operation-key.ts:16-28 | an operation id is the key; without one, keys are equal exactly if the upper-cased methods and the normalised paths are |
| OperationKeys.NormalizeMeans | src/api/api-sources/operation-key.ts:9-27 | text without a brace stays, and each `{name}` becomes `{}` |
| OperationKeys.NormalizeIdempotent | src/api/api-sources/operation-key.ts:27 | normalising a path twice is normalising it once |
| OperationKeys.PathKeysAreApart | src/api/api-sources/operation-key.ts:26-36 | a key made from method and path is never the key of a tag group or of the overview |
| OperationKeys.DeduplicateKeys | src/api/api-sources/operation-key.ts:42-57 | the first occurrence of a key keeps it and the n-th gets `_n`; the result is free of duplicates if and only if no input key is `key_n` for a key that occurs at least n times |
| OperationKeys.NumberedInjective | src/api/api-sources/operation-key.ts:51 | `key_n` determines both key and n |
| OperationKeys.DistinctIffNoClash | src/api/api-sources/operation-key.ts:42-57 | both directions of that equivalence |
| Strings.SplitJoin | src/symphony/provisioning.ts:358-363 | splitting undoes joining if no part holds the separator |
| Strings.DigitsInjective | src/api/api-sources/operation-key.ts:51 | printing a number is injective, in decimal and in hexadecimal |
| Strings.DigitsAreNumber | src/api/api-sources/operation-key.ts:51 | what is printed, read back digit by digit, is the number |
| Lifecycle.NextLowersRank | src/ha-connector/lifecycle.ts:123-150 | a pass over a provider lowers its rank, or changes nothing if the rank is zero |
| Lifecycle.Converges | src/ha-connector/lifecycle.ts:123-150 | from any state and for any connect outcomes at most three passes change anything, and after three none does |
| Lifecycle.ThreePassesNeeded | src/ha-connector/lifecycle.ts:184-216 | three are needed for an inactive provider that connects and then fails to reconnect |
| Lifecycle.FixedPointIsRight | src/ha-connector/lifecycle.ts:123-150 | from an empty manager a fixed point holds exactly the active providers, each connected with its present configuration and credentials; all others are in error or deleted |
| Lifecycle.EditsAreNoticed | src/ha-connector/lifecycle.ts:139-148 | after an edit from outside three passes connect a provider with its new configuration and credentials, except exactly when the edit gives it the settings held while unconnected or not active |
| Lifecycle.FingerprintTells | src/ha-connector/lifecycle.ts:44-51 | fingerprints are equal exactly if configuration, credentials (absent read as empty) and status are |
| Lifecycle.ResetGoesUnnoticed | src/ha-connector/lifecycle.ts:44-51 | setting a failed provider back to active before the next pass leaves it unconnected for good |
| Lifecycle.ProviderLifecycleManager.Start | src/ha-connector/lifecycle.ts:92-96 | connects every fetched provider; each open connection belongs to one entry |
| Lifecycle.ProviderLifecycleManager.Reconcile | src/ha-connector/lifecycle.ts:123-150 | takes every provider one step of the specification; a held provider keeps its connection if configuration, credentials and status are those it was added with, whatever else changed, and otherwise is held with the new row and a new connection or none; a connection is leaked exactly if it was given up and its disconnect threw |
| Lifecycle.ProviderLifecycleManager.RemoveGone | src/ha-connector/lifecycle.ts:128-133 | takes exactly the managed providers that were not fetched through the pass |
| Lifecycle.ProviderLifecycleManager.AddOrReconnect | src/ha-connector/lifecycle.ts:135-149 | takes exactly the fetched providers through the pass |
| Lifecycle.ProviderLifecycleManager.AddProvider | src/ha-connector/lifecycle.ts:184-200 | connection, status and fingerprint after each outcome, also when only the notification fails |
| Lifecycle.ProviderLifecycleManager.RemoveProvider | src/ha-connector/lifecycle.ts:202-216 | removes the entry and closes its connection unless the disconnect throws |
| Lifecycle.ProviderLifecycleManager.Shutdown | src/ha-connector/lifecycle.ts:101-117 | closes everything except connections whose disconnect throws |
| Listener.NeverStuck | src/worker/listener.ts:77-149 | between start and stop, under any order of events: connected, or the first connect in flight, or exactly one reconnect chain under way; pending notifications have a timer |
| Listener.CanReconnect | src/worker/listener.ts:120-149 | from each such state at most four callbacks lead back to connected |
| Listener.StoppedStaysQuiet | src/worker/listener.ts:47-65 | after stop no client is created and no timer armed |
| Listener.DeliveryInOrder | src/worker/listener.ts:151-166 | delivered, lost and pending notifications add up to those received; without a throwing callback none is lost and delivered followed by pending is the received sequence |
| Listener.OneConnection | src/worker/listener.ts:77-145 | under any order of events, more than one client is ever open if and only if the reconnect timer fires while a client is open that was overlooked: by a rejected LISTEN, a throwing onReconnect, or the error, end or rejection of another client |
| Listener.PromptRuns | src/worker/listener.ts:77-118 | if no LISTEN is rejected on an open connection, no callback throws and no event comes from a replaced client, at most one client is ever open and stop closes it |
| Listener.RejectedListensPileUp | src/worker/listener.ts:96-107 | after k rejected LISTENs k clients are open, and stop closes one of them |
| Listener.StopMisses | src/worker/listener.ts:47-65 | stop leaves open exactly the clients that the listener let go of while they were open and that have not ended since |
| Listener.StopCloses | src/worker/listener.ts:47-65 | stop closes every open client exactly if the listener holds the only one |
| Listener.LateEventStrands | src/worker/listener.ts:81-90 | an error or end of a replaced client makes the listener let go of the present one, which then stays open whatever happens |
| Listener.NotifyListener.Start | src/worker/listener.ts:41-44 | begins the first connect; every handler below refines its event of the protocol that NeverStuck is about |
| Listener.NotifyListener.OnConnectOk | src/worker/listener.ts:95-102 | a connect whose LISTENs went through connects the listener |
| Listener.NotifyListener.OnConnectRejected | src/worker/listener.ts:103-107 | a rejected connect schedules a reconnect, unless one is under way |
| Listener.NotifyListener.OnListenRejected | src/worker/listener.ts:98-108 | so does a rejected LISTEN, and it leaves its client open |
| Listener.NotifyListener.OnTimer | src/worker/listener.ts:126-129 | the reconnect timer starts a connect, or ends the chain after stop |
| Listener.NotifyListener.OnSettled | src/worker/listener.ts:130-147 | the chain ends after a reconnect and a new one starts if it failed or if onReconnect threw |
| Listener.NotifyListener.OnError | src/worker/listener.ts:81-84 | an error disconnects, whichever client it comes from |
| Listener.NotifyListener.OnEnd | src/worker/listener.ts:86-90 | so does an end, unless stopping |
| Listener.NotifyListener.DebouncedNotify | src/worker/listener.ts:154-159 | queues a notification and rearms the timer |
| Listener.NotifyListener.Stop | src/worker/listener.ts:47-65 | ends the client the listener holds and clears its flags |
| Listener.NotifyListener.OnDebounce | src/worker/listener.ts:154-166 | delivers the batch in order up to a throwing callback |
| Listener.NotifyListener.CallBack | src/worker/listener.ts:162-164 | each of the batch is handed over once, in order; a throw loses that one and the rest |
| Breaker.History | src/symphony-worker/retry.ts:315-453 | the state in terms of the history: closed with the failures in a row below the threshold; half open with at most one request out since the last report; no success counted outside half open |
| Breaker.OpensOnStreak | src/symphony-worker/retry.ts:426-447 | a closed circuit opens exactly when the failures in a row reach the threshold |
| Breaker.OneProbe | src/symphony-worker/retry.ts:364-390 | half open, at most one request is let through between two reports, and none before a report has come |
| Breaker.LostProbeBlocks | src/symphony-worker/retry.ts:380-384 | a probe that never reports blocks the circuit however often it is asked |
| Breaker.ClosesOnSuccesses | src/symphony-worker/retry.ts:396-420 | it closes exactly at the required number of successes since it was last open, with no failure among them |
| Breaker.OpenUntilAsked | src/symphony-worker/retry.ts:369-379 | an open circuit changes only when asked after the recovery time |
| Breaker.OneProbeUnlessStray | src/symphony-worker/retry.ts:380-420 | over any history, two probes let through since the circuit was open are ever out at once if and only if, half open, somebody asks after a report of another request has come since the last probe was let through and none of that probe |
| Breaker.OneProbeWithoutStragglers | src/symphony-worker/retry.ts:380-384 | if every report that comes half open is of a probe that is out, there is never more than one |
| Breaker.StraySuccessFreesProbe | src/symphony-worker/retry.ts:399-402 | a success of a request let through before the opening lets a second probe out while the first is unreported |
| Breaker.SlowRequest | src/symphony-worker/retry.ts:364-447 | every configuration has histories in which the circuit is open while such a request is still out |
| Breaker.CircuitBreaker.IsAllowed | src/symphony-worker/retry.ts:364-390 | refines the step that the history lemmas are about: lets a request through when closed, when the recovery time is over, or when no probe is out |
| Breaker.CircuitBreaker.RecordSuccess | src/symphony-worker/retry.ts:396-420 | refines the success step: counts it for the probe, closes at the threshold, or clears the failures |
| Breaker.CircuitBreaker.RecordFailure | src/symphony-worker/retry.ts:426-447 | refines the failure step: opens at the threshold or at once from half open |
| WebhookBreaker.DestinationsAreIndependent | src/worker/circuit-breaker.ts:45-123 | a destination's state is that of its own events alone, however they interleave |
| WebhookBreaker.History | src/worker/circuit-breaker.ts:71-123 | failures are the streak since the last success, the circuit is closed exactly below the threshold, half open exactly if someone has asked after the cooldown since the last report, and opens until the cooldown after the failure that opened it |
| WebhookBreaker.BlockedWhen | src/worker/circuit-breaker.ts:71-89 | a request is blocked exactly if the streak has reached the threshold, the cooldown after the last opening is not over, and nobody has asked after it was since the last report |
| WebhookBreaker.HalfOpenBlocksNobody | src/worker/circuit-breaker.ts:86-88 | half open lets every request through until the next report, not one probe |
| WebhookBreaker.HalfOpenReport | src/worker/circuit-breaker.ts:94-123 | one failure in half open blocks for a whole cooldown, one success closes |
| WebhookBreaker.CircuitBreaker.IsOpen | src/worker/circuit-breaker.ts:71-89 | blocked exactly while open and before the end of the cooldown; after it the destination goes half open |
| WebhookBreaker.CircuitBreaker.RecordFailure | src/worker/circuit-breaker.ts:112-123 | refines the failure step of that destination and leaves all others alone |
| WebhookBreaker.CircuitBreaker.RecordSuccess | src/worker/circuit-breaker.ts:94-107 | resets that destination and leaves all others alone |
| RateLimit.IntervalBounds | src/symphony-worker/rate-limit.ts:240-268 | with calls available the interval is within its bounds; without, it does not pass the reset |
| RateLimit.IntervalMeans | src/symphony-worker/rate-limit.ts:240-268 | half a minute without data; without calls the time to the reset or the upper bound, whichever is nearer; otherwise the calls spread evenly over that time, within the bounds |
| RateLimit.PollsFit | src/symphony-worker/rate-limit.ts:240-268 | polling at the interval stays within the available calls if and only if a condition on window, calls and bounds holds |
| RateLimit.SquareRule | src/symphony-worker/rate-limit.ts:240-268 | it holds when the window is at most the square of the lower bound and the upper bound does not bite |
| RateLimit.DefaultsOverspendWhen | src/symphony-worker/rate-limit.ts:240-268 | with the defaults and a window of an hour polling overspends exactly when five minutes fit into the window more often than calls are available |
| RateLimit.ReservationsFit | src/symphony-worker/rate-limit.ts:149-192 | under any interleaving of stale checks, decrements and responses, what was reserved since the last response is exactly what is missing, and never eats into the common reserve |
| RateLimit.AloneIsGranted | src/symphony-worker/rate-limit.ts:149-192 | a check and decrement with nothing in between grant exactly if there is no current row or it holds the calls and the reserve |
| RateLimit.NothingCountedAfterReset | src/symphony-worker/rate-limit.ts:163-170 | after the reset time every reservation is granted and none is counted |
| RateLimit.RateLimitTable.ReserveBudget | src/symphony-worker/rate-limit.ts:149-192 | run alone: when it grants, and the row it leaves |
| RateLimit.RateLimitTable.DecrementRow | src/symphony-worker/rate-limit.ts:174-185 | decrements if and only if the row still holds the calls and the reserve |
| RateLimit.RateLimitTable.RecordApiCall | src/symphony-worker/rate-limit.ts:203-224 | replaces the row by the headers |
| Enrollment.UsesAreConnections | src/tmux-worker/enrollment-ssh-server.ts:234-290 | under any interleaving of enrollments validated against stale reads no token is used beyond its maximum, each use is one committed connection, and each enrollment that got past its commit has exactly one |
| Enrollment.RejectedButEnrolled | src/tmux-worker/enrollment-ssh-server.ts:290-328 | an enrollment that is rejected has a connection all the same exactly if telling the subscribers threw after the commit |
| Enrollment.NobodyWaitsForever | src/tmux-worker/enrollment-ssh-server.ts:246-290 | an enrollment that waits waits for a transaction that can go on, so all of them end |
| Enrollment.AloneIsAccepted | src/tmux-worker/enrollment-ssh-server.ts:211-323 | with nothing in between an enrollment is accepted exactly if its token is there, alive and not used up, and nothing fails |
| Enrollment.LateUseIff | src/tmux-worker/enrollment-ssh-server.ts:211-268 | a committed use comes after the expiry of its token exactly if the token expired between the read and the increment |
| Enrollment.LateUse | src/tmux-worker/enrollment-ssh-server.ts:246-268 | and does so for every acceptable token and every later increment |
| Enrollment.LimitedByRun | src/tmux-worker/enrollment-ssh-server.ts:85-112 | an address is limited exactly if its latest run of failures has five and the last is at most a window ago; dropping entries is invisible |
| Enrollment.ChecksAreNotCounted | src/tmux-worker/enrollment-ssh-server.ts:211-232 | attempts still being validated do not count: however many were checked since, an address is limited exactly by the failures recorded |
| Enrollment.EnrollmentServer.Authenticate | src/tmux-worker/enrollment-ssh-server.ts:211-328 | when the handler accepts, and what it leaves in tokens, connections and failed attempts; an acceptable token clears the address's failures also when the transaction fails, and a notification that throws rejects a client whose connection is committed |
| Enrollment.EnrollmentServer.IsRateLimited | src/tmux-worker/enrollment-ssh-server.ts:85-96 | limited exactly with five failures counted and the last within the window; other addresses are untouched |
| Enrollment.EnrollmentServer.ClearRateLimit | src/tmux-worker/enrollment-ssh-server.ts:110-112 | forgets the address and no other |
| Enrollment.EnrollmentServer.RecordFailedAttempt | src/tmux-worker/enrollment-ssh-server.ts:99-107 | counts within the window, otherwise starts again |
| Enrollment.EnrollmentServer.Register | src/tmux-worker/enrollment-ssh-server.ts:246-290 | increment and insert happen both or neither |
| EntryRecorder.BuildInsert | src/tmux-worker/entry-recorder.ts:186-208 | row k uses placeholders 7k+1 to 7k+7 and its parameters are that entry's columns |
| EntryRecorder.AlignedInserts | src/tmux-worker/entry-recorder.ts:186-213 | binding the placeholders gives each entry's id, session, pane, namespace, kind, content and metadata in that order, absent ones null |
| EntryRecorder.NoParameterShared | src/tmux-worker/entry-recorder.ts:186-208 | every parameter belongs to exactly one placeholder of one row |
| EntryRecorder.EveryEntryOnce | src/tmux-worker/entry-recorder.ts:115-215 | every entry goes into exactly one insert, in recording order, or is still buffered; a failing insert loses its batch |
| EntryRecorder.RecordLeavesRoom | src/tmux-worker/entry-recorder.ts:115-128 | `record` leaves fewer than the maximum; a throttle summary is the only way past it |
| EntryRecorder.StateIsWindow | src/tmux-worker/entry-recorder.ts:232-258 | the state kept for a session is that of the window that its chunks make; it is throttled exactly if the window exceeds the allowance |
| EntryRecorder.TotalIsThrottled | src/tmux-worker/entry-recorder.ts:232-258 | the total kept is the bytes of the chunks at which the session was throttled |
| EntryRecorder.WindowIsRecent | src/tmux-worker/entry-recorder.ts:232-258 | the window is a run of the latest chunks, none later than the duration after its first |
| EntryRecorder.FreedOnlyByChunk | src/tmux-worker/entry-recorder.ts:232-258 | the next chunk leaves a throttled session throttled exactly if it comes within the duration or itself exceeds the allowance |
| EntryRecorder.SlowSessionsAreFree | src/tmux-worker/entry-recorder.ts:232-258 | a session within the allowance over every such stretch is not throttled |
| EntryRecorder.EntryRecorder.Flush | src/tmux-worker/entry-recorder.ts:180-215 | sends the whole buffer as one aligned statement and empties it |
| EntryRecorder.EntryRecorder.Record | src/tmux-worker/entry-recorder.ts:115-128 | buffers the entry, adds output to what its session has sent, and flushes a full buffer |
| EntryRecorder.EntryRecorder.UpdateThrottleState | src/tmux-worker/entry-recorder.ts:232-258 | adds the chunk to what the session has sent, keeps the state a function of that, and leaves other sessions alone |
| EntryRecorder.EntryRecorder.RecordThrottleSummary | src/tmux-worker/entry-recorder.ts:155-175 | appends a scrollback entry without looking at the buffer size |
| EntryRecorder.EntryRecorder.IsSessionThrottled | src/tmux-worker/entry-recorder.ts:134-137 | throttled exactly if what the session sent in its present window exceeds the allowance; the time of asking does not matter |
| EntryRecorder.EntryRecorder.ResetThrottle | src/tmux-worker/entry-recorder.ts:223-225 | forgets what the session has sent and no other session |
| AttachSession.InputsInOrder | src/tmux-worker/terminal-io.ts:509-661 | until the call ends the transport gets exactly the first hundred messages of the set-up and then all later ones, in order; at most one transport is opened |
| AttachSession.LastResizeWins | src/tmux-worker/terminal-io.ts:549-558 | once attached the terminal has the size of the last valid resize that was not dropped, or the stored one |
| AttachSession.ResizedByMeans | src/tmux-worker/terminal-io.ts:551-558 | that is the last resize with both sides positive and at most 1000 by 500, or the size before if there is none |
| AttachSession.LeakedIff | src/tmux-worker/terminal-io.ts:374-388 | a transport is leaked exactly if it was opened after the end of the call; otherwise it is closed once |
| AttachSession.HangupWhileOpening | src/tmux-worker/terminal-io.ts:580-636 | a hang-up during the last awaits always leaks it |
| AttachSession.ReplayHandlesAll | src/tmux-worker/terminal-io.ts:653-657 | replaying hands over the whole queue in order |
| AttachSession.AttachHandler.Data | src/tmux-worker/terminal-io.ts:509-526 | queues, handles or rejects a message |
| AttachSession.AttachHandler.AfterSizeRead | src/tmux-worker/terminal-io.ts:536-570 | the size chosen from the stored one and the queued resizes |
| AttachSession.AttachHandler.AfterOpen | src/tmux-worker/terminal-io.ts:588-657 | attaches the transport and replays the queue |
| AttachSession.AttachHandler.HandleMessage | src/tmux-worker/terminal-io.ts:408-447 | a message reaches the transport exactly while there is one and the call has not ended |
| AttachSession.AttachHandler.AfterResolve | src/tmux-worker/terminal-io.ts:531-534 | goes on only if the session was found and the call has not ended |
| AttachSession.AttachHandler.AfterConnectionRead | src/tmux-worker/terminal-io.ts:572-577 | local sessions open a PTY, the others first get an SSH connection |
| AttachSession.AttachHandler.AfterConnect | src/tmux-worker/terminal-io.ts:598-605 | an unavailable SSH connection fails the call |
| AttachSession.AttachHandler.TransportExit | src/tmux-worker/terminal-io.ts:482-506 | the exit of the transport ends the call, once |
| AttachSession.AttachHandler.CleanUp | src/tmux-worker/terminal-io.ts:374-388 | closes the transport it holds, once, and nothing on a second call |
| Socks.RequestIsDecoded | src/tmux-worker/tunnel-handlers.ts:168-229 | every well-formed CONNECT request is decoded to its target and port |
| Socks.HostIsWritten | src/tmux-worker/tunnel-handlers.ts:187-222 | addresses are written as four decimal numbers with dots or eight hexadecimal ones with colons, in byte order |
| Socks.ConnectIsRequested | src/tmux-worker/tunnel-handlers.ts:168-229 | only well-formed requests lead to a connection |
| Socks.PieceIsRefused | src/tmux-worker/tunnel-handlers.ts:168-215 | a request that arrives in two pieces is refused with a general failure |
| Socks.ReplyNamesFault | src/tmux-worker/tunnel-handlers.ts:171-226 | which fault each reply code names |
| Socks.TargetsStayApart | src/tmux-worker/tunnel-handlers.ts:187-222 | two requests lead to the same host text if and only if they ask for the same target, or one gives a name spelled as the other's address, or both give names whose text is the same and holds a replacement character |
| Socks.AddressesCanBeSpelled | src/tmux-worker/tunnel-handlers.ts:187-222 | every IPv4 and IPv6 address has a name spelled like it that fits a request |
| Socks.IllFormedNamesCollapse | src/tmux-worker/tunnel-handlers.ts:203-210 | two different names, ill-formed as UTF-8, with the same host text |
| Utf8.EncodeThenDecode | src/tmux-worker/tunnel-handlers.ts:208 | decoding gives back every text that was encoded |
| Utf8.DecodeThenEncode | src/tmux-worker/tunnel-handlers.ts:208 | bytes whose text holds no replacement character are the encoding of that text |

## Left out

- HTTP, gRPC, SSH, PTY and browser plumbing, metrics, logging, error texts and event payloads: calls to the outside with no state of their own.
- Postgres below the statement: query plans, isolation levels, full-text and vector search; embeddings are the flag that says one is pending.
- LockKeys.UuidToLockKey: ids are taken to be ASCII, so that a character is one UTF-16 unit; the claim protocol is proved for all keys, colliding ones included.
- The remote commands of the provisioning steps: a step completes or fails and may register one rollback action.
- A status recorder that throws inside the pipeline: it escapes without rollback, and the rollback results assume that it does not.
- Claim candidates, retry delays, budgets, failure classification, redaction and sanitising: tables and single formulas.
- ClaimManager.SymphonyClaimManager.ClaimWorkItem: the counts behind the concurrency limits are parameters, because they count runs and not claims, so the limits do not bound the number of claims.
- Restarting a stopped listener, overlapping reconciles, failing status writes and connecting several providers at once: start is called once on an empty manager, passes run one after the other, and connecting touches one provider's own row and entry only.
- TickCapacity.CapacityKept: the limit is the one a tick reads; a reload that lowers it binds from the next tick on.
- Restoring a breaker from its persisted state, which forgets the probe in flight.
- The periodic clean-up of breaker statistics and URL parsing: the webhook breaker is keyed by the host it is given.
- OperationKeys.PathKeysAreApart: method names are ASCII; upper-casing beyond ASCII is not modelled.
- EntryRecorder.EntryRecorder.Record: content length counts characters, not UTF-16 units; metadata is its JSON text.
- Lifecycle.ProviderLifecycleManager.AddProvider: the hash behind the fingerprint is taken to be injective, and a configuration is its JSON text.
- Socks.RequestIsDecoded: the greeting's list of methods is not read (nor is it by the code), and one read is one message.
- Tunnel registry, command polling and output diffing of the terminal worker: they would add only easy members.
- Onboarding before parsing (fetching, redirects, credentials) and the source's own row: the model starts from the parsed specification; the three text generators are arbitrary functions shared by onboarding and refresh.
