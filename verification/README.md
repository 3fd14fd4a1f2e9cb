# Verified model of n8n's execution, credential and activation bookkeeping

A Dafny model of the stateful core of the n8n CLI backend, with proofs. Three components are
covered.

1. **Waiting executions.** Several processes, timers and finished children race to resume an
   execution whose row is in status `waiting`. Each process keeps registrations by execution id,
   a deferred promise and a clean-up callback per registration, and a capacity counter with a
   queue. Around it: child results written into a waiting parent, the upward resume of parents,
   retries, shutdown, and time limits.
2. **Credential types.** The worklist that collects parent types while it grows, and the
   overwrites that are flattened through a cache which forgets what it computed.
3. **Credential repair, webhooks, activation retries.** The two-cache repair loop, the webhook
   table shared by all workflows, and the retry queue with its backoff.

`dafny verify dfyconfig.toml` checks everything.

## Files

| file | content |
|---|---|
| `Executions.dfy` | one process as a state machine: `add`, registration, clean-up, capacity; invariants over all runs |
| `EventEffects.dfy` | what each event of a process changes; the order of the capacity queue |
| `ActiveExecutions.dfy` | the same with objects; every method is proved against the step of that name |
| `Shutdown.dfy` | what a shutdown waits for, and what it leaves |
| `ResumeProtocol.dfy` | any number of processes over one table; steps are separated where the code awaits |
| `Ownership.dfy` | who runs an execution, where memory reports `waiting` before the row does |
| `ResumeSafety.dfy` | one winner per waiting period |
| `ResumedData.dfy` | what a resumed parent starts from |
| `ReportHistory.dfy` | which children's reports it shows when updates overlap |
| `ReachableRaces.dfy` | runs from the initial state that show the races |
| `Addressing.dfy` | when an execution id leads to the right registration |
| `ParentUpdate.dfy` | writing a child's result into its parent |
| `WaitTracker.dfy` | retries, upward propagation, timers |
| `Deadlines.dfy` | nested deadlines, time limits across resumes |
| `CredentialTypes.dfy`, `CredentialsOverwrites.dfy`, `CredentialRepair.dfy` | credentials |
| `WebhookTable.dfy`, `ActivationQueue.dfy` | the two halves of the active workflow manager |
| `Wrappers.dfy`, `Powers.dfy` | options, powers of two |

## How the resume protocol is modelled

A step of `ResumeProtocol.Step` is one database statement or one stretch of code without an
`await`. Reading a row for a resume and the compare-and-set on it are two steps, and so are
reading a waiting parent and writing a child's result into it. The read of a resume is joined with
the entry into `add`, which only moves the reservation of capacity next to it; waiting for
capacity stays a separate stage. A registration has an identity (its position among the calls of
its process); `setStatus`, `finalizeExecution`, `stopExecution` and the clean-up callback go
through the map by id, as in the code. Both modes are covered: a run saves its row as waiting from
any process, whatever the row's status (a main's save hook skips a cancelled row, a worker's has no
condition); a deleted row is one that never waits again; `StartNew` writes the row in regular mode
and leaves it to the worker in queue mode. The results of `ResumeSafety`, `ResumedData`,
`ReportHistory` and the main result of `Addressing` hold over all such runs.

That a registration is never taken out by the clean-up of another needs more.
`Ownership.ReportingRun` is a run in which a row is saved as waiting only after the registration
that ran it last has reported `waiting` in memory, no other status is reported that way, and a
shutdown drops only entries that wait, as in regular mode. `Addressing.Guarded` says which events replace a registration under its id or take its
entry out before its promise has settled; it is an exact condition, over all runs.

Fields of rows, snapshots and updates that only the statements need (counters and the history of a
row's data) are marked as such and decide no step.

`CredentialTypes` assumes that the list of known types and the loaded types declare the same
`extends` lists. `CredentialRepair` assumes that the two lookups read the same table and that ids
are unique in it.

## Where the code does not do what its text says

Each of these is proved, with its exact condition where the code meets the property sometimes, and
with a run that reaches it where that is in question.

- **Removing from the capacity queue overruns the limit.** `ConcurrencyQueue.remove` returns the
  slot of the removed entry and then also lets the next entry go, which had no slot. Over every run
  the limit is respected throughout if and only if every removal finds nobody else queued
  (`Executions.LimitHoldsExactlyWhen`). With a limit of one, four events lead beyond it
  (`Executions.RemovalOverrunsLimitOfOne`).
- **Stopping a waiting execution too early leaks its slot.** The entry goes, nobody can settle the
  promise any more, the clean-up never runs (`Executions.StopOrphansExactlyWhen`,
  `Executions.OrphanKeepsItsSlot`).
- **A late `waiting` report blocks a shutdown.** Once the pending clean-ups have run, the entries
  left are exactly those whose execution reported `waiting` before its clean-up, and nothing takes
  them out (`Shutdown.DrainLeavesExactlyTheLate`).
- **Registrations are found by id, not by identity.** Every open promise can be reached by its id if
  and only if no event so far has replaced a registration or taken its entry out before its promise
  had settled (`Addressing.IdsReachOpenPromisesExactlyWhen`). Without the in-memory `waiting`
  status, as on a main process whose workers run the jobs, the clean-up of an earlier registration
  does that to a later one (`Addressing.CleanupTakesOutAnotherExactlyWhen`; a run in
  `ReachableRaces.CleanupTakesOutAnother`); where memory reports first, none does
  (`Ownership.CleanupNeverTakesOutAnother`).
- **An early reader can undo a child's result.** The comment on the update of a parent says that
  the parent receives one child's final output. A resumer that read the row before the child's
  write and wins afterwards puts the original input back (`ResumedData.EarlyReaderLosesResult`; a
  run in `ReachableRaces.EarlyReaderWins`); every later reader starts from a child's result
  (`ResumedData.LaterReaderStartsFromChildResult`).
- **The last child to write does not simply win.** Output and error are separate fields. Of updates
  that do not overlap, an error stays under a later child's output, so the parent fails exactly
  when some child failed (`ParentUpdate.FailsExactlyWhenSomeChildFailed`). Updates that overlap can
  drop it (`ReachableRaces.OverlapLosesError`). In any run the parent fails exactly when what was
  saved had an error or some report in the history behind what the winner read has one
  (`ReportHistory.ResumedParentShowsItsHistory`).
- **The two repair caches are not transparent.** They agree with lookups without caches exactly
  when equal ids that lead nowhere carry equal names
  (`CredentialRepair.WorkflowAgreesExactlyWhenStable`).
- **Without a configured maximum the runner sets no time limit at all**, where the sub-workflow
  path sets the full one (`Deadlines.ComputationsAgreeExactlyWhen`).
- **A leader that steps down and takes over again sets no timer for what it had tracked**
  (`WaitTracker.RegainedLeadershipSkipsTracked`).
- **During start-up a registration can succeed and leave keys unowned**, exactly those whose query
  failed (`WebhookTable.ToleratedMissesExactly`).
- **Webhook rows are not only changed by their owners.** Storing is documented as atomic, but consists
  of an insert, a lookup and a refresh, and clearing of a listing and a removal; refresh and removal
  address rows by their key. A workflow whose own clear does not hit its row holds it throughout if
  and only if no late refresh and no late removal of another one does
  (`WebhookTable.HeldExactlyWithoutLateStatement`). Both happen
  (`WebhookTable.LateRefreshTakesOver`, `WebhookTable.LateRemovalTakesOver`).

## Model

| member | source | states |
|---|---|---|
| `Executions.StepKeepsSound` | packages/cli/src/active-executions.ts:67-173 | every step of a process keeps the books: free capacity, slots in use and queued calls add up to the limit, and a call holds a reservation exactly while it occupies a slot |
| `Executions.SlotsAreConserved` | packages/cli/src/active-executions.ts:67-140 | the same over every run of events |
| `Executions.ReleasedExactlyOnce` | packages/cli/src/active-executions.ts:137-160 | over every run a reservation is given back once if the call failed or its clean-up ran, and otherwise not at all |
| `Executions.LimitHoldsExactlyWhen` | packages/cli/src/concurrency/concurrency-queue.ts:21-74 | over every run the slots in use stay within the limit, as long as capacity control is on, if and only if every removal from the queue finds nobody else queued |
| `Executions.LimitIsRespected` | packages/cli/src/concurrency/concurrency-queue.ts:21-42 | in particular in every run without removals |
| `Executions.RemovalOverrunsLimit` | packages/cli/src/concurrency/concurrency-queue.ts:44-54 | the step of it: a removal exceeds the limit if and only if another execution is queued |
| `Executions.RemovalOverrunsLimitOfOne` | packages/cli/src/concurrency/concurrency-queue.ts:44-54 | a run from the start with a limit of one that ends with two slots in use |
| `Executions.StopOrphansExactlyWhen` | packages/cli/src/active-executions.ts:210-235 | stopping leaves an unsettled, unreachable promise if and only if the entry waits and its promise is open |
| `Executions.OrphanKeepsItsSlot` | packages/cli/src/active-executions.ts:157-173 | an unreachable open promise stays so over every run and its slot is never given back |
| `Executions.StepKeepsWaiting` | packages/cli/src/active-executions.ts:164-171 | an entry that is still in the map after its clean-up reports `waiting`, after every step |
| `EventEffects.WaitsExactlyWhenFull` | packages/cli/src/concurrency/concurrency-queue.ts:21-42 | over every run, removals included, a new call has to queue up if and only if it draws on the capacity and `limit` slots are in use, and calls are queued only then |
| `EventEffects.FirstComeFirstServed` | packages/cli/src/concurrency/concurrency-queue.ts:21-74 | over every run, removals included, a queued call that goes on came before all that stay queued |
| `EventEffects.PromiseTurnsExactlyWhen` | packages/cli/src/active-executions.ts:210-259 | an open promise is resolved if and only if its id is finalized, and rejected if and only if its id is stopped while it does not wait; a settled one never changes |
| `EventEffects.StatusTurnsExactlyWhen` | packages/cli/src/active-executions.ts:142-154 | registering makes a call `running`, a report for its id gives it that status, nothing else changes it |
| `EventEffects.EntryTurnsExactlyWhen` | packages/cli/src/active-executions.ts:157-237 | the four events that change what an id leads to, and that no other does |
| `Executions.StartIsReadyToShutDown` | packages/cli/src/active-executions.ts:142-173 | over every run from the start in which only `waiting` is reported, the state is what a shutdown needs |
| `Executions.CancelOne` | packages/cli/src/active-executions.ts:332-343 | one turn of the cancelling pass: a waiting entry goes, any other keeps its place with a settled promise |
| `Executions.CancelledDrains` | packages/cli/src/active-executions.ts:332-343 | after the pass every entry left has a settled promise whose clean-up will take it out |
| `Executions.CleanupDrains` | packages/cli/src/active-executions.ts:163-173 | each clean-up reduces the pending ones by itself, keeps the others pending, and takes its entry out |
| `Executions.DrainingMakesProgress` | packages/cli/src/active-executions.ts:347-356 | as long as entries are left, some clean-up is pending |
| `Shutdown.EntryFate` | packages/cli/src/active-executions.ts:163-172 | over every run of clean-ups, `waiting` reports and finalizations, an entry stays until its clean-up and is left after it exactly when it reported `waiting` before |
| `Shutdown.KeptStaysKept` | packages/cli/src/active-executions.ts:163-172 | an entry whose clean-up left it is in the map for good |
| `Shutdown.DrainLeavesExactlyTheLate` | packages/cli/src/active-executions.ts:347-356 | with nothing pending any more, the ids left are exactly those that reported `waiting` before their clean-up; so the map is empty, and a shutdown ends, if and only if there is none |
| `ActiveExecutions.ActiveExecutions.Begin` | packages/cli/src/active-executions.ts:67-116 | entering `add` reserves or queues up, as the state machine says |
| `ActiveExecutions.ActiveExecutions.Release` | packages/cli/src/concurrency/concurrency-capacity-reservation.ts:30-36 | releasing without a reservation does nothing, else the slot goes back and the next queued call goes on |
| `ActiveExecutions.ActiveExecutions.RemoveQueued` | packages/cli/src/concurrency/concurrency-queue.ts:44-54 | the first queued entry of the id is taken out, capacity grows, and the next one is let go |
| `ActiveExecutions.ActiveExecutions.WriteFails` | packages/cli/src/active-executions.ts:132-140 | a failed write or a lost compare-and-set fails the call and gives the slot back |
| `ActiveExecutions.ActiveExecutions.Register` | packages/cli/src/active-executions.ts:142-154 | the call becomes the entry under its id, whatever was there |
| `ActiveExecutions.ActiveExecutions.OnSettled` | packages/cli/src/active-executions.ts:157-173 | the callback looks at its own execution's status but takes out whatever the id leads to |
| `ActiveExecutions.ActiveExecutions.StopExecution` | packages/cli/src/active-executions.ts:210-237 | a waiting entry is dropped, any other promise is rejected, an unknown id does nothing |
| `ActiveExecutions.ActiveExecutions.FinalizeExecution` | packages/cli/src/active-executions.ts:240-259 | the promise the id leads to is resolved unless it has settled |
| `ActiveExecutions.ActiveExecutions.SetStatus` | packages/cli/src/active-executions.ts:307-309 | only the entry the id leads to changes; an unknown id is an error |
| `ActiveExecutions.ActiveExecutions.CancelAll` | packages/cli/src/active-executions.ts:324-343 | the cancelling pass leaves exactly the entries that did not wait, all of them settled |
| `ActiveExecutions.ActiveExecutions.AwaitEmpty` | packages/cli/src/active-executions.ts:347-356 | waiting for the map to become empty terminates when nothing is added |
| `ActiveExecutions.ActiveExecutions.ShutDown` | packages/cli/src/active-executions.ts:324-357 | a cancelling shutdown in regular mode terminates with an empty map, from any state that keeps the two invariants above, when nothing is added meanwhile |
| `ResumeProtocol.BooksHold` | packages/cli/src/active-executions.ts:60-179 | over every run of any number of processes each one keeps its slots and reservations in order |
| `Ownership.StepKeepsControl` | packages/cli/src/active-executions.ts:106-154 | every step with memory reporting first keeps: at most the last runner of a row demands it, a running registration is the one under its id, and a row waits only while its last runner reports `waiting` |
| `Ownership.ControlHolds` | packages/cli/src/active-executions.ts:60-179 | the same at every state of every run in which memory reports first |
| `Ownership.ControlHasNoStrangers` | packages/cli/src/active-executions.ts:163-173 | in such a state no pending clean-up takes out the entry of another registration, as the end of a shutdown needs |
| `ResumeProtocol.StepIsEvent` | packages/cli/src/active-executions.ts:60-179 | every step of the system is at most one event of at most one process |
| `Ownership.CleanupNeverTakesOutAnother` | packages/cli/src/active-executions.ts:157-173 | over every run of every number of processes in which memory reports first, a clean-up never takes out the entry of another registration |
| `ResumeSafety.StepKeepsPeriods` | packages/cli/src/active-executions.ts:111-136 | every step, in regular and queue mode, keeps: the winners of an execution are as many as its resumes, each ended another waiting period, and a row that waits has a period nobody ended |
| `ResumeSafety.ResumesNeverExceedPeriods` | packages/cli/src/active-executions.ts:111-136 | over every run each waiting period is ended by at most one resume, so winners never outnumber the periods entered |
| `ResumeSafety.LoserFailsForGood` | packages/cli/src/active-executions.ts:126-140 | a resumer that finds the period ended fails, holds no slot, and never registers, however the run goes on |
| `ResumedData.StepKeepsCarried` | packages/cli/src/workflow-helpers.ts:604-623 | every step keeps: a waiting row that some child has written since it was saved shows a child's result |
| `ResumedData.WinnerStartsFromReading` | packages/cli/src/wait-tracker.ts:124-156 | the parent starts from exactly what the winner read, whatever was written since |
| `ResumedData.LaterReaderStartsFromChildResult` | packages/cli/src/workflow-helpers.ts:539-624 | in any run: once a child has written into a waiting row, every reader of that row before it is saved anew, if it wins, starts the parent from a child's result, overlapping updates included |
| `ResumedData.EarlyReaderLosesResult` | packages/cli/src/workflow-helpers.ts:528-533 | from any state of a run, a reader from before the write can win and put the original input back |
| `ReachableRaces.EarlyReaderWins` | packages/cli/src/wait-tracker.ts:120-156 | a run from the initial state in which it does |
| `ReportHistory.ExplainedHolds` | packages/cli/src/workflow-helpers.ts:545-623 | over every run, the data of a row is what was last saved there with the reports of its history applied in order |
| `ReportHistory.WritesWereReadWhileWaiting` | packages/cli/src/workflow-helpers.ts:546-561 | over every run, whatever is written into a parent was read, for a report with an error or an output, while the parent waited with a non-empty stack |
| `ReportHistory.ResumedParentShowsItsHistory` | packages/cli/src/workflow-helpers.ts:604-618 | in any run with overlapping updates, a resumed parent fails if and only if what was saved had an error or some report behind what the winner read has one, and shows a child's result if and only if there is such a report or the saved data showed one |
| `ReportHistory.ResumedHeadFollowsItsHistory` | packages/cli/src/workflow-helpers.ts:567-618 | output, error and credential flags of the resumed head are those of that history |
| `ReportHistory.ResumedTasksFollowTheirHistory` | packages/cli/src/workflow-helpers.ts:583-593 | the resumed parent has all tasks that were saved, of every node, unchanged but for the two flags of the waiting node's last one, which follow that history |
| `ReportHistory.OverlappingWriteDropsReports` | packages/cli/src/workflow-helpers.ts:545-623 | after a write the row has exactly the reports behind its own reading and its own one, and an error only if one of those has it |
| `ReachableRaces.OverlapLosesError` | packages/cli/src/workflow-helpers.ts:545-623 | a run in which one child's error is gone after the overlapping write of another |
| `Addressing.GuardIsExact` | packages/cli/src/active-executions.ts:142-259 | an event leaves an open promise unreachable by its id if and only if it breaks the guard, in either mode |
| `Addressing.IdsReachOpenPromisesExactlyWhen` | packages/cli/src/active-executions.ts:142-259 | over every run of any number of processes in either mode, every open promise can be reached by its id if and only if every step so far met the guard |
| `Addressing.IdsReachOpenPromises` | packages/cli/src/active-executions.ts:142-173 | where memory reports first, clean-ups need no guard |
| `Addressing.FinalizeReaches` | packages/cli/src/active-executions.ts:240-259 | finalizing by id then settles exactly that promise |
| `Addressing.CleanupTakesOutAnotherExactlyWhen` | packages/cli/src/active-executions.ts:163-173 | in any run, a clean-up puts a later registration of its id out of reach exactly when its own does not report `waiting`, and then at every later state |
| `ReachableRaces.CleanupTakesOutAnother` | packages/cli/src/scaling/job-processor.ts:238-250 | a run in which a worker saves the row as waiting without that report, and the clean-up of the first registration takes out the second |
| `ParentUpdate.UpdateWithChildResults` | packages/cli/src/workflow-helpers.ts:539-624 | what is written, and in which three cases nothing is |
| `ParentUpdate.FlagsAccumulate` | packages/cli/src/workflow-helpers.ts:567-593 | over any sequence of updates that do not overlap, the flags of the stack head and of the waiting run are the initial ones joined with all reports |
| `ParentUpdate.OtherTasksStay` | packages/cli/src/workflow-helpers.ts:583-593 | over any sequence of updates no node and no task comes or goes, all tasks of other nodes stay, and all but the last one of the waiting node |
| `ParentUpdate.LastResultsSurvive` | packages/cli/src/workflow-helpers.ts:604-618 | of updates that do not overlap, the last output and the last error stay side by side |
| `ParentUpdate.LastFailedChildIsLinked` | packages/cli/src/workflow-helpers.ts:604-612 | over any sequence of updates the link leads to the last failed child that names itself, whatever succeeds after it |
| `ParentUpdate.FailsExactlyWhenSomeChildFailed` | packages/cli/src/workflow-helpers.ts:604-618 | after updates that do not overlap the parent has an error if and only if it had one or some child reported one |
| `ParentUpdate.LastUserWins` | packages/cli/src/workflow-helpers.ts:571-601 | of updates that do not overlap, the latest report that names a user decides the user of the head and of the runtime data |
| `WaitTracker.WithRetry` | packages/cli/src/wait-tracker.ts:235-249 | the number of attempts is the least one that succeeds, may not be retried, or reaches the limit; the pauses add up to 100·(2^(k−1)−1) ms; the last outcome is reported |
| `WaitTracker.ResumeStepIsShort` | packages/cli/src/wait-tracker.ts:28 | a step of a parent resume pauses for at most 300 ms |
| `WaitTracker.ResumeParentExecution` | packages/cli/src/wait-tracker.ts:191-226 | the levels resumed are consecutive, from the inside out, and stop at the first one that does not climb |
| `WaitTracker.ResumedExactlyWhenAllBelowClimb` | packages/cli/src/wait-tracker.ts:170-226 | a level is resumed if and only if every level below it finished, is to resume its parent, had its update of the parent return (which it also does when there is nothing to write), and got the parent started |
| `WaitTracker.ClimbsExactlyWhen` | packages/cli/src/workflow-helpers.ts:511-521 | a finished child gets its parent running if and only if it has a link whose flag is not `false`, an absent flag being no obstacle, and one of three attempts at the update and at the start goes through |
| `WaitTracker.ClosedLinkStopsTheClimb` | packages/cli/src/workflow-helpers.ts:511-521 | above a level without a link, or with one whose flag is `false`, nothing is resumed |
| `WaitTracker.PollArmsUntracked` | packages/cli/src/wait-tracker.ts:82-110 | a poll gives a timer to exactly the found executions that are not tracked |
| `WaitTracker.PollTracksFound` | packages/cli/src/wait-tracker.ts:82-110 | after a poll everything found is tracked; what was tracked keeps its timer and gets no other, what was not gets exactly one more |
| `WaitTracker.StopUndoesPoll` | packages/cli/src/wait-tracker.ts:112-118 | stopping an execution takes back exactly the timer that a poll set for it |
| `WaitTracker.RegainedLeadershipSkipsTracked` | packages/cli/src/wait-tracker.ts:252-261 | after a step-down and a takeover a waiting execution has a timer exactly when it was not tracked, or a timer of it was not cleared |
| `WaitTracker.StartLeavesTimer` | packages/cli/src/wait-tracker.ts:120-122 | an execution started while its timer is pending and found waiting again has two timers |
| `WaitTracker.Tracker.GetWaitingExecutions` | packages/cli/src/wait-tracker.ts:82-110 | the loop over the found executions |
| `WaitTracker.Tracker.StopTracking` | packages/cli/src/wait-tracker.ts:252-261 | all tracked timers are cleared and the tracked ids stay; nothing happens when polling was never started |
| `WaitTracker.Tracker.StartTracking` | packages/cli/src/wait-tracker.ts:70-80 | polling starts and the first poll is made |
| `WaitTracker.Tracker.StartExecution` | packages/cli/src/wait-tracker.ts:120-122 | the id is forgotten and a pending timer stays |
| `WaitTracker.Tracker.StopExecution` | packages/cli/src/wait-tracker.ts:112-118 | the timer is cleared and the id forgotten |
| `Deadlines.RunMainProcess` | packages/cli/src/workflow-runner.ts:344-371 | the soft deadline and the hard timer a run is given |
| `Deadlines.ComputationsAgreeExactlyWhen` | packages/cli/src/workflow-execute-additional-data.ts:240-268 | the two own-deadline computations agree if and only if a maximum is configured or the timeout is off |
| `Deadlines.DeadlineIsTimeoutInForce` | packages/cli/src/workflow-execute-additional-data.ts:240-268 | a deadline is the start plus 1000 ms for each second of the timeout in force (own or default, capped by a positive maximum); the runner's own one likewise, where there is such a maximum |
| `Deadlines.DeadlineIsMinimum` | packages/cli/src/workflow-execute-additional-data.ts:273-285 | in any tree of calls a deadline is the smallest own deadline from the nearest detached ancestor down |
| `Deadlines.NeverLaterThanWaiter` | packages/cli/src/workflow-execute-additional-data.ts:529-535 | a call that is waited for, directly or not, never outlives the caller's deadline |
| `Deadlines.HardLimitIsFixed` | packages/cli/src/workflow-runner.ts:437-459 | on every resume the cancellation is due at max(startedAt + budget, now) |
| `Deadlines.SoftDeadlineLags` | packages/cli/src/workflow-runner.ts:368-371 | the soft deadline restarts and is later than the hard limit by exactly the time since the start, up to the budget |
| `Deadlines.WaitingNeverExtendsBudget` | packages/cli/src/workflow-runner.ts:437-459 | over any sequence of waits and resumes the running time stays within the budget |
| `CredentialTypes.EntryOutweighs` | packages/cli/src/credential-types.ts:26-38 | the parent types of an entry weigh less than the entry, which bounds the growing worklist of any acyclic hierarchy |
| `CredentialTypes.ParentTypesAreAncestors` | packages/cli/src/credential-types.ts:26-38 | the collected types are exactly the proper ancestors, in any acyclic hierarchy |
| `CredentialTypes.ParentTypesFollowChain` | packages/cli/src/credential-types.ts:26-38 | under single inheritance the first occurrences, in order, are the ancestor chain |
| `CredentialTypes.GetParentTypes` | packages/cli/src/credential-types.ts:26-38 | the recursive loop over the array it extends terminates with that list |
| `CredentialsOverwrites.MergeIsOverlay` | packages/cli/src/credentials-overwrites.ts:210-223 | reversing, filtering and assigning is the overlay in which the nearest type wins |
| `CredentialsOverwrites.RepeatsAreShadowed` | packages/cli/src/credentials-overwrites.ts:210-223 | repeated ancestors change nothing |
| `CredentialsOverwrites.ReadIsFlat` | packages/cli/src/credentials-overwrites.ts:210-223 | reading over any table is the root-to-leaf overlay of the chain |
| `CredentialsOverwrites.ResolveIsSandwiched` | packages/cli/src/credentials-overwrites.ts:178-208 | whatever has been marked resolved, a resolution lies between the raw entry and the full overlay |
| `CredentialsOverwrites.FlattenKeepsSandwich` | packages/cli/src/credentials-overwrites.ts:103-116 | every stored entry lies between its raw entry and the full overlay, in any key order |
| `CredentialsOverwrites.LoadThenRead` | packages/cli/src/credentials-overwrites.ts:103-116 | after loading, in any key order, reading a type gives the plain overlay of the raw entries, although the cache forgets merges |
| `CredentialsOverwrites.ReloadThenRead` | packages/cli/src/credentials-overwrites.ts:103-116 | loading the flattened table again changes no reading |
| `CredentialsOverwrites.LoadedFieldIsNearest` | packages/cli/src/credentials-overwrites.ts:103-223 | field by field: after loading, a field reads as in the raw entry of the nearest among the type and its ancestors that has it |
| `CredentialsOverwrites.SiblingsRankDifferently` | packages/cli/src/credentials-overwrites.ts:191-194 | with two parents, which parent wins depends on whether the type has an entry of its own |
| `CredentialsOverwrites.ApplyIsIdempotent` | packages/cli/src/credentials-overwrites.ts:140-176 | applying overwrites twice is applying them once |
| `CredentialsOverwrites.ApplyKeepsUserValues` | packages/cli/src/credentials-overwrites.ts:140-176 | values the user set stay, blank ones are filled, customised credentials of skipped types are untouched |
| `CredentialsOverwrites.FieldBecomes` | packages/cli/src/credentials-overwrites.ts:166-173 | an overwritten field that is absent, null, undefined or empty reads the overwrite's value; one that holds a number, a flag or other text its own |
| `CredentialsOverwrites.SkippedTypeExactly` | packages/cli/src/credentials-overwrites.ts:147-163 | data of a skipped type is filled like any other as long as each overwritten field is absent, null, undefined, empty or equal to the overwrite, and is otherwise left alone |
| `CredentialsOverwrites.ManagedExactlyWhenInjected` | packages/cli/src/credentials-overwrites.ts:233-241 | managed if and only if some value would be injected |
| `CredentialsOverwrites.ManagedExactlyWhenUnset` | packages/cli/src/credentials-overwrites.ts:233-241 | written out on the values: managed if and only if, unless a skipped type is customised, some absent, null, undefined or empty field gets another value |
| `CredentialsOverwrites.NothingLeftToManage` | packages/cli/src/credentials-overwrites.ts:233-241 | data that overwrites were applied to is never managed |
| `CredentialsOverwrites.Overwrites.GetOverwrites` | packages/cli/src/credentials-overwrites.ts:178-208 | the result and the types marked on the way |
| `CredentialsOverwrites.Overwrites.SetPlainData` | packages/cli/src/credentials-overwrites.ts:103-116 | the flattened table, and that every reading is the plain overlay under single inheritance |
| `CredentialsOverwrites.Overwrites.Get` | packages/cli/src/credentials-overwrites.ts:210-223 | the overlay along the collected parent types |
| `CredentialsOverwrites.Overwrites.ApplyOverwrite` | packages/cli/src/credentials-overwrites.ts:140-176 | the filled copy of the data |
| `CredentialsOverwrites.Overwrites.UsesManagedAuth` | packages/cli/src/credentials-overwrites.ts:233-241 | whether applying would change a field |
| `CredentialRepair.WorkflowAgreesExactlyWhenStable` | packages/cli/src/workflow-helpers.ts:367-488 | the cached loops give what lookups without caches give, up to the form of an unresolved name, if and only if lost ids keep their names |
| `CredentialRepair.AgreesExactlyWhenStable` | packages/cli/src/workflow-helpers.ts:385-484 | the same for the visited slots |
| `CredentialRepair.SecondPassChangesNothing` | packages/cli/src/workflow-helpers.ts:367-488 | repairing a repaired workflow changes nothing, for any workflow |
| `CredentialRepair.RepairKeepsFirstLost` | packages/cli/src/workflow-helpers.ts:476-483 | the entry that is cached for a lost id is the same before and after a repair |
| `CredentialRepair.BareNameBecomes` | packages/cli/src/workflow-helpers.ts:400-433 | a name without an id becomes the id and name of the one row of the project with that name and type; with none or several it stays that name |
| `CredentialRepair.AmbiguousNameStays` | packages/cli/src/workflow-helpers.ts:407-432 | two rows of the name, type and project leave the name as it is |
| `CredentialRepair.KnownIdBecomes` | packages/cli/src/workflow-helpers.ts:442-457 | a known id of the right type becomes that row's id and current name |
| `CredentialRepair.UnknownIdBecomes` | packages/cli/src/workflow-helpers.ts:458-478 | an unknown id, if no earlier slot has led nowhere with it, becomes the one row its name leads to, and is unchanged if that is not exactly one |
| `CredentialRepair.UnknownIdRepeats` | packages/cli/src/workflow-helpers.ts:476-483 | an unknown id after earlier slots that led nowhere with it becomes what the first of them stores |
| `CredentialRepair.OthersStay` | packages/cli/src/workflow-helpers.ts:387-398 | refused types, empty entries and gateway credentials stay |
| `CredentialRepair.NodeBecomes` | packages/cli/src/workflow-helpers.ts:381-385 | disabled nodes and nodes without credentials stay, every other node keeps its place and gets its slots' repair |
| `CredentialRepair.SlotIsInPass` | packages/cli/src/workflow-helpers.ts:367-488 | a slot of a node becomes what it becomes in the one pass over all visited slots |
| `CredentialRepair.RepairSlot` | packages/cli/src/workflow-helpers.ts:392-484 | one turn of the loop with both caches, which stay true to the table and the slots seen |
| `CredentialRepair.ReplaceInvalidCredentials` | packages/cli/src/workflow-helpers.ts:367-488 | the whole repair; disabled nodes and unsafe types are left alone |
| `WebhookTable.SpellingsShareOneKey` | packages/cli/src/active-workflow-manager.ts:169-174 | a path with or without one slash at each end is stored under the same key |
| `WebhookTable.OneSlashGoes` | packages/cli/src/active-workflow-manager.ts:169-174 | exactly one slash is taken off each end, whatever the path between them |
| `WebhookTable.KeysAgreeExactlyWhen` | packages/@n8n/db/src/entities/webhook-entity.ts:11-15 | two webhooks share a row if and only if their methods and their normalised paths are equal |
| `WebhookTable.FreeMethodIsStored` | packages/cli/src/webhooks/webhook.service.ts:152-156 | a free path and method is stored under exactly that key for the workflow and node, whoever owns other methods of the path, and no other row changes |
| `WebhookTable.TakenMethodIsRefused` | packages/cli/src/webhooks/webhook.service.ts:157-169 | a path and method of another workflow is refused and left as it is |
| `WebhookTable.OwnMethodIsRefreshed` | packages/cli/src/webhooks/webhook.service.ts:157-177 | an own one is refreshed, and no other row changes |
| `WebhookTable.FailedCallsAreReported` | packages/cli/src/webhooks/webhook.service.ts:154-177 | which error a failed insert, lookup or refresh ends in, without a change of any row |
| `WebhookTable.StableExactlyWhenBare` | packages/cli/src/active-workflow-manager.ts:169-174 | normalising again changes nothing if and only if no slash is left at the ends |
| `WebhookTable.OwnedExactlyWhenStored` | packages/cli/src/webhooks/webhook.service.ts:152-217 | over every run of the single statements of all workflows and processes, a workflow owns a key exactly when it owned it and no statement took it, or stored it and no later statement took it |
| `WebhookTable.OwnerChangesOnlyBy` | packages/cli/src/webhooks/webhook.service.ts:152-217 | a key loses its owner only by the owner's clear or a late statement of another workflow |
| `WebhookTable.AdjacentStatementsAreAStore` | packages/cli/src/webhooks/webhook.service.ts:152-177 | insert, lookup and refresh with nothing in between are one atomic store |
| `WebhookTable.AdjacentStatementsAreAClear` | packages/cli/src/webhooks/webhook.service.ts:198-217 | listing and removal with nothing in between are one atomic clear |
| `WebhookTable.HeldExactlyWithoutLateStatement` | packages/cli/src/webhooks/webhook.service.ts:152-217 | over every run, an owner whose own clear does not hit the row holds it throughout if and only if no late refresh and no late removal of another workflow does |
| `WebhookTable.OwnedOnceExactly` | packages/cli/src/webhooks/webhook.service.ts:152-217 | a workflow that owns a key at some moment of a run owns it at the end if and only if every loss is followed by a new gain |
| `WebhookTable.LateRefreshTakesOver` | packages/cli/src/webhooks/webhook.service.ts:155-177 | a run in which a late refresh takes a row |
| `WebhookTable.LateRemovalTakesOver` | packages/cli/src/webhooks/webhook.service.ts:198-217 | a run of two overlapping clears in which the second removes another workflow's row |
| `WebhookTable.RegistrationIsARun` | packages/cli/src/active-workflow-manager.ts:156-223 | a registration, with any statements of others at its awaits, is a run of single statements |
| `WebhookTable.RegistrationIsDetermined` | packages/cli/src/active-workflow-manager.ts:156-223 | its states and errors are determined by its start and circumstances |
| `WebhookTable.StatementKeepsOthersExactlyWhen` | packages/cli/src/webhooks/webhook.service.ts:152-217 | a statement made for a workflow leaves all rows of others as they are if and only if it does not come late for one of them |
| `WebhookTable.OthersDecideForThemselves` | packages/cli/src/active-workflow-manager.ts:156-223 | in the course of a registration, what any workflow owns is decided by what it owned, what it stored, its own clears and late statements of others |
| `WebhookTable.StoreIsARun` | packages/cli/src/webhooks/webhook.service.ts:152-177 | a store, with any statements of others at its awaits, is a run of single statements |
| `WebhookTable.StoreSecures` | packages/cli/src/webhooks/webhook.service.ts:152-177 | a store that goes through owned its key after the insert or at the lookup |
| `WebhookTable.LastWriterStays` | packages/cli/src/webhooks/webhook.service.ts:152-177 | in any run a row is what the last statement wrote that wrote it |
| `WebhookTable.RejectedExactlyWhen` | packages/cli/src/active-workflow-manager.ts:181-222 | a registration is rejected if and only if some webhook cannot be stored or created at its moment and that is not tolerated |
| `WebhookTable.AllOrNothing` | packages/cli/src/active-workflow-manager.ts:138-232 | among any statements of others at every await, own clears included: outside a start-up an unrejected registration ends in possession of a key if and only if every loss of it was made good |
| `WebhookTable.RejectedKeepsExactly` | packages/cli/src/active-workflow-manager.ts:201-208 | after the clean-up of a rejected one the workflow owns exactly the keys stored for it between the listing and the removal |
| `WebhookTable.RejectedLeavesNothing` | packages/cli/src/active-workflow-manager.ts:201-208 | so none, when nothing is stored for it in between |
| `WebhookTable.ToleratedMissesExactly` | packages/cli/src/active-workflow-manager.ts:188-199 | when nobody else takes or stores the key: a tolerant registration leaves it unowned if and only if it was not owned and none of its webhooks was stored, every query having failed |
| `WebhookTable.WebhookStore.AddWebhooks` | packages/cli/src/active-workflow-manager.ts:138-232 | the loop with its early end and clean-up, and what others do at its awaits: end state and outcome |
| `WebhookTable.WebhookStore.ClearWebhooks` | packages/cli/src/active-workflow-manager.ts:238-275 | nothing of it is done when it fails, else listing and removal with what others do in between |
| `WebhookTable.WebhookStore.StoreWebhook` | packages/cli/src/webhooks/webhook.service.ts:152-177 | path, insert, lookup and refresh of one webhook, with what others do in between, and the error reported |
| `ActivationQueue.PauseIsBackoff` | packages/cli/src/active-workflow-manager.ts:812-869 | over every history a workflow is queued exactly when it was queued and not removed since, and its pause depends only on its failures outside the isolate since then |
| `ActivationQueue.PauseAfterFailures` | packages/cli/src/active-workflow-manager.ts:826-852 | after being queued, any failures give the pause min(1000·2^n, 86 400 000) ms |
| `ActivationQueue.BackoffGrowsToADay` | packages/cli/src/constants.ts:90-91 | the pause is monotone, within a second and a day, and a day if and only if n ≥ 17 |
| `ActivationQueue.Queue.AddQueuedWorkflowActivation` | packages/cli/src/active-workflow-manager.ts:859-868 | queueing again starts over with the first pause |
| `ActivationQueue.Queue.RetryFailed` | packages/cli/src/active-workflow-manager.ts:826-852 | the entry after a failed retry, and nothing for a workflow no longer queued |
| `ActivationQueue.Queue.RemoveAllQueuedWorkflowActivations` | packages/cli/src/active-workflow-manager.ts:884-888 | the queue is empty afterwards |

## Left out

- `ResumedData.WinnerStartsFromReading`: the data a resumer has read goes to the compare-and-set as it
  is. When the execution context cannot be established in between, the runner empties the stack first
  and fails the execution after it has been added; that branch is not modelled.
- The execution engine, the job queue, expression evaluation and licences: a run's outcome, a
  database failure and an external service's failure are parameters or nondeterministic steps.
- Response promises, response modes, streaming, events and logging of active executions.
- Restarts after a crash: the steps of a process never lose its memory.
- `WebhookTable.ToleratedMissesExactly`: with others taking or storing the same workflow's key, what is
  owned is given by `WebhookTable.OwnedExactlyWhenStored`.
- Each database call on the webhook table is one step; a removal of several rows is one call.
- The static segments and parameters of webhook paths, and the webhook cache.
- `WaitTracker.ResumeParentExecution`: runs the resumes of one nesting one after the other; their
  interleaving with other resumers is the subject of the resume protocol, and an attempt that fails
  after it has won its row is not distinguished.
- `WaitTracker.Tracker.GetWaitingExecutions`: when a timer fires is not modelled, and no liveness is
  claimed of timers; orphaned and doubled ones are possible.
- `ActivationQueue.Queue.RetryFailed`: the timers themselves; under some interleavings two may be
  pending for one workflow.
- `Deadlines.RunMainProcess`: times are real numbers; clock drift, the platform's largest timer and
  a timeout stored as `null` are not modelled.
- `ActiveExecutions.ActiveExecutions.AwaitEmpty`: between two looks a pending clean-up runs; that
  it eventually does is the event loop's business. In the code the removal of queued executions
  that follows the cancelling pass does nothing, because control has been disabled by then.
- `CredentialsOverwrites.LoadThenRead`: single inheritance only; with two parents it is false, as
  `CredentialsOverwrites.SiblingsRankDifferently` shows.
- Credential fields are scalars: nested values, compared by identity in the code, and property
  names on the prototype chain are not modelled. The table is a value: the in-place update of the
  caller's object is kept, aliases of it elsewhere are not.
- `CredentialRepair.RepairSlot`: references are values; that the program shares one object between
  several nodes is not modelled.
- `ParentUpdate.UpdateWithChildResults`: the summary of a child's credential use is an input that
  carries only flags that are set.
