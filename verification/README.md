# Verification model of the Cvent agent control plane

This project models the parts of the repository that must stay correct when
processes die at any moment, and proves what they guarantee.  The program starts
isolated agent jobs, each of which drives one browser against one Cvent event.
At most one job may work on an event and on a worker slot, a browser write must
never be repeated when its outcome is unknown, and a human may take the browser
over at any time.

`dafny verify dfyconfig.toml` checks the whole project.

| file | subject |
|---|---|
| `Timestamps.dfy` | the text form of instants, and why its order is time order |
| `ControlStore.dfy` | the lease store: rows, transactions and the object whose methods perform them |
| `StoreAnswers.dfy` | what each transaction answers and does to a job's row, told from the rows it found |
| `LeasePairing.dfy`, `LeaseRuns.dfy`, `LeaseTime.dfy` | what every transaction keeps; whole runs; how leases end, and tokens over time; how long leases last |
| `JobRunner.dfy`, `JobRunnerProofs.dfy`, `JobRunnerTheorems.dfy` | launch, monitor, stop and heartbeat threads interleaved with the store, crashes and recovery |
| `RunLives.dfy` | whole lives of a run that nobody disturbs |
| `Runner.dfy` | the runner object, each method shown to be the corresponding uninterrupted steps |
| `EndOfWork.dfy` | how work on a job ends, and what an interrupted write does to the job: store, runner, router and reader together |
| `ReadLeaseRace.dfy` | a concrete run in which cleanup takes an operator's read lease |
| `BrowserGate.dfy`, `WriteRouter.dfy` | the gate record under its kernel lock, and helpers and children that may be killed after any step |
| `Takeover.dfy`, `WriteMarks.dfy` | who has the browser over whole runs; what a write of unknown outcome leaves behind |
| `MutationOutcome.dfy`, `AuditConservation.dfy` | the two readers of write evidence, and what they say about every log the router can leave |
| `AuditText.dfy`, `AuditRuns.dfy` | the log as text, written as JSON and cut by `splitlines`; concrete runs of the router and what is read from their logs |
| `PromiseQueue.dfy`, `Utf8Chunks.dfy`, `Utf8.dfy`, `SnapshotTransport.dfy`, `ActionRound.dfy` | the protocol code of the agent extension |
| `GuardedWork.dfy` | the extension's browser tools over the queue and the snapshot transport |
| `Verdict.dfy` | item outcomes and the final verdict |
| `VerdictRuns.dfy` | the verdict over runs of edits, preflights, preparations and verifications, with crashes |
| `EvidenceTree.dfy`, `ExecutionPlan.dfy` | evidence paths, items and the execution plan |
| `QuestionRecords.dfy` | segmentation of the questions sheet |

Methods and classes follow the loops and field updates of the source and are
proved equal to specification functions; the properties are lemmas about those
functions.  Code whose point is concurrency (runner threads, gate and router
processes, the promise queue) is a step relation: a run is any sequence of
enabled steps, and the theorems quantify over all runs.

## What turned out to be false as promised

* The tokenless cleanup of a run that lost its lease is documented as never
  touching another holder (`job_runner.py:788-790`).  It never removes another
  job's rows nor a reservation, but it does remove an operator's read lease on
  the same job; `CleanupSparesOthers` says exactly when, `ReadLeaseCanBeTaken`
  is a run.
* Evidence of an interrupted write in the gate record survives everything except
  `initialize` and a successful return to the agent, which rewrite the record
  without looking at it; `TraceErasedExactly` says exactly when,
  `InitializeForgets` is a run.
* A write that failed after a dispatch is meant to hold back every later write.  A
  timeout does, from the timeout on (`TimedOutWriteBlocks`).  A reported failure is
  marked only after the gate has been released (`browser_tool.py:381-390`), so the next
  write can come in between; `FailedWriteBlocks` says exactly when, `WriteInGap` is a run.
* The unmatched count is the number of open attempts only while the operator's
  resolutions name open attempts; resolving one that also succeeded can hide a
  later open attempt of the same key.  `ReaderExactly` and `OutcomeExactly` say
  what is computed for any resolutions; `RouterLeavesHiddenAttempt` is a run.
* A finished job is not always seen as finished: the log is written without
  escaping U+0085, U+2028 and U+2029, and read back with `splitlines`, which cuts
  at them.  Evidence from the router's own records is malformed exactly when some
  text in a record holds one of the three; see `TextOutcome`, and
  `SeparatorHoldsJob` for a run.
* A run's recorded outcome stands until its job is started again, unless an
  exception leaves the run's monitor after its own finish; then the launch handler
  finishes a second time and overwrites even a completed job.  `OutcomeStands` and
  `OutcomeRewritten` say exactly when.
* Guarded browser tools are meant to stay blocked while chunks of a snapshot are
  outstanding.  `cvent_section_state` checks before it enters the queue
  (`extensions/cvent-job-tools.ts:1579-1588`), so another tool's snapshot can come in
  between: `SectionActsOverUnread` is a run, `GuardedWorkExactly` says exactly when, and
  `InSlotNeverOverUnread` shows that the other tools never do.
* A pending snapshot can be left for ever by a browser that is replaced: it can
  then neither be read on nor be superseded; see `NextChunkReadable` and
  `OrphanBlocksForEver`.
* A delivered snapshot equals the captured text exactly when no lone surrogate
  follows its first chunk, because the file is UTF-8; see `DeliveredText` and
  `LoneSurrogateIsReplaced`.
* An accepted DRAFT_COMPLETE means every item was VERIFIED when its MATCH was
  recorded.  An item is VERIFIED at that moment exactly when no rebuild of the plan
  since its domain was verified left it otherwise (`DraftVerifiedExactly`).  That takes
  a new validator, a crash between replacing the workbook and deleting the recorded
  outcomes, or a start while an edit is under way (`UndisturbedDraftIsVerified`); each
  is a run: `DeployKeepsOutcomes`, `CrashedEditKeepsOutcomes`, `OvertakenEditKeepsOutcomes`.

## Model

| member | source | states |
|---|---|---|
| `Timestamps.IsoOrder` | control_store.py:28-29 | for UTC instants the text order of `iso()` is chronological order, and equal texts are equal instants, although the fraction is omitted at zero microseconds |
| `Timestamps.ExpiryTest` | control_store.py:426-448 | comparing stored expiry text with the text of now decides exactly "expired at or before now" |
| `Timestamps.FractionCanBeMissing` | control_store.py:28-29 | texts of the same second can have different lengths, so the equal-digits assumption of section 5.1 of RFC 3339 is not met, and the order still holds |
| `ControlStore.Database.constructor` | control_store.py:33-38 | a new store has no rows |
| `ControlStore.Database.ReclassifyStale` | control_store.py:434-446 | the loop over stale holders, in any order, reclassifies exactly the interruptible ones by their evidence |
| `ControlStore.Database.ExpireStale` | control_store.py:426-448 | sweeping is the specification step about which `SweepKeepsPairs` and `StaleExactly` are proved |
| `ControlStore.Database.FirstFree` | control_store.py:256-262 | the search finds the specified lowest free slot |
| `ControlStore.LowestFreeIsLowest` | control_store.py:256-262 | the slot found is free, in range, and every lower slot is occupied; none is found only when all are |
| `ControlStore.SlotChoice` | control_store.py:256-262 | a preferred slot is honoured or refused, never replaced; without one the lowest free slot is taken |
| `ControlStore.Database.Reserve` | control_store.py:229-291 | the transaction (sweep, refusals in order, insertion, rollback on a constraint) is the specification step of `ReserveKeepsPairs` |
| `ControlStore.Database.Beat` | control_store.py:293-309 | a heartbeat renews the matching rows of both tables, expired or not, and answers whether one of each matched |
| `ControlStore.Database.MarkAsRunning` | control_store.py:318-329 | a job is marked running only while a worker row carries its token |
| `ControlStore.Database.FinishJob` | control_store.py:331-356 | release and final state happen together or not at all |
| `ControlStore.Database.CancelLegacyQueued` | control_store.py:358-370 | the loop cancels every queued job, whatever the order, and nothing else |
| `ControlStore.Database.RecoverAfterRestart` | control_store.py:372-398 | every interrupted job is reclassified by its evidence, all leases go, and the answer lists exactly those jobs |
| `ControlStore.Database.BorrowReadOnly` | scripts/reconcile_registration_readonly.py:34-54 | the read-only borrower inserts its pair only for a stopped uncertain job whose event and slot are free, and leaves the job row alone |
| `ControlStore.Database.ReturnReadOnly` | scripts/reconcile_registration_readonly.py:65-71 | returning removes the rows of that job and token only |
| `ControlStore.QueueIsCancelled` | control_store.py:358-370 | after queue cancellation no job is queued; those that were are cancelled, unattached, certain and startable, and all others are as before |
| `StoreAnswers.StartAnswers` | control_store.py:243-268 | each of the four refusals of a start exactly when: a job that may not start; an unexpired lease on its event; a slot it asks for that does not exist; no free slot for it |
| `StoreAnswers.RefusalLeavesJob` | control_store.py:229-235 | a refused start leaves every job that was not being worked on as it was |
| `StoreAnswers.ConflictRollsBack` | control_store.py:229-291 | a start that violates a constraint changes nothing, not even expired rows; any other refusal leaves the sweep |
| `StoreAnswers.StartedRow` | control_store.py:269-288 | a started job is starting, certain, under its token and a slot that was free, on its own event; other jobs are only swept |
| `StoreAnswers.RunningRow` | control_store.py:318-329 | a job marked running shows its process and is otherwise unchanged, and so is everything else |
| `StoreAnswers.FinishedRow` | control_store.py:331-356 | which of the two errors a finish gives, exactly; a finished job has the given state and flag and no process, slot or token |
| `StoreAnswers.RecoveredRow` | control_store.py:372-398 | recovery ends exactly the starting, running and stopping jobs, by their evidence, and detaches them |
| `StoreAnswers.CreatedRow` | control_store.py:159-172 | a new job is an unattached draft that can be started; a known id or a slot that does not exist changes nothing |
| `StoreAnswers.BorrowAnswers` | scripts/reconcile_registration_readonly.py:34-54 | a readback starts exactly when nothing forbids it; its lease is good until the time it names and leaves the job uncertain and not startable |
| `LeasePairing.PairingMeaning` | control_store.py:279-291 | the invariant in words: each lease row has exactly one partner with the same holder, token and expiry, on the holder's own event and a slot in 1..N, and the holder is working there or is a retained uncertain job under a read token |
| `LeasePairing.WorkingJobHoldsPair` | control_store.py:279-291 | every starting or running job holds such a pair under its own token |
| `LeasePairing.NoConstraintViolation` | control_store.py:270-278 | the UNIQUE constraints on holders never fire in a reservation or a read borrow |
| `LeasePairing.StaleExactly` | control_store.py:426-433 | both halves of a pair expire together, and a holder is swept exactly when they do |
| `LeasePairing.SweepKeepsPairs` | control_store.py:426-448 | sweeping keeps the pairing and removes exactly the expired pairs |
| `LeasePairing.ReserveShape` | control_store.py:229-291 | a reservation is a sweep followed by at most one insertion of a fresh pair for a startable job on a free event and slot |
| `LeasePairing.ReserveKeepsPairs` | control_store.py:229-291 | a reservation keeps the pairing; afterwards exactly the unexpired pairs and the new one are held |
| `LeasePairing.HeartbeatKeepsPairs` | control_store.py:293-309 | a heartbeat keeps the pairing and who holds what, and succeeds exactly for the holder |
| `LeasePairing.MarkRunningKeepsPairs` | control_store.py:318-329 | marking with a reservation token keeps the pairing and succeeds exactly for the holder, who is a working job |
| `LeasePairing.FinishKeepsPairs` | control_store.py:331-356 | finish keeps the pairing, is refused exactly without the token's pair or with a bad state, and otherwise removes exactly that job's pair |
| `LeasePairing.CancelKeepsPairs` | control_store.py:358-370 | queue cancellation keeps the pairing and every holder |
| `LeasePairing.RecoveryEstablishesPairs` | control_store.py:372-398 | recovery establishes the invariant from any database whatsoever |
| `LeasePairing.CreateKeepsPairs` | control_store.py:159-172 | creating a job keeps the pairing and every holder |
| `LeasePairing.BorrowKeepsPairs` | scripts/reconcile_registration_readonly.py:34-54 | the read borrower keeps the pairing and adds exactly its own pair |
| `LeasePairing.ReturnKeepsPairs` | scripts/reconcile_registration_readonly.py:65-71 | returning a read lease removes exactly that pair |
| `LeasePairing.OneValidPair` | control_store.py:311-316 | at any instant at most one job and token validate for an event, and a token validates for one event only |
| `LeasePairing.ExpiredLeaseIsRevived` | control_store.py:293-309 | an expired pair that nothing has swept no longer validates, and its own heartbeat makes it valid again |
| `LeasePairing.ReadTokenMustNotMarkRunning` | control_store.py:318-329 | a store that satisfies the invariant and in which marking with a read token breaks it, hence the restriction of `MarkRunningKeepsPairs` |
| `LeaseRuns.ApplyKeepsPairs` | control_store.py:229-398 | every operation an arbitrary caller may make keeps the pairing |
| `LeaseRuns.PairingOverRuns` | control_store.py:229-398 | after start-up on any old database, leases are paired in every state of every run of arbitrary callers |
| `LeaseRuns.SpentStaysSpent` | control_store.py:270-279 | no operation puts a spent token back into a row |
| `LeaseRuns.SpentForEver` | control_store.py:293-316 | a spent token never validates and never heartbeats successfully again |
| `LeaseRuns.LeaseEnds` | control_store.py:229-398 | a held pair goes exactly by a finish of its job with its token or with none, its return, recovery, or a reservation made at or after its expiry, whatever else callers do |
| `LeaseRuns.SingleWriter` | browser_tool.py:55-59 | two writes that the guard admits on one event at different moments of a run are under one job and token, or the first lease was ended in between in one of those ways |
| `LeaseRuns.EndOfLeaseSpendsToken` | control_store.py:331-356 | releasing, returning, clearing or sweeping a lease spends its token |
| `LeaseTime.BeatLasts` | control_store.py:293-309 | after a holder's heartbeat at an instant the guard's question is answered yes before that instant plus the lease time and no from then on, and both rows run out then |
| `LeaseTime.ReservationLasts` | control_store.py:229-291 | the same after a reservation, whose answer names that end, the token, the event and the slot |
| `LeaseTime.HeldWhileBeaten` | control_store.py:293-309 | over every run, a lease that nobody releases is held exactly while every reservation, of any job, comes less than one lease time after the holder's last heartbeat; the first later one ends it for good |
| `LeaseTime.ExpiryEndsWork` | control_store.py:426-448 | a reservation that finds a lease run out ends the work under it by the evidence and detaches the job |
| `JobRunner.EndingIsFailClosed` | job_runner.py:53-72 | a run ends as failed_uncertain exactly with unresolved evidence, and as completed only on exit 0 with a DRAFT_COMPLETE report and no recorded stop |
| `JobRunner.EndingExactly` | job_runner.py:53-72 | each of the six states a run can end in exactly when |
| `JobRunnerProofs.NoReservationToLose` | job_runner.py:783-794 | a thread past its call of finish faces no reservation of its job under any run's token |
| `JobRunnerProofs.SweepSparesIdle` | control_store.py:426-448 | a sweep changes no job that is not being worked on |
| `JobRunnerProofs.StepKeepsInv` | job_runner.py:401-642 | every step of every thread, of the operator and of the controller's death and restart keeps the system invariant |
| `JobRunnerProofs.RunsKeepInv` | job_runner.py:401-642 | so does every interleaving of them |
| `JobRunnerProofs.Reachable` | job_runner.py:401-642 | the invariant holds in every state reachable from power-on over any database |
| `JobRunnerTheorems.CleanupSparesOthers` | job_runner.py:783-794 | in every interleaving the tokenless finish leaves the rows of other jobs and all reservations alone; it removes a row exactly when the operator holds a read lease on that very job |
| `JobRunnerTheorems.OneThreadPerJob` | job_runner.py:401-411 | a job has at most one launch/monitor thread, and while it has one it cannot be started |
| `JobRunnerTheorems.PairRetained` | job_runner.py:508-533 | a run's pair disappears only by its own finish, or by expiry or recovery, which is recorded |
| `JobRunnerTheorems.StopVersusSpawn` | job_runner.py:619-642 | a stop that found no process means none is ever spawned; one that found a process has signalled it or still owes the signal; unless swept, a run's thread holds its leases until its own finish |
| `JobRunnerTheorems.StopIsFinal` | job_runner.py:438-441 | a stop request is never forgotten, and after one that found no process none ever appears |
| `JobRunnerTheorems.StepKeepsUncertain` | job_runner.py:508-533 | no single step changes an uncertain job's state or flag |
| `JobRunnerTheorems.UncertaintyIsAbsorbing` | control_store.py:243-245 | once failed_uncertain with its flag set, a job stays so and is refused by every reservation, over every run |
| `JobRunnerTheorems.HeartbeatRenewsOrStops` | job_runner.py:429-436 | in every reachable state a heartbeat makes the lease good for one lease time, or finds it gone and then tells a living agent to stop |
| `JobRunnerTheorems.MarkedOrStopped` | job_runner.py:498-506 | a spawned agent is watched and its job shown as running with its process, or its lease is gone and it is told to stop |
| `JobRunnerTheorems.FinishRecords` | job_runner.py:783-794 | a run that holds its lease records its ending and lets go; one that does not changes nothing with its token |
| `JobRunnerTheorems.ReaderBeats` | scripts/reconcile_registration_readonly.py:55-63 | the reader's heartbeat keeps its lease for one lease time |
| `JobRunnerTheorems.ReaderReturns` | scripts/reconcile_registration_readonly.py:65-71 | the reader's return ends its lease and nothing else |
| `JobRunnerTheorems.NothingWaits` | control_store.py:358-370 | once the controller serves, no job is ever in the queued state, over every run |
| `JobRunnerTheorems.EndedRowRewritten` | job_runner.py:506-519 | the row of a job that is not being worked on changes only by a start of that job, the cancelling of a queued one, the recovery of a stopping one, or a tokenless finish by a thread of its own |
| `JobRunnerTheorems.TokenlessIsLate` | job_runner.py:783-794 | a tokenless finish is made only by a run whose lease was swept or that has finished before |
| `JobRunnerTheorems.OutcomeStands` | job_runner.py:579-600 | over every run of the system the row that a run has recorded for its job stays as it is until the job is started again, if no exception leaves the run's monitor |
| `JobRunnerTheorems.OutcomeRewritten` | job_runner.py:506-519 | such an exception is possible exactly after the monitor's own finish, and the handler then rewrites the job by its evidence alone, a completed one too |
| `RunLives.NormalLife` | job_runner.py:443-505 | from every reachable state a launched run that nobody disturbs is spawned, shown as running, watched and finished; the job gets the outcome of its report, and lease and active entry are gone |
| `RunLives.FailedLife` | job_runner.py:506-533 | a launch that fails at any point before the exit is seen ends with the job classified by its evidence, and lease and active entry gone |
| `Runner.JobRunnerObject.constructor` | job_runner.py:117-122 | a new runner has no runs and nothing active |
| `Runner.JobRunnerObject.Start` | job_runner.py:401-411 | refused exactly while an earlier run of the job is in the active table; otherwise it is the start step of the proved system |
| `Runner.JobRunnerObject.RetryRecoverable` | job_runner.py:654-666 | starts only a certain recoverable job with no unmatched attempt, is blocked exactly by unresolved evidence, and otherwise is a start |
| `Runner.JobRunnerObject.RetryPrewrite` | job_runner.py:668-683 | starts only a certain prewrite failure whose directory shows no attempt to either reader; it is blocked exactly by a marker or a log line that is not an exempt user-interface record |
| `Runner.JobRunnerObject.Stop` | job_runner.py:619-640 | at most one request per run, none after the agent exited; a running agent is signalled: the request and signal steps of the proved system |
| `Runner.JobRunnerObject.Heartbeat` | job_runner.py:429-436 | one round is the heartbeat step of the proved system |
| `Runner.JobRunnerObject.FinishAfterLeaseLoss` | job_runner.py:783-794 | with nothing in between it is the refused finish, the read-back and the tokenless finish of the proved system |
| `Runner.JobRunnerObject.RemoveActive` | job_runner.py:796-800 | only the run's own entry leaves the active table |
| `EndOfWork.TokenlessEndsNoWork` | job_runner.py:783-794 | a tokenless finish never ends work on any job |
| `EndOfWork.WorkEndsByEvidence` | job_runner.py:508-519 | a job stops being worked on only by a step that has read its evidence (its run's finish, expiry or recovery), and becomes uncertain exactly when that evidence is unresolved |
| `EndOfWork.InterruptedWriteHoldsTheJob` | mutation_outcome.py:30-50 | a write killed before its outcome was logged and not resolved by the operator leaves its job failed_uncertain however the work ends, and nothing later starts it again |
| `ReadLeaseRace.ReadLeaseCanBeTaken` | job_runner.py:783-794 | a run in which the tokenless finish removes an operator's read lease |
| `BrowserGate.AdmissionMeaning` | browser_gate.py:104-119 | an action is admitted exactly under AGENT/AGENT when nobody acts or the record carries the inherited lock; the marker is written first exactly when a mutation was pending |
| `BrowserGate.HandoverMeaning` | app.py:664-728 | after a takeover viewer input is forwarded and no action is admitted, after a hand-back and on a fresh record it is the reverse |
| `BrowserGate.ActionMeaning` | browser_gate.py:120-131 | a write under way is on record as a possible mutation, a cleaned-up one is not, and neither changes who has the browser |
| `BrowserGate.GateFiles.constructor` | browser_gate.py:59-66 | the record of a fresh job directory |
| `BrowserGate.GateFiles.Initialize` | browser_gate.py:59-66 | the record is overwritten whatever it said; the marker stays |
| `BrowserGate.GateFiles.RequestUser` | browser_gate.py:68-72 | only the desired owner changes |
| `BrowserGate.GateFiles.ShieldAgent` | browser_gate.py:74-78 | only the desired owner changes |
| `BrowserGate.GateFiles.EnterAction` | browser_gate.py:99-123 | entry succeeds exactly for an agent-owned record that is idle or was left under the inherited lock, and a pending mutation puts the marker on disk before the record is overwritten |
| `BrowserGate.GateFiles.LeaveAction` | browser_gate.py:125-131 | cleanup clears actor and mutation flag and keeps ownership |
| `BrowserGate.GateFiles.TakeControl` | app.py:648-676 | takeover ends in USER/USER with the human acting, whatever was recorded |
| `BrowserGate.GateFiles.ReturnToAgent` | app.py:680-745 | a running agent gets the browser back exactly when the login was verified, otherwise the record says USER/USER again; with no agent running, the record is reset exactly when it is the human's and the job is in one of the five resumable states, and is otherwise left alone |
| `WriteRouter.StepKeepsLock` | browser_gate.py:80-96 | every step keeps the kernel lock with exactly one live helper or surviving child |
| `WriteRouter.RunsKeepLock` | browser_gate.py:80-131 | so does every run of entries, child inheritance, exits and kills |
| `WriteRouter.OneHolder` | browser_gate.py:80-96 | in every reachable state at most one helper, or its surviving child, owns the gate |
| `WriteRouter.OwnershipExclusion` | app.py:611-617 | in no reachable state is an agent action, or the child of a killed one, in progress while viewer input is enabled |
| `WriteRouter.StepKeepsTrace` | browser_gate.py:99-131 | every step other than the two overwriting ones keeps the trace of an interrupted mutation |
| `WriteRouter.RunsKeepTrace` | browser_gate.py:99-131 | over every run without them the trace is there, even if recovery itself is killed |
| `WriteRouter.NoWriteAfterLoss` | browser_tool.py:110-111 | once a mutating action died before its cleanup, the gate record or the marker says so and the guard admits no write |
| `WriteRouter.TraceErasedExactly` | browser_gate.py:59-66 | the trace disappears exactly by `initialize` or a successful return to the agent, and only without a marker |
| `WriteRouter.InitializeForgets` | browser_gate.py:59-66 | a run in which re-initialising after a kill lets the next write in |
| `WriteMarks.TimedOutWriteBlocks` | browser_tool.py:373-377 | over every run, once a write has run out of time and its helper is past the marking, the marker is on disk; from the timeout itself on no write is admitted, even if the helper is killed before it has marked |
| `WriteMarks.FailedWriteBlocks` | browser_tool.py:381-390 | over every run, once a writer whose child reported a failure after a dispatched write has gone on past its marking, the marker is on disk; and no write is admitted except between the release of the gate and the marking |
| `WriteMarks.GapAdmits` | browser_tool.py:381-390 | in that gap the next writer is admitted to any free gate |
| `WriteMarks.WriteInGap` | browser_tool.py:381-390 | a run in which it is |
| `WriteMarks.MarkerStays` | browser_tool.py:110-111 | the marker stays on disk over every run, and while it is there no write is admitted |
| `WriteMarks.DeadMutationIsMarked` | browser_gate.py:104-119 | a helper that finds the record of a dead mutation gets in only with the marker on disk, which it writes first if it is missing |
| `Takeover.ViewerEndsExactly` | app.py:611-617 | while the human has the browser, exactly shielding the agent, initialising the gate or a verified return ends it |
| `Takeover.HumanKeepsBrowser` | app.py:664-676 | over every run, from a takeover or a rejected return on, viewer input is forwarded and no agent action is under way or admitted until one of those steps |
| `Takeover.RequestStopsActions` | browser_gate.py:68-72 | over every run, from a request for the browser on, no action is admitted until one of those steps |
| `Takeover.AgentResumes` | app.py:712-728 | after a verified return the viewer is off and the next action gets in |
| `AuditConservation.RunsKeepLog` | browser_tool.py:368-391 | in every reachable state the number of lines of each kind and key is the number of helpers that contributed one |
| `AuditConservation.Conservation` | browser_tool.py:368-391 | per key, attempts are rejections plus successes plus open attempts, with a kill allowed after any step |
| `AuditConservation.ReaderExactly` | mutation_outcome.py:47-48 | per key, on every log of the router and with any resolutions: the first clamp never fires, the second fires exactly when more attempts were resolved than are open, and what remains is the excess of open over resolved attempts |
| `AuditConservation.ClampsNeverFire` | mutation_outcome.py:47-48 | when the operator resolved only open attempts neither clamp fires and the unmatched count of a key is its open, unanswered attempts |
| `AuditConservation.OutcomeExactly` | mutation_outcome.py:30-50 | with any resolutions every total is a number of helpers, and unmatched is zero exactly when no key has more open attempts than resolved ones; "unresolved" is exactly that, a marker, or malformed resolutions; for logs read line by line as written (`TextOutcome` says when they are) |
| `AuditConservation.OutcomeCountsHelpers` | mutation_outcome.py:30-50 | when the operator resolved only open attempts, the unmatched count is the number of open, unanswered attempts, and "unresolved" is false exactly when there is none, no marker exists and no evidence is malformed |
| `AuditConservation.ResolvedSuccessHidesAttempt` | mutation_outcome.py:36-48 | a log in which resolving an attempt that had also succeeded hides a later open attempt of the same key |
| `AuditConservation.OutcomeWithoutResolutions` | mutation_outcome.py:48-50 | without operator resolutions the unmatched count is the number of open attempts |
| `AuditConservation.KilledStaysOpen` | browser_tool.py:381-391 | nothing that happens later changes the attempt of a killed helper |
| `AuditConservation.KilledAttemptStaysUnresolved` | browser_tool.py:381-391 | an attempt killed before its outcome was logged, even after the gate was released, keeps the job unresolved until that very attempt is resolved |
| `AuditConservation.UnnamedAttemptHoldsJob` | mutation_outcome.py:36-48 | with any resolutions file, an attempt left open by a killed helper and named by no standing entry keeps the job unresolved, unless the operator has resolved at least as many attempts of its key as are open, and so one that the log had settled |
| `AuditText.RenderPrefixFree` | browser_tool.py:36-39 | the JSON text of a record determines the record and is never a proper beginning of another record's text |
| `AuditText.SomeReaderReadsJson` | mutation_outcome.py:32-33 | a reader exists that reads every record back and rejects every proper beginning of one, which is all that is used of the JSON parser |
| `AuditText.RecordIsCut` | mutation_outcome.py:31-31 | `splitlines` cuts the text of a record exactly when one of its text fields holds U+0085, U+2028 or U+2029 |
| `AuditText.FileIsRead` | mutation_outcome.py:31-33 | a file of uncut records is read back record by record; a cut record leaves an unreadable line |
| `AuditText.TextOutcome` | mutation_outcome.py:30-50 | on the text left by every run of the router, evidence is malformed exactly by the resolutions file or a cut record; without a cut record the line-level theorems hold, with one the job is unresolved |
| `AuditRuns.WholeWrite` | browser_tool.py:368-391 | a write that succeeds or is refused before dispatch runs through on any quiet router, leaves it quiet and logs its two lines |
| `AuditRuns.RouterLeavesHiddenAttempt` | mutation_outcome.py:36-48 | a router run with a killed, open second attempt that the reader calls resolved |
| `AuditRuns.SeparatorHoldsJob` | mutation_outcome.py:31-33 | a router run without an open attempt whose log the reader calls unresolved because of a separator in a message |
| `MutationOutcome.LoadResolutions` | mutation_outcome.py:17-29 | entries are taken in order up to the first bad one, which makes the evidence malformed |
| `MutationOutcome.CountLines` | mutation_outcome.py:30-44 | the five counters of the loop, and malformed exactly when some line is bad |
| `MutationOutcome.Evaluate` | mutation_outcome.py:11-55 | the whole reader computes the outcome that the lemmas below describe |
| `MutationOutcome.MalformedExactly` | mutation_outcome.py:22-44 | the evidence is malformed exactly by an unreadable resolutions file, an entry without allowed outcome, operator, matching evidence inside the directory or usable time, or a bad line |
| `MutationOutcome.FlawedEntryHoldsJob` | mutation_outcome.py:22-29 | one such entry makes the job unresolved, whatever else is on file |
| `MutationOutcome.ResolvedExactly` | mutation_outcome.py:20-29 | an attempt is resolved exactly when an entry before the first flawed one names it |
| `MutationOutcome.LastRulingCounts` | mutation_outcome.py:27-27 | it then has the ruling of the last such entry |
| `MutationOutcome.UnansweredLineHoldsJob` | mutation_outcome.py:35-48 | a line of an attempt, also one called failed or uncertain, holds the job when nothing answers its key |
| `MutationOutcome.TallyCounts` | mutation_outcome.py:30-43 | each counter lists every key of its kind once, with the number of such lines |
| `MutationOutcome.NothingUnmatched` | mutation_outcome.py:47-48 | the two-step clamping loses nothing: unmatched is zero exactly when no key has more attempts than answers |
| `MutationOutcome.OutcomeIgnoresOrder` | mutation_outcome.py:30-50 | reordering the records changes nothing in the outcome |
| `MutationOutcome.OutcomeAsMatching` | mutation_outcome.py:47-48 | unmatched is zero exactly when every attempt can be paired one to one with a rejection, success or operator resolution of the same key |
| `MutationOutcome.MutationAttempted` | job_runner.py:820-841 | the runner's scan answers no exactly when there is no marker and every line is an exempt user-interface record |
| `MutationOutcome.ReadersAgree` | job_runner.py:820-841 | when that scan sees nothing, the reader reports no attempt and is unresolved exactly for a malformed resolutions file |
| `MutationOutcome.HarmfulLineIsSeen` | job_runner.py:820-841 | any line but an interface record with all three flags false counts as an attempt for that scan |
| `PromiseQueue.RunsKeepInv` | extensions/cvent-job-tools.ts:202-215 | the chain and map invariant holds after every run of arrivals, starts and ends |
| `PromiseQueue.OneAtATime` | extensions/cvent-job-tools.ts:202-215 | at most one operation runs per key |
| `PromiseQueue.RefinesFifo` | extensions/cvent-job-tools.ts:202-215 | the chain is a FIFO queue per key: arriving enqueues, only the head begins, ending or throwing dequeues it, other keys are unaffected |
| `PromiseQueue.HeadCanProceed` | extensions/cvent-job-tools.ts:202-215 | the head of a queue runs or may begin, so a throw never blocks the rest |
| `PromiseQueue.MapHoldsUnfinishedKeys` | extensions/cvent-job-tools.ts:210-214 | the map has an entry for a key exactly while some operation on it is unfinished |
| `ActionRound.Validate` | extensions/cvent-job-tools.ts:718-742 | the one-pass loop computes the verdict function |
| `ActionRound.VerdictMeaning` | extensions/cvent-job-tools.ts:718-742 | it accepts exactly the rounds in which every write is closed by a readback before any navigation and the end and no reference is stale; otherwise it names the first fault |
| `ActionRound.ClosedGroupHasSave` | extensions/cvent-job-tools.ts:730-738 | outside autosave, the readback that closes a write is the first one after a Save |
| `ActionRound.SavedAndRead` | extensions/cvent-job-tools.ts:718-742 | filling, clicking something named save and reading back is accepted in every mode and for every kind of readback, unless it reads by a reference from before the save |
| `ActionRound.ReadWithoutSave` | extensions/cvent-job-tools.ts:730-741 | without a save a readback suffices in autosave only, and a readback before the save does not count |
| `ActionRound.LeavingBeforeReading` | extensions/cvent-job-tools.ts:727-727 | navigating between the save and the readback is refused |
| `ActionRound.FreshSnapshotNeeded` | extensions/cvent-job-tools.ts:726-729 | after a navigation references are usable again exactly after a snapshot |
| `Utf8Chunks.Split` | extensions/cvent-job-tools.ts:745-761 | the loop with its byte counter computes the specified chunks |
| `Utf8Chunks.ChunksLossless` | extensions/cvent-job-tools.ts:745-761 | the chunks concatenate to the text, there is at least one, and none of a non-empty text is empty |
| `Utf8Chunks.ChunksWithinLimit` | extensions/cvent-job-tools.ts:745-761 | every chunk is within the limit when each code point is |
| `Utf8Chunks.GreedyStaysAhead` | extensions/cvent-job-tools.ts:745-761 | after every prefix the scan has opened no more chunks than any split, and on a tie its open chunk is no larger |
| `Utf8Chunks.GreedyIsOptimal` | extensions/cvent-job-tools.ts:745-761 | no in-order split at code-point boundaries within the limit has fewer pieces |
| `Utf8Chunks.LongTextIsSplit` | extensions/cvent-job-tools.ts:817-831 | a text over the limit has at least two chunks |
| `Utf8.EncodingIsRead` | extensions/cvent-job-tools.ts:750-750 | the encoding of section 3 of RFC 3629 has the length the chunker counts, and is read back whatever follows it |
| `Utf8.BytesAreEncoded` | extensions/cvent-job-tools.ts:750-750 | the byte count of a text is the length of its encoding |
| `Utf8.FileReadsAsStored` | extensions/cvent-job-tools.ts:829-831 | the file of a text is read back as the text with its lone surrogates replaced |
| `Utf8.ChunkFilesFit` | extensions/cvent-job-tools.ts:745-761 | every chunk is within the limit as encoded |
| `SnapshotTransport.SaveAnswers` | extensions/cvent-job-tools.ts:805-844 | over 2 MiB a refusal, up to 36 KiB the text itself, in between the first chunk, of which the second can be read next by that browser and id only |
| `SnapshotTransport.ReadAnswers` | extensions/cvent-job-tools.ts:1789-1814 | each refusal of a read exactly when, and a chunk otherwise |
| `SnapshotTransport.StoredChunks` | extensions/cvent-job-tools.ts:1802-1805 | chunking the file's text gives the stored forms of the captured text's chunks, so the counts agree |
| `SnapshotTransport.StepKeepsValid` | extensions/cvent-job-tools.ts:798-844 | captures and reads keep the pending record true to the captured text and to what was handed out |
| `SnapshotTransport.ChunksArriveInOrder` | extensions/cvent-job-tools.ts:1789-1812 | over every run the reader gets chunks 0, 1, 2, ... once each, and "complete" exactly with the last |
| `SnapshotTransport.NextChunkReadable` | extensions/cvent-job-tools.ts:1789-1812 | a next chunk can be handed out exactly while the snapshot is incomplete, the browser is the one it was captured in, and the file still holds the stored text |
| `SnapshotTransport.OrphanBlocksForEver` | extensions/cvent-job-tools.ts:798-803 | once the browser of an incomplete snapshot is replaced, every later read and guarded capture is refused and the pending record never changes |
| `SnapshotTransport.DeliveryText` | extensions/cvent-job-tools.ts:1802-1808 | at completion the reader holds the captured text with lone surrogates after the first chunk replaced |
| `SnapshotTransport.DeliveredText` | extensions/cvent-job-tools.ts:1802-1808 | it equals the captured text exactly when there is no such surrogate |
| `SnapshotTransport.LoneSurrogateIsReplaced` | extensions/cvent-job-tools.ts:829-831 | a text that is not delivered intact |
| `SnapshotTransport.Transport.constructor` | extensions/cvent-job-tools.ts:798-803 | no snapshot is pending at first |
| `SnapshotTransport.Transport.AssertConsumed` | extensions/cvent-job-tools.ts:798-803 | the check passes exactly when no chunk is outstanding |
| `SnapshotTransport.Transport.Save` | extensions/cvent-job-tools.ts:805-844 | saving, which checks nothing, is the save of the proved machine and keeps the pending record true |
| `SnapshotTransport.Transport.Read` | extensions/cvent-job-tools.ts:1789-1814 | reading a chunk, with its refusals in order, is the read step of the proved machine |
| `GuardedWork.RunsKeepInv` | extensions/cvent-job-tools.ts:202-215 | over every run of the browser tools, each has a call of its own in the queue that runs exactly while the tool is in its slot, and snapshots saved in chunks exceed those read to the end by one exactly while chunks are outstanding |
| `GuardedWork.AloneInTheSlot` | extensions/cvent-job-tools.ts:202-215 | at most one browser tool is in its slot |
| `GuardedWork.GuardedWorkExactly` | extensions/cvent-job-tools.ts:1579-1595 | a guarded tool works in the browser with chunks outstanding exactly when more snapshots were saved in chunks than were read to the end between its check and its slot |
| `GuardedWork.InSlotNeverOverUnread` | extensions/cvent-job-tools.ts:1095-1096 | a tool that checks in its slot never does |
| `GuardedWork.ChecksRefuse` | extensions/cvent-job-tools.ts:798-803 | while chunks are outstanding every check refuses its tool |
| `GuardedWork.SaveFindsNothingPending` | extensions/cvent-job-tools.ts:1124-1124 | no run of the tools overwrites a snapshot that has not been read to the end |
| `GuardedWork.ProjectsToTransport` | extensions/cvent-job-tools.ts:798-844 | every run of the tools is a run of the transport, so chunks arrive in order whatever the tools do |
| `GuardedWork.SectionActsOverUnread` | extensions/cvent-job-tools.ts:1579-1595 | for any text that needs chunks, a run in which the section tool passes its check and then works with chunks outstanding |
| `Verdict.IndexMatches` | extensions/cvent-job-tools.ts:571-575 | the first loop succeeds exactly when every match names a different item of the domain and carries evidence |
| `Verdict.IndexExceptions` | extensions/cvent-job-tools.ts:576-580 | the second loop succeeds exactly when every exception names a different, unmatched item of the domain |
| `Verdict.VerificationItemResults` | extensions/cvent-job-tools.ts:567-588 | which of the errors is reported is decided exactly; otherwise each item gets its row in order |
| `Verdict.ExactlyOneOutcome` | extensions/cvent-job-tools.ts:581-587 | for accountable inputs exactly one row fits each item |
| `Verdict.RowsAreBacked` | extensions/cvent-job-tools.ts:583-586 | a MATCH row has VERIFIED source evidence and non-empty readback evidence |
| `Verdict.JobFiles.constructor` | extensions/cvent-job-tools.ts:1410-1410 | an empty job directory satisfies the invariant |
| `Verdict.JobFiles.Prepare` | rr_validator.py:173-173 | re-validation replaces the items and leaves recorded outcomes alone |
| `Verdict.JobFiles.VerifyDomain` | extensions/cvent-job-tools.ts:1399-1416 | a domain is recorded exactly when its inputs are accountable and readback is settled; then its record accounts for each item, and other domains are untouched |
| `Verdict.JobFiles.Refuse` | extensions/cvent-job-tools.ts:1853-1920 | the early refusals in their order |
| `Verdict.JobFiles.Collect` | extensions/cvent-job-tools.ts:1921-1926 | recorded rows with later domains overriding, then the items nobody recorded |
| `Verdict.Tally` | extensions/cvent-job-tools.ts:1927-1928 | the counts by status over the recorded rows |
| `Verdict.RecordedExactly` | extensions/cvent-job-tools.ts:1921-1926 | the table of a verdict holds the last row on file of each item, and for an item without one a row that is no match |
| `Verdict.FirstComeFirst` | extensions/cvent-job-tools.ts:1921-1926 | items stand in the table in the order in which they first come up, filled-in ones last |
| `Verdict.AccuracyExactly` | extensions/cvent-job-tools.ts:1927-1928 | the counts are the numbers of items with each outcome |
| `Verdict.AcceptedExactly` | extensions/cvent-job-tools.ts:1852-1933 | a verdict is accepted exactly when nothing protected was done, INCOMPLETE names its blocker with evidence, the others name none and cover every domain of a plan that is not empty, a draft leaves nothing unresolved and every last row on file is a MATCH, and an unread write is the named blocker |
| `Verdict.AnswerIsFirstFault` | extensions/cvent-job-tools.ts:1856-1933 | otherwise the answer is the first of its faults in the order of the checks |
| `Verdict.DomainItemsInOrder` | extensions/cvent-job-tools.ts:1404-1404 | the items of a domain keep their order |
| `Verdict.StoredInPlace` | extensions/cvent-job-tools.ts:1411-1414 | recording a domain replaces its record in place or adds it at the end |
| `Verdict.JobFiles.Finish` | extensions/cvent-job-tools.ts:1852-1959 | a verdict is accepted exactly when it may stand (`AcceptedExactly`); the final items are written even when it is then refused, the report only when it is accepted |
| `Verdict.DraftCompleteIsSound` | extensions/cvent-job-tools.ts:1913-1933 | an accepted DRAFT_COMPLETE: a non-empty plan, every domain assessed, every item recorded as MATCH while VERIFIED with non-empty evidence; no protected action, blocker or unresolved item |
| `VerdictRuns.RunsKeepFiles` | extensions/cvent-job-tools.ts:1399-1416 | over every run of edits, preflights, preparations and verifications, crashes included, recorded rows belong to their domain and every MATCH is backed by evidence |
| `VerdictRuns.EditClears` | workbook_ops.py:98-109 | an edit that runs through leaves the new workbook and no expectations, recorded outcomes or validation |
| `VerdictRuns.RunsSayLast` | extensions/cvent-job-tools.ts:1145-1179 | for every item with a recorded MATCH the plan the agent reads says what the item's last verification or rebuild said |
| `VerdictRuns.DraftVerifiedExactly` | extensions/cvent-job-tools.ts:1913-1933 | an item of an accepted draft is VERIFIED exactly when no rebuild since its domain was verified left it in another status |
| `VerdictRuns.RunsKeepCurrent` | workbook_ops.py:98-109 | without a disturbance recorded matches are of items VERIFIED on the current workbook, except between the two deletions of an edit |
| `VerdictRuns.UndisturbedDraftIsVerified` | workbook_ops.py:98-109 | in a run without a new validator, a crash between replacing the workbook and deleting the outcomes, or a start during an edit, every item of an accepted draft is VERIFIED |
| `VerdictRuns.CrashedEditKeepsOutcomes` | workbook_ops.py:180-188 | a run with such a crash in which a draft with an unverified item is accepted |
| `VerdictRuns.DeployKeepsOutcomes` | job_runner.py:300-380 | the same after a new validator, because the preflight deletes no recorded outcome |
| `VerdictRuns.OvertakenEditKeepsOutcomes` | app.py:445-453 | the same for an edit that was admitted just before a start |
| `VerdictRuns.AcceptedDraftCoversEvidence` | rr_validator.py:145-164 | an accepted draft over the items of a tree of expectations has, for every outermost sourced object, a recorded MATCH with non-empty evidence |
| `VerdictRuns.PlansIdentify` | rr_validator.py:145-164 | in the plans of the compiler's trees an identity occurs once and always belongs to one domain |
| `EvidenceTree.NodesExactly` | rr_validator.py:126-136 | the generator yields exactly the outermost sourced objects of the tree, each with its path, source and desired value |
| `EvidenceTree.SourcedExactly` | rr_validator.py:126-128 | an object is sourced exactly when its "source" is a text |
| `EvidenceTree.DesiredExactly` | rr_validator.py:129-129 | what an item asks for is the "value" of its object, or without one all of the object but the source |
| `EvidenceTree.PathsPrefixFree` | rr_validator.py:126-136 | no evidence path is a prefix of another |
| `EvidenceTree.DecimalInjective` | rr_validator.py:134-136 | different list indices give different path components |
| `EvidenceTree.IdentityInjective` | rr_validator.py:147-147 | with keys free of the separators the text an id digests determines path and source |
| `EvidenceTree.SeparatorsClash` | rr_validator.py:147-147 | a tree, not one the compiler writes, whose two items share that text: why the keys must be free of separators |
| `ExecutionPlan.OrderIsGood` | rr_validator.py:23-27 | the fifteen domain names are distinct and free of separators |
| `ExecutionPlan.DomainItems` | rr_validator.py:146-164 | the inner loop gives one item per evidence node of the domain |
| `ExecutionPlan.BuildItems` | rr_validator.py:145-164 | the nested loops give one item per evidence node of the whole tree, in plan order |
| `ExecutionPlan.NodesOfDomains` | rr_validator.py:145-146 | the nodes are exactly those of the trees of the listed domains, each below its domain |
| `ExecutionPlan.ItemMeaning` | rr_validator.py:147-164 | an item shows its domain, its path joined by slashes, the path and source as its identity, and the judgement of its value |
| `ExecutionPlan.BuildPlan` | rr_validator.py:174-179 | one section per domain, in order, with its verified ids and held items |
| `ExecutionPlan.PlanListsEveryItem` | rr_validator.py:174-179 | the sections together list exactly the items, each as often as it occurs and under its own status |
| `ExecutionPlan.HeldIsUnverified` | rr_validator.py:179-179 | nothing VERIFIED is held |
| `ExecutionPlan.AllPathsPrefixFree` | rr_validator.py:145-147 | over all domains no evidence path is a prefix of another |
| `ExecutionPlan.ItemsDistinct` | rr_validator.py:147-147 | over all domains item identities are pairwise distinct |
| `ExecutionPlan.PlanAccountsForEvidence` | rr_validator.py:139-181 | every outermost sourced object of the expectations is listed in the plan exactly once |
| `QuestionRecords.RowFields` | rr_compiler.py:189-197 | the loop computes the fields of a row |
| `QuestionRecords.FieldPresent` | rr_compiler.py:189-197 | a field is present exactly for a resolved column with a value, with that value and cell |
| `QuestionRecords.FindDefinitions` | rr_compiler.py:289-292 | the definition rows are exactly the rows with a displayed text and some metadata, ascending |
| `QuestionRecords.ScanSegment` | rr_compiler.py:297-308 | one pass over a segment collects its choices and continuation texts |
| `QuestionRecords.ReadQuestion` | rr_compiler.py:294-316 | one question, or failure exactly when it has choices and an answer column is unresolved |
| `QuestionRecords.ReadAll` | rr_compiler.py:293-317 | one question per definition, in order |
| `QuestionRecords.QuestionRecords` | rr_compiler.py:269-317 | the function fails exactly when some question has choices and an answer column is unresolved; otherwise its records are the segments |
| `QuestionRecords.ChoicesExactly` | rr_compiler.py:297-304 | the choices of a question are its answer rows, each once and in order, with code, text and source cells from the right columns |
| `QuestionRecords.QuestionMeaning` | rr_compiler.py:294-316 | which cells a question shows, and which rows and columns it names as their source |
| `QuestionRecords.NearestDefinition` | rr_compiler.py:294-299 | each non-definition row after the first definition belongs to exactly its nearest preceding definition |
| `QuestionRecords.SegmentationLosesNothing` | rr_compiler.py:294-316 | the choice lists in order are the choices of all non-definition rows from the first definition on, and the displayed texts in order are the texts of all rows |
| `QuestionRecords.UnreadableExactly` | rr_compiler.py:309-310 | with an answer column unresolved the sheet fails exactly when any row from the first definition on would give a choice |

## Left out

- ExecutionPlan.ItemsDistinct: identities are shown distinct for keys without `/` and `|` (all keys the compiler writes); for other keys they may or may not clash, and the digest (SHA-256, cut to 20 digits) is taken as injective.
- EvidenceTree.IdentityInjective: same restriction on keys.
- AuditConservation.OutcomeExactly: of logs whose lines are read as they were written; TextOutcome is about the text.
- AuditConservation.ClampsNeverFire: assumes the operator's resolutions name only attempts the log leaves open; ReaderExactly says what happens otherwise.
- AuditConservation.OutcomeCountsHelpers: same assumption; OutcomeExactly is without it.
- AuditConservation.KilledAttemptStaysUnresolved: same assumption, because without it the statement is false (ResolvedSuccessHidesAttempt).
- EndOfWork.InterruptedWriteHoldsTheJob: same assumption, for the same reason.
- ExecutionPlan.PlanAccountsForEvidence: same restriction on keys as ItemsDistinct.
- LeasePairing.MarkRunningKeepsPairs: read tokens are excluded, because with one the statement is false (ReadTokenMustNotMarkRunning); only the runner calls it, with its own token.
- LeaseRuns.SingleWriter: about the answer of the lease service; outside production the guard skips the question when no job id is set.
- JobRunnerTheorems.OutcomeStands: excludes an exception out of the run's own monitor, because with one the statement is false (OutcomeRewritten).
- VerdictRuns.DraftVerifiedExactly: an identity is taken to occur once in a plan and to keep its domain; PlansIdentify shows it for keys without `/` and `|`.
- VerdictRuns.UndisturbedDraftIsVerified: excludes the three disturbances, because with each the statement is false (the three runs above).
- VerdictRuns.AcceptedDraftCoversEvidence: the items are those of the tree under the plan's order; expectations that the compiler has but the tree lacks are not spoken of.
- WriteMarks.FailedWriteBlocks: excludes the gap between release and marking, because in it the statement is false (WriteInGap), and the two steps that erase the gate record.
- WriteRouter.NoWriteAfterLoss: excludes `initialize` and a successful return to the agent, which erase the record (TraceErasedExactly).
- Timestamps.IsoOrder: years 1 to 9999 as in Python's `datetime`, UTC only.
- `cvent_login_handoff`, `cvent_open_event` and simple mode never check for unread chunks: in `GuardedWork` they are the tool that never checks, about which nothing is promised.
- The browser tools and the life of a job directory (`GuardedWork`, `VerdictRuns`) are step relations over values; awaits inside a slot are not split further, and a tool that throws ends its slot early.
- Records whose text holds a lone surrogate cannot be written as UTF-8; the failure of that append is not modelled. A Dafny `char` stands for a Unicode scalar value.
- Router processes, the promise queue and the interleaving of the runner's threads are step relations over values: a lock's critical section is one step, and aliasing is not captured. The runner object's methods are one thread's uninterrupted work; `_launch` and `_monitor`, which are interrupted between every two of their steps, exist as steps only.
- `resume` sets a flag in a file and calls `start`; the flag is not modelled.
- Each JSON read-modify-write of the gate, and each append of a log line, is one atomic step; the unlocked window in `request_user` and `shield_agent`, partial lines and file-system errors are not modelled.
- The gate write of `cvent_login_handoff` and the viewer filter's window between reading the record and forwarding one message.
- Each `BEGIN IMMEDIATE` block is one atomic transition; SQLite errors, the audit table, error texts and the other timestamps of a job row are not modelled.
- The tokenless finish that the upload route issues when no job file could be stored.
- Tokens are fresh, SHA-256 is injective, and instants are integers in the store model (justified by `Timestamps`).
- The start scheduler's clean-up of old process ids, resource limits, and the performance monitor threads.
- Simple mode, `validateAtomicSteps` (given as the answer `atomic`), `planNativeRound`, `firstIncompleteDomain` and `DomainProgressGuard`: their `.mjs` files are not part of this model.
- `guard`, `validate_action_round` and target checks other than the uncertainty marker: filters that can only refuse before an attempt is logged (the step `AbortBody`).
- Regular expressions for labels, references and URLs, column header aliases and cell cleaning: given as predicates or resolved columns.
- The comparison of a desired value with its source cells (`independently_supported`) is an arbitrary function of the item; section contexts and raw values are dropped.
- Telemetry, domain results and activity logs.
- Completing a snapshot also clears a pending write-readback marker; that marker is an input of the verdict model only.
- HTTP routes, authentication, Key Vault, Docker and browser lifecycle, provider probes, prompts, reports and one-off operator scripts.
