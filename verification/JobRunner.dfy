/**
 The runner's threads (`job_runner.py`) interleaved step by step with each other,
 with the control store, with the operator's read-only borrower, and with the
 death and restart of the whole controller.

 A run is named by its lease token.  Each run has one launch/monitor thread, whose
 position is the run's `pc`; its heartbeat thread and the threads that serve Stop
 requests appear as steps of their own.
 */
module JobRunner {
  import opened Wrappers
  import opened ControlStore
  import opened LeasePairing

  // ---- how a run ends ------------------------------------------------------

  datatype Report = DraftComplete | ReviewRequiredReport | OtherReport

  /** `classify_process_outcome`: the state and the uncertain flag. */
  function Classify(code: int, report: Report, loginReported: bool, e: Evidence): (JobState, bool) {
    if e.unresolved then (FailedUncertain, true)
    else if code == 0 && report == DraftComplete then (Completed, false)
    else if code == 0 && report == ReviewRequiredReport then (ReviewRequired, false)
    else if loginReported then (LoginRequired, false)
    else (if e.hasAttempts then FailedRecoverable else FailedPrewrite, false)
  }

  /** What the finishing thread has read: the evidence, and for an exited agent what it left behind. */
  datatype Ending =
    | LaunchFailed(evidence: Evidence)
    | AgentExited(code: int, report: Report, loginReported: bool, controllerFailure: bool, evidence: Evidence)

  /** A recorded stop request or controller failure overrides what the agent reported. */
  function FinalState(e: Ending, stopRecorded: bool): (JobState, bool) {
    match e
    case LaunchFailed(evidence) => (InterruptedState(evidence), evidence.unresolved)
    case AgentExited(code, report, login, failure, evidence) =>
      if failure || stopRecorded then Classify(1, OtherReport, false, evidence)
      else Classify(code, report, login, evidence)
  }

  /** Unresolved evidence, and nothing else, ends a run as uncertain; success needs a clean report. */
  lemma EndingIsFailClosed(e: Ending, stopRecorded: bool)
    ensures var (st, u) := FinalState(e, stopRecorded);
      && FinishState(st)
      && (u <==> e.evidence.unresolved) && (st == FailedUncertain <==> e.evidence.unresolved)
      && (st == Completed ==> e.AgentExited? && e.code == 0 && e.report == DraftComplete && !stopRecorded)
      && (st == FailedPrewrite ==> !e.evidence.hasAttempts)
  {}

  /** The agent's own report counts: it exited by itself, nobody stopped it and no browser failure was recorded. */
  predicate Heard(e: Ending, stopRecorded: bool) { e.AgentExited? && !e.controllerFailure && !stopRecorded }

  /** When a run ends in which state. */
  lemma EndingExactly(e: Ending, stopRecorded: bool)
    ensures var st := FinalState(e, stopRecorded).0;
      var clean := !e.evidence.unresolved && Heard(e, stopRecorded);
      var judged := clean && e.code == 0 && e.report in {DraftComplete, ReviewRequiredReport};
      && (st == FailedUncertain <==> e.evidence.unresolved)
      && (st == Completed <==> judged && e.report == DraftComplete)
      && (st == ReviewRequired <==> judged && e.report == ReviewRequiredReport)
      && (st == LoginRequired <==> clean && !judged && e.loginReported)
      && (st == FailedRecoverable <==>
            !e.evidence.unresolved && !judged && !(clean && e.loginReported) && e.evidence.hasAttempts)
      && (st == FailedPrewrite <==>
            !e.evidence.unresolved && !judged && !(clean && e.loginReported) && !e.evidence.hasAttempts)
  {}

  // ---- runs ----------------------------------------------------------------

  datatype Pc =
    | Launching                                   // before the spawn
    | Spawned                                     // agent started, job not yet marked running
    | Watching                                    // waiting for the agent to exit
    | Finishing                                   // agent exited, outcome being settled
    | Failing                                     // in the exception handler of the launch thread
    | LeaseLost(state: JobState, uncertain: bool, monitored: bool)                 // finish refused
    | Settling(state: JobState, uncertain: bool, monitored: bool, seen: bool)      // job re-read
    | Released(monitored: bool)                   // finish done
    | Gone                                        // removed from the active table
    | Dead                                        // the controller died under it

  datatype Process = NotSpawned | Alive | Exited

  /** A stop request: none, one that found no process, or one that owes or has sent its signal. */
  datatype Stop = NoStop | StopBeforeSpawn | SignalDue | SignalSent

  datatype Run = Run(job: JobId, pc: Pc, process: Process, stop: Stop, signalled: bool, released: bool)

  predicate OnThread(pc: Pc) { pc != Gone && pc != Dead }

  /** The thread has not yet called `finish`, as far as the run's position tells. */
  predicate BeforeFinish(pc: Pc) {
    pc == Launching || pc == Spawned || pc == Watching || pc == Finishing || pc == Failing
  }

  datatype Phase = Down | Recovering | Up

  /** `swept`: run tokens whose leases expiry or recovery took away. */
  datatype Sys = Sys(store: Store, readers: set<Token>, runs: map<Token, Run>,
                     active: map<JobId, Token>, phase: Phase, swept: set<Token>)

  ghost function IssuedIn(s: Sys): Issued { Issued(s.runs.Keys, s.readers) }

  datatype Step =
    | Create(job: JobId, event: EventId, key: nat, preferred: Option<Slot>)
    | Start(job: JobId, now: int, token: Token, evidence: JobId -> Evidence)
    | LaunchRaises(run: Token)
    | Spawn(run: Token)
    | MarkRun(run: Token, pid: int)
    | ProcessExits(run: Token)
    | MonitorSeesExit(run: Token)
    | MonitorRaises(run: Token)
    | FinishRun(run: Token, ending: Ending)
    | ReadBack(run: Token)
    | FinishTokenless(run: Token)
    | RemoveActive(run: Token)
    | StopRequest(job: JobId)
    | SendSignal(run: Token)
    | HeartbeatRun(run: Token, now: int)
    | BorrowRead(job: JobId, key: nat, token: Token, now: int, expires: int)
    | BeatRead(job: JobId, token: Token, now: int)
    | ReturnRead(job: JobId, token: Token)
    | Crash
    | Recover(evidence: JobId -> Evidence)
    | CancelOldQueue

  ghost predicate Enabled(s: Sys, step: Step) {
    match step
    case Create(_, _, _, _) => true
    // `start` refuses a job whose earlier run is still in `_active`
    case Start(job, _, token, _) => s.phase == Up && job !in s.active && token !in s.runs && token !in s.readers
    // before the spawn, or after it: marking the job or writing its state fails and nobody stops the agent
    case LaunchRaises(t) => t in s.runs && s.runs[t].pc in {Launching, Spawned, Watching}
    // under the lifecycle lock, after the last stop check
    case Spawn(t) => t in s.runs && s.runs[t].pc == Launching && s.runs[t].stop == NoStop
    case MarkRun(t, _) => t in s.runs && s.runs[t].pc == Spawned
    case ProcessExits(t) => t in s.runs && s.runs[t].process == Alive
    case MonitorSeesExit(t) => t in s.runs && s.runs[t].pc == Watching && s.runs[t].process == Exited
    // an exception leaves `_monitor` for the handler of `_launch`, possibly after its own finish
    case MonitorRaises(t) => t in s.runs && (s.runs[t].pc == Finishing || s.runs[t].pc == Released(true))
    case FinishRun(t, ending) => t in s.runs
      && ((s.runs[t].pc == Finishing && ending.AgentExited?) || (s.runs[t].pc == Failing && ending.LaunchFailed?))
    case ReadBack(t) => t in s.runs && s.runs[t].pc.LeaseLost?
    case FinishTokenless(t) => t in s.runs && s.runs[t].pc.Settling?
    case RemoveActive(t) => t in s.runs && s.runs[t].pc.Released?
    // under the lifecycle lock
    case StopRequest(job) => job in s.active && s.active[job] in s.runs
      && s.runs[s.active[job]].stop == NoStop && s.runs[s.active[job]].process != Exited
    case SendSignal(t) => t in s.runs && s.runs[t].stop == SignalDue
    case HeartbeatRun(t, _) => t in s.runs && s.phase == Up
    case BorrowRead(_, _, token, _, _) => token !in s.runs && token !in s.readers
    case BeatRead(_, token, _) => token in s.readers
    case ReturnRead(_, token) => token in s.readers
    case Crash => s.phase != Down
    case Recover(_) => s.phase == Down
    case CancelOldQueue => s.phase == Recovering
  }

  /** Run tokens that held their pair before and do not now. */
  ghost function LostRuns(s: Sys, after: Store): set<Token> {
    set t | t in s.runs && Holds(s.store, s.runs[t].job, t) && !Holds(after, s.runs[t].job, t)
  }

  ghost function WithRun(s: Sys, t: Token, r: Run): Sys { s.(runs := s.runs[t := r]) }

  ghost function Do(s: Sys, c: Config, step: Step): Sys
    requires Enabled(s, step)
  {
    match step
    case Create(job, event, key, preferred) => s.(store := CreateJob(s.store, c, job, event, key, preferred))
    case Start(job, now, token, evidence) =>
      var (store, r) := ReserveNow(s.store, c, job, now, token, evidence);
      var t := s.(store := store, swept := s.swept + LostRuns(s, store));
      if r.Err? then t
      else t.(runs := t.runs[token := Run(job, Launching, NotSpawned, NoStop, false, false)],
              active := t.active[job := token])
    case LaunchRaises(t) => WithRun(s, t, s.runs[t].(pc := Failing))
    case Spawn(t) => WithRun(s, t, s.runs[t].(pc := Spawned, process := Alive))
    case MarkRun(t, pid) =>
      var r := s.runs[t];
      var (store, ok) := MarkRunning(s.store, r.job, t, pid);
      WithRun(s.(store := store), t, if ok then r.(pc := Watching) else r.(pc := Failing, signalled := true))
    case ProcessExits(t) => WithRun(s, t, s.runs[t].(process := Exited))
    case MonitorSeesExit(t) => WithRun(s, t, s.runs[t].(pc := Finishing))
    case MonitorRaises(t) => WithRun(s, t, s.runs[t].(pc := Failing))
    case FinishRun(t, ending) =>
      var r := s.runs[t];
      var (st, u) := FinalState(ending, r.stop.SignalDue? || r.stop.SignalSent?);
      var (store, result) := Finish(s.store, r.job, Some(t), st, u);
      if result.Ok? then WithRun(s.(store := store), t, r.(pc := Released(ending.AgentExited?), released := true))
      else WithRun(s, t, r.(pc := LeaseLost(st, u, ending.AgentExited?)))
    case ReadBack(t) =>
      var r := s.runs[t];
      var seen := r.job in s.store.jobs && s.store.jobs[r.job].uncertain;
      WithRun(s, t, r.(pc := Settling(r.pc.state, r.pc.uncertain, r.pc.monitored, seen)))
    case FinishTokenless(t) =>
      var r := s.runs[t];
      var st := if r.pc.seen then FailedUncertain else r.pc.state;
      var store := Finish(s.store, r.job, None, st, r.pc.uncertain || r.pc.seen).0;
      WithRun(s.(store := store), t, r.(pc := Released(r.pc.monitored)))
    case RemoveActive(t) =>
      var r := s.runs[t];
      WithRun(if r.job in s.active && s.active[r.job] == t then s.(active := s.active - {r.job}) else s,
              t, r.(pc := Gone))
    case StopRequest(job) =>
      var t := s.active[job];
      WithRun(s, t, s.runs[t].(stop := if s.runs[t].process == Alive then SignalDue else StopBeforeSpawn))
    case SendSignal(t) => WithRun(s, t, s.runs[t].(stop := SignalSent, signalled := true))
    case HeartbeatRun(t, now) =>
      var r := s.runs[t];
      var (store, ok) := Heartbeat(s.store, c, r.job, t, now);
      WithRun(s.(store := store), t, if ok || r.process != Alive then r else r.(signalled := true))
    case BorrowRead(job, key, token, now, expires) =>
      var (store, ok) := Borrow(s.store, job, key, token, now, expires);
      s.(store := store, readers := if ok then s.readers + {token} else s.readers)
    case BeatRead(job, token, now) => s.(store := Heartbeat(s.store, c, job, token, now).0)
    case ReturnRead(job, token) => s.(store := Return(s.store, job, token))
    case Crash =>
      s.(phase := Down, active := map[],
         runs := map t | t in s.runs :: if OnThread(s.runs[t].pc) then s.runs[t].(pc := Dead) else s.runs[t])
    case Recover(evidence) =>
      var store := Recovered(s.store, evidence);
      s.(phase := Recovering, store := store, swept := s.swept + LostRuns(s, store))
    case CancelOldQueue => s.(phase := Up, store := CancelQueued(s.store))
  }

  /** Power-on over any old database; nothing is served before recovery. */
  ghost function PowerOn(database: Store, evidence: JobId -> Evidence): Sys {
    Sys(Recovered(database, evidence), {}, map[], map[], Recovering, {})
  }

  ghost function After(s: Sys, c: Config, steps: seq<Step>): Option<Sys>
    decreases |steps|
  {
    if steps == [] then Some(s)
    else
      var before := After(s, c, steps[..|steps| - 1]);
      if before.Some? && Enabled(before.value, steps[|steps| - 1])
      then Some(Do(before.value, c, steps[|steps| - 1])) else None
  }

  // ---- the invariant -------------------------------------------------------

  ghost predicate Uncertain(store: Store, j: JobId) {
    j in store.jobs && store.jobs[j].state == FailedUncertain && store.jobs[j].uncertain
  }

  /** What is true of a run by itself. */
  ghost predicate RunOk(r: Run) {
    && (r.stop == StopBeforeSpawn ==> r.process == NotSpawned)
    && (r.stop == SignalDue || r.stop == SignalSent ==> r.process != NotSpawned)
    && (r.stop == SignalSent ==> r.signalled)
    && (r.pc == Launching ==> r.process == NotSpawned && !r.released)
    && (r.pc == Spawned || r.pc == Watching ==> r.process != NotSpawned && !r.released)
    && (r.pc == Finishing ==> r.process == Exited && !r.released)
    && (r.pc.LeaseLost? || r.pc.Settling? ==>
          FinishState(r.pc.state) && (r.pc.uncertain <==> r.pc.state == FailedUncertain))
    && (r.pc.LeaseLost? || r.pc.Settling? || r.pc.Released? ==> (r.pc.monitored ==> r.process == Exited))
  }

  /** A run and the store: who holds its pair, and what a settling thread has seen. */
  ghost predicate RunFits(s: Sys, t: Token)
    requires t in s.runs
  {
    var r := s.runs[t];
    && RunOk(r) && r.job in s.store.jobs
    && (OnThread(r.pc) ==> r.job in s.active && s.active[r.job] == t)
    && (Holds(s.store, r.job, t) ==>
          !r.released && t !in s.swept && (BeforeFinish(r.pc) || (r.pc == Dead && s.phase == Down)))
    && (OnThread(r.pc) ==> Holds(s.store, r.job, t) || t in s.swept || r.released)
    && (r.pc.Settling? ==> (Uncertain(s.store, r.job) ==> r.pc.seen))
  }

  ghost predicate ActiveOk(s: Sys) {
    && (forall j <- s.active :: s.active[j] in s.runs && s.runs[s.active[j]].job == j)
    && (s.phase != Up ==> s.active == map[])
  }

  ghost predicate HoldersOk(s: Sys) {
    && (forall j, t | Holds(s.store, j, t) && t in s.runs :: s.runs[t].job == j)
    && s.swept <= s.runs.Keys
  }

  ghost predicate AllFit(s: Sys) { forall t <- s.runs :: RunFits(s, t) }

  /** Runs, active table and store agree. */
  ghost predicate Fits(s: Sys) { AllFit(s) && ActiveOk(s) && HoldersOk(s) }

  ghost predicate Inv(s: Sys, c: Config) { Paired(s.store, c, IssuedIn(s)) && Fits(s) }
}
