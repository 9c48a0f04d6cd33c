/** Whole lives of a run that nobody disturbs, from its launch to its removal from the active table. */
module RunLives {
  import opened Wrappers
  import opened ControlStore
  import opened LeasePairing
  import opened StoreAnswers
  import opened JobRunner
  import opened JobRunnerProofs
  import opened JobRunnerTheorems

  lemma Onwards(s0: Sys, c: Config, before: seq<Step>, start: Sys, step: Step) returns (steps: seq<Step>, s: Sys)
    requires After(s0, c, before) == Some(start) && Enabled(start, step)
    ensures steps == before + [step] && After(s0, c, steps) == Some(s) && s == Do(start, c, step)
  {
    steps, s := before + [step], Do(start, c, step);
    assert steps[..|before|] == before;
  }

  /** The run is the job's, holds its lease and has not been asked to stop. */
  ghost predicate Holding(s: Sys, c: Config, t: Token, job: JobId, pc: Pc, process: Process) {
    && Inv(s, c) && t in s.runs && Holds(s.store, job, t)
    && s.runs[t] == Run(job, pc, process, NoStop, s.runs[t].signalled, false)
  }

  lemma Spawns(s: Sys, c: Config, t: Token, job: JobId)
    requires Holding(s, c, t, job, Launching, NotSpawned)
    ensures Enabled(s, Spawn(t)) && Holding(Do(s, c, Spawn(t)), c, t, job, Spawned, Alive)
  {
    LaunchLocalFits(s, c, Spawn(t));
    StepKeepsInv(s, c, Spawn(t));
  }

  lemma IsMarked(s: Sys, c: Config, t: Token, job: JobId, pid: int)
    requires Holding(s, c, t, job, Spawned, Alive)
    ensures Enabled(s, MarkRun(t, pid)) && Holding(Do(s, c, MarkRun(t, pid)), c, t, job, Watching, Alive)
    ensures var row := Do(s, c, MarkRun(t, pid)).store.jobs; job in row && row[job].state == Running && row[job].pid == Some(pid)
  {
    MarkedOrStopped(s, c, t, pid);
    MarkRunningKeepsPairs(s.store, c, IssuedIn(s), job, t, pid);
    StepKeepsInv(s, c, MarkRun(t, pid));
  }

  lemma Exits(s: Sys, c: Config, t: Token, job: JobId)
    requires Holding(s, c, t, job, Watching, Alive)
    ensures Enabled(s, ProcessExits(t)) && Holding(Do(s, c, ProcessExits(t)), c, t, job, Watching, Exited)
  {
    OtherLocalFits(s, c, ProcessExits(t));
    StepKeepsInv(s, c, ProcessExits(t));
  }

  lemma IsSeen(s: Sys, c: Config, t: Token, job: JobId)
    requires Holding(s, c, t, job, Watching, Exited)
    ensures Enabled(s, MonitorSeesExit(t)) && Holding(Do(s, c, MonitorSeesExit(t)), c, t, job, Finishing, Exited)
  {
    LaunchLocalFits(s, c, MonitorSeesExit(t));
    StepKeepsInv(s, c, MonitorSeesExit(t));
  }

  lemma Fails(s: Sys, c: Config, t: Token, job: JobId, pc: Pc, process: Process)
    requires Holding(s, c, t, job, pc, process) && pc in {Launching, Spawned, Watching}
    ensures Enabled(s, LaunchRaises(t)) && Holding(Do(s, c, LaunchRaises(t)), c, t, job, Failing, process)
  {
    LaunchLocalFits(s, c, LaunchRaises(t));
    StepKeepsInv(s, c, LaunchRaises(t));
  }

  /** The job has this outcome, is under nobody's lease and may be worked on by a new run. */
  ghost predicate Over(s: Sys, c: Config, t: Token, job: JobId, state: JobState, uncertain: bool) {
    && Inv(s, c) && t in s.runs && s.runs[t].pc == Gone && job !in s.active
    && job in s.store.jobs && s.store.jobs[job].state == state && s.store.jobs[job].uncertain == uncertain
    && !Holds(s.store, job, t)
  }

  /** Finishing and leaving the active table. */
  lemma Ends(s0: Sys, c: Config, before: seq<Step>, s: Sys, t: Token, job: JobId, pc: Pc, process: Process, ending: Ending)
    returns (steps: seq<Step>, end: Sys)
    requires After(s0, c, before) == Some(s) && Holding(s, c, t, job, pc, process)
    requires (pc == Finishing && ending.AgentExited?) || (pc == Failing && ending.LaunchFailed?)
    ensures steps == before + [FinishRun(t, ending)] + [RemoveActive(t)] && After(s0, c, steps) == Some(end)
    ensures Over(end, c, t, job, FinalState(ending, false).0, FinalState(ending, false).1)
  {
    Finishes(s, c, t, job, pc, process, ending);
    var finished: Sys;
    steps, finished := Onwards(s0, c, before, s, FinishRun(t, ending));
    Leaves(finished, c, t, job, FinalState(ending, false).0, FinalState(ending, false).1);
    steps, end := Onwards(s0, c, steps, finished, RemoveActive(t));
  }

  /** The job has its outcome, and the run is past its release. */
  ghost predicate LettingGo(s: Sys, c: Config, t: Token, job: JobId, state: JobState, uncertain: bool) {
    && Inv(s, c) && t in s.runs && s.runs[t].job == job && s.runs[t].pc.Released? && !Holds(s.store, job, t)
    && job in s.store.jobs && s.store.jobs[job].state == state && s.store.jobs[job].uncertain == uncertain
  }

  lemma Finishes(s: Sys, c: Config, t: Token, job: JobId, pc: Pc, process: Process, ending: Ending)
    requires Holding(s, c, t, job, pc, process)
    requires (pc == Finishing && ending.AgentExited?) || (pc == Failing && ending.LaunchFailed?)
    ensures Enabled(s, FinishRun(t, ending))
    ensures var (state, uncertain) := FinalState(ending, false);
      LettingGo(Do(s, c, FinishRun(t, ending)), c, t, job, state, uncertain)
  {
    FinishRecords(s, c, t, ending);
    StepKeepsInv(s, c, FinishRun(t, ending));
  }

  lemma Leaves(s: Sys, c: Config, t: Token, job: JobId, state: JobState, uncertain: bool)
    requires LettingGo(s, c, t, job, state, uncertain)
    ensures Enabled(s, RemoveActive(t)) && Over(Do(s, c, RemoveActive(t)), c, t, job, state, uncertain)
  {
    assert RunFits(s, t);
    StepKeepsInv(s, c, RemoveActive(t));
  }

  /**
   A run that nobody disturbs: its agent is spawned, shown as running and watched; when
   it exits the job gets the outcome of its report, and the lease and the entry in the
   active table are gone.
   */
  lemma NormalLife(s: Sys, c: Config, t: Token, job: JobId, pid: int, ending: Ending) returns (steps: seq<Step>, end: Sys)
    requires Holding(s, c, t, job, Launching, NotSpawned) && ending.AgentExited?
    ensures After(s, c, steps) == Some(end)
    ensures steps == [Spawn(t)] + [MarkRun(t, pid)] + [ProcessExits(t)] + [MonitorSeesExit(t)]
      + [FinishRun(t, ending)] + [RemoveActive(t)]
    ensures Over(end, c, t, job, FinalState(ending, false).0, FinalState(ending, false).1)
  {
    var u: Sys;
    Spawns(s, c, t, job);
    steps, u := Onwards(s, c, [], s, Spawn(t));
    IsMarked(u, c, t, job, pid);
    steps, u := Onwards(s, c, steps, u, MarkRun(t, pid));
    Exits(u, c, t, job);
    steps, u := Onwards(s, c, steps, u, ProcessExits(t));
    IsSeen(u, c, t, job);
    steps, u := Onwards(s, c, steps, u, MonitorSeesExit(t));
    steps, end := Ends(s, c, steps, u, t, job, Finishing, Exited, ending);
  }

  /** A launch that fails at any point before the exit is seen: the job is classified by its evidence, and all is let go. */
  lemma FailedLife(s: Sys, c: Config, t: Token, job: JobId, pc: Pc, process: Process, e: Evidence)
    returns (steps: seq<Step>, end: Sys)
    requires Holding(s, c, t, job, pc, process) && pc in {Launching, Spawned, Watching}
    ensures After(s, c, steps) == Some(end)
    ensures steps == [LaunchRaises(t)] + [FinishRun(t, LaunchFailed(e))] + [RemoveActive(t)]
    ensures Over(end, c, t, job, InterruptedState(e), e.unresolved)
  {
    var u: Sys;
    Fails(s, c, t, job, pc, process);
    steps, u := Onwards(s, c, [], s, LaunchRaises(t));
    steps, end := Ends(s, c, steps, u, t, job, Failing, process, LaunchFailed(e));
  }
}
