/**
 The runner object of `job_runner.py`: its active table, its runs and the store it
 drives.  Each method is one thread's work without interruption, and is shown to be
 the corresponding steps of the interleaved system.
 */
module Runner {
  import opened Wrappers
  import opened ControlStore
  import opened LeasePairing
  import opened JobRunner
  import Outcome = MutationOutcome

  datatype StartError = StillClosing | Rejected(why: Refusal)

  datatype RetryError = NotRetryable | EvidenceBlocks | StartFailed(why: StartError)

  /** The steps of `_finish_after_lease_loss` when nothing comes between them. */
  ghost function Settled(s: Sys, c: Config, t: Token, ending: Ending): Sys
    requires Enabled(s, FinishRun(t, ending))
  {
    var finished := Do(s, c, FinishRun(t, ending));
    if !finished.runs[t].pc.LeaseLost? then finished
    else
      var seen := Do(finished, c, ReadBack(t));
      Do(seen, c, FinishTokenless(t))
  }

  lemma SettledHeld(s: Sys, c: Config, t: Token, ending: Ending, st: JobState, u: bool)
    requires Enabled(s, FinishRun(t, ending))
    requires FinalState(ending, s.runs[t].stop.SignalDue? || s.runs[t].stop.SignalSent?) == (st, u)
    requires Finish(s.store, s.runs[t].job, Some(t), st, u).1.Ok?
    ensures var r := s.runs[t];
      Settled(s, c, t, ending) == WithRun(s.(store := Finish(s.store, r.job, Some(t), st, u).0), t,
                                          r.(pc := Released(ending.AgentExited?), released := true))
  {}

  lemma RefusedStep(s: Sys, c: Config, t: Token, ending: Ending, st: JobState, u: bool)
    requires Enabled(s, FinishRun(t, ending))
    requires FinalState(ending, s.runs[t].stop.SignalDue? || s.runs[t].stop.SignalSent?) == (st, u)
    requires Finish(s.store, s.runs[t].job, Some(t), st, u).1.Err?
    ensures Do(s, c, FinishRun(t, ending)) == WithRun(s, t, s.runs[t].(pc := LeaseLost(st, u, ending.AgentExited?)))
  {}

  lemma ReadStep(s: Sys, c: Config, t: Token, r: Run, st: JobState, u: bool, monitored: bool)
    requires t in s.runs
    ensures var lost, seen := LeaseLost(st, u, monitored), r.job in s.store.jobs && s.store.jobs[r.job].uncertain;
      && Enabled(WithRun(s, t, r.(pc := lost)), ReadBack(t))
      && Do(WithRun(s, t, r.(pc := lost)), c, ReadBack(t)) == WithRun(s, t, r.(pc := Settling(st, u, monitored, seen)))
  {
    var lost, seen := LeaseLost(st, u, monitored), r.job in s.store.jobs && s.store.jobs[r.job].uncertain;
    assert s.runs[t := r.(pc := lost)][t := r.(pc := Settling(st, u, monitored, seen))]
      == s.runs[t := r.(pc := Settling(st, u, monitored, seen))];
  }

  lemma TokenlessStep(s: Sys, c: Config, t: Token, r: Run, st: JobState, u: bool, monitored: bool, seen: bool)
    requires t in s.runs
    ensures var settling := WithRun(s, t, r.(pc := Settling(st, u, monitored, seen)));
      var store := Finish(s.store, r.job, None, if seen then FailedUncertain else st, u || seen).0;
      && Enabled(settling, FinishTokenless(t))
      && Do(settling, c, FinishTokenless(t)) == WithRun(s.(store := store), t, r.(pc := Released(monitored)))
  {
    assert s.runs[t := r.(pc := Settling(st, u, monitored, seen))][t := r.(pc := Released(monitored))]
      == s.runs[t := r.(pc := Released(monitored))];
  }

  lemma SettledRefused(s: Sys, c: Config, t: Token, ending: Ending, st: JobState, u: bool)
    requires Enabled(s, FinishRun(t, ending))
    requires FinalState(ending, s.runs[t].stop.SignalDue? || s.runs[t].stop.SignalSent?) == (st, u)
    requires Finish(s.store, s.runs[t].job, Some(t), st, u).1.Err?
    ensures var r := s.runs[t];
      var seen := r.job in s.store.jobs && s.store.jobs[r.job].uncertain;
      var store := Finish(s.store, r.job, None, if seen then FailedUncertain else st, u || seen).0;
      Settled(s, c, t, ending) == WithRun(s.(store := store), t, r.(pc := Released(ending.AgentExited?)))
  {
    var r := s.runs[t];
    RefusedStep(s, c, t, ending, st, u);
    ReadStep(s, c, t, r, st, u, ending.AgentExited?);
    TokenlessStep(s, c, t, r, st, u, ending.AgentExited?, r.job in s.store.jobs && s.store.jobs[r.job].uncertain);
  }

  class JobRunnerObject {
    const store: Database
    var runs: map<Token, Run>
    var active: map<JobId, Token>
    ghost var readers: set<Token>
    ghost var phase: Phase
    ghost var swept: set<Token>

    ghost function Model(): Sys
      reads this, store
    {
      Sys(store.State(), readers, runs, active, phase, swept)
    }

    constructor (store: Database)
      ensures this.store == store && runs == map[] && active == map[] && phase == Up
      ensures readers == {} && swept == {}
    {
      this.store := store;
      runs, active := map[], map[];
      readers, phase, swept := {}, Up, {};
    }

    /** `start`: refused while an earlier run of the job is in the active table. */
    method Start(job: JobId, now: int, token: Token, evidence: JobId -> Evidence)
      returns (r: Result<Reservation, StartError>)
      requires phase == Up && token !in runs && token !in readers
      modifies this, store
      ensures Started(job, now, token, evidence)
      ensures r == Err(StillClosing) <==> job in old(active)
      ensures r.Ok? ==> job in active && active[job] == token
    {
      if job in active {
        return Err(StillClosing);
      }
      ghost var before := Model();
      var lease := store.Reserve(job, now, token, evidence);
      swept := swept + LostRuns(before, store.State());
      if lease.Err? {
        return Err(Rejected(lease.error));
      }
      active := active[job := token];
      runs := runs[token := Run(job, Launching, NotSpawned, NoStop, false, false)];
      return Ok(lease.value);
    }

    /** The effect of `start` on the whole system. */
    twostate predicate Started(job: JobId, now: int, token: Token, evidence: JobId -> Evidence)
      reads this, store
    {
      if job in old(active) then Model() == old(Model())
      else
        Enabled(old(Model()), JobRunner.Start(job, now, token, evidence))
        && Model() == Do(old(Model()), store.config, JobRunner.Start(job, now, token, evidence))
    }

    /** `retry_recoverable`: only a certain recoverable job whose evidence is all resolved. */
    method RetryRecoverable(job: JobId, d: Outcome.Directory, now: int, token: Token, evidence: JobId -> Evidence)
      returns (r: Result<Reservation, RetryError>)
      requires phase == Up && token !in runs && token !in readers
      modifies this, store
      ensures var row := old(store.jobs);
        var may := job in row && row[job].state == FailedRecoverable && !row[job].uncertain;
        && (r == Err(NotRetryable) <==> !may)
        && (r == Err(EvidenceBlocks) <==> may && Outcome.OutcomeOf(d).unresolved)
        && (r.Ok? ==> may && Outcome.OutcomeOf(d).unmatchedAttempts == 0)
      ensures if r == Err(NotRetryable) || r == Err(EvidenceBlocks) then Model() == old(Model())
              else Started(job, now, token, evidence)
    {
      if job !in store.jobs || store.jobs[job].state != FailedRecoverable || store.jobs[job].uncertain {
        return Err(NotRetryable);
      }
      var outcome := Outcome.Evaluate(d);
      if outcome.unresolved {
        return Err(EvidenceBlocks);
      }
      var started := Start(job, now, token, evidence);
      r := if started.Ok? then Ok(started.value) else Err(StartFailed(started.error));
    }

    /** `retry_prewrite`: only a certain prewrite failure without any evidence of a mutation. */
    method RetryPrewrite(job: JobId, d: Outcome.Directory, now: int, token: Token, evidence: JobId -> Evidence)
      returns (r: Result<Reservation, RetryError>)
      requires phase == Up && token !in runs && token !in readers
      modifies this, store
      ensures var row := old(store.jobs);
        var may := job in row && row[job].state == FailedPrewrite && !row[job].uncertain;
        && (r == Err(NotRetryable) <==> !may)
        && (r == Err(EvidenceBlocks) <==>
              may && (d.uncertainMarker || d.pendingMarker || exists l <- Outcome.Lines(d) :: !Outcome.Exempt(l)))
        && (r.Ok? ==> may && !Outcome.OutcomeOf(d).hasAttempts && Outcome.OutcomeOf(d).unmatchedAttempts == 0)
      ensures if r == Err(NotRetryable) || r == Err(EvidenceBlocks) then Model() == old(Model())
              else Started(job, now, token, evidence)
    {
      if job !in store.jobs || store.jobs[job].state != FailedPrewrite || store.jobs[job].uncertain {
        return Err(NotRetryable);
      }
      var attempted := Outcome.MutationAttempted(d);
      if attempted {
        return Err(EvidenceBlocks);
      }
      Outcome.ReadersAgree(d);
      var started := Start(job, now, token, evidence);
      r := if started.Ok? then Ok(started.value) else Err(StartFailed(started.error));
    }

    /** `stop`: at most one request per run, and a running agent is signalled. */
    method Stop(job: JobId)
      requires job in active ==> active[job] in runs
      modifies this
      ensures !Enabled(old(Model()), StopRequest(job)) ==> Model() == old(Model())
      ensures Enabled(old(Model()), StopRequest(job)) ==>
        var requested := Do(old(Model()), store.config, StopRequest(job));
        var t := old(active)[job];
        Model() == if Enabled(requested, SendSignal(t)) then Do(requested, store.config, SendSignal(t)) else requested
    {
      if job !in active {
        return;
      }
      var t := active[job];
      var r := runs[t];
      if r.stop != NoStop || r.process == Exited {
        return;
      }
      if r.process == NotSpawned {
        runs := runs[t := r.(stop := StopBeforeSpawn)];
        return;
      }
      runs := runs[t := r.(stop := SignalDue)];
      runs := runs[t := r.(stop := SignalSent, signalled := true)];
    }

    /** One round of `_heartbeat`: an agent whose lease is gone is signalled. */
    method Heartbeat(t: Token, now: int)
      requires phase == Up && t in runs
      modifies this, store
      ensures Model() == Do(old(Model()), store.config, HeartbeatRun(t, now))
    {
      var r := runs[t];
      var ok := store.Beat(r.job, t, now);
      if !ok && r.process == Alive {
        r := r.(signalled := true);
      }
      runs := runs[t := r];
    }

    /** `_finish_after_lease_loss`: with the token, or without it once the store refuses the token. */
    method FinishAfterLeaseLoss(t: Token, ending: Ending)
      requires Enabled(Model(), FinishRun(t, ending))
      modifies this, store
      ensures Model() == Settled(old(Model()), store.config, t, ending)
    {
      ghost var before := Model();
      var r := runs[t];
      var (st, uncertain) := FinalState(ending, r.stop.SignalDue? || r.stop.SignalSent?);
      EndingIsFailClosed(ending, r.stop.SignalDue? || r.stop.SignalSent?);
      var held := store.FinishJob(r.job, Some(t), st, uncertain);
      if held.Ok? {
        SettledHeld(before, store.config, t, ending, st, uncertain);
        runs := runs[t := r.(pc := Released(ending.AgentExited?), released := true)];
        return;
      }
      assert store.State() == before.store;
      SettledRefused(before, store.config, t, ending, st, uncertain);
      var seen := r.job in store.jobs && store.jobs[r.job].uncertain;
      var released := store.FinishJob(r.job, None, if seen then FailedUncertain else st, uncertain || seen);
      runs := runs[t := r.(pc := Released(ending.AgentExited?))];
    }

    /** `_remove_active`: only the run's own entry is removed. */
    method RemoveActive(t: Token)
      requires Enabled(Model(), JobRunner.RemoveActive(t))
      modifies this
      ensures Model() == Do(old(Model()), store.config, JobRunner.RemoveActive(t))
    {
      var r := runs[t];
      if r.job in active && active[r.job] == t {
        active := active - {r.job};
      }
      runs := runs[t := r.(pc := Gone)];
    }
  }
}
