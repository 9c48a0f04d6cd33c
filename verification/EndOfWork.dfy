/**
 How a job stops being worked on, and what an interrupted write does to it: the
 lease store, the runner, the write router and the evidence reader together.
 */
module EndOfWork {
  import opened Wrappers
  import opened ControlStore
  import opened LeasePairing
  import opened JobRunner
  import opened JobRunnerProofs
  import opened JobRunnerTheorems
  import Audit = AuditConservation
  import Router = WriteRouter
  import Outcome = MutationOutcome

  /** The evidence about a job that a step acts on, if it reads any. */
  function EvidenceFor(step: Step, j: JobId): Option<Evidence> {
    match step
    case Start(_, _, _, evidence) => Some(evidence(j))
    case Recover(evidence) => Some(evidence(j))
    case FinishRun(_, ending) => Some(ending.evidence)
    case _ => None
  }

  ghost predicate WorkingOn(s: Sys, j: JobId) { j in s.store.jobs && Working(s.store.jobs[j].state) }

  ghost predicate EndsWork(s: Sys, c: Config, step: Step, j: JobId)
    requires Enabled(s, step)
  {
    WorkingOn(s, j) && !WorkingOn(Do(s, c, step), j)
  }

  lemma SweepEndsByEvidence(store: Store, now: int, evidence: JobId -> Evidence, j: JobId)
    requires j in store.jobs && Working(store.jobs[j].state)
    ensures var job := Swept(store, now, evidence).jobs[j];
      Working(job.state) || (job.state == InterruptedState(evidence(j)) && job.uncertain == evidence(j).unresolved)
  {}

  lemma StartEndsByEvidence(s: Sys, c: Config, step: Step, j: JobId)
    requires Inv(s, c) && Enabled(s, step) && step.Start? && EndsWork(s, c, step, j)
    ensures Uncertain(Do(s, c, step).store, j) <==> EvidenceFor(step, j).value.unresolved
    ensures j in Do(s, c, step).store.jobs
  {
    NoConstraintViolation(s.store, c, IssuedIn(s), step.job, step.now, step.token, step.evidence, 0, 0);
    ReserveShape(s.store, c, step.job, step.now, step.token, step.evidence);
    SweepEndsByEvidence(s.store, step.now, step.evidence, j);
  }

  /** A finish touches the row of its own job only. */
  lemma FinishRow(store: Store, job: JobId, token: Option<Token>, st: JobState, u: bool, j: JobId)
    requires j in store.jobs
    ensures j in Finish(store, job, token, st, u).0.jobs
    ensures var row := Finish(store, job, token, st, u).0.jobs[j];
      row == store.jobs[j] || (j == job && row.state == st && row.uncertain == u)
  {}

  lemma FinishEndsByEvidence(s: Sys, c: Config, step: Step, j: JobId)
    requires Enabled(s, step) && step.FinishRun? && EndsWork(s, c, step, j)
    ensures j in Do(s, c, step).store.jobs
    ensures Uncertain(Do(s, c, step).store, j) <==> EvidenceFor(step, j).value.unresolved
  {
    var r := s.runs[step.run];
    var stopRecorded := r.stop.SignalDue? || r.stop.SignalSent?;
    var (st, u) := FinalState(step.ending, stopRecorded);
    EndingIsFailClosed(step.ending, stopRecorded);
    FinishRow(s.store, r.job, Some(step.run), st, u, j);
    assert Do(s, c, step).store == s.store || Do(s, c, step).store == Finish(s.store, r.job, Some(step.run), st, u).0;
  }

  lemma OtherStepEndsByEvidence(s: Sys, c: Config, step: Step, j: JobId)
    requires Enabled(s, step) && EndsWork(s, c, step, j)
    requires !step.Start? && !step.FinishRun? && !step.FinishTokenless?
    ensures j in Do(s, c, step).store.jobs && EvidenceFor(step, j).Some?
    ensures Uncertain(Do(s, c, step).store, j) <==> EvidenceFor(step, j).value.unresolved
  {}

  lemma TokenlessEndsNoWork(s: Sys, c: Config, t: Token, j: JobId)
    requires Inv(s, c) && Enabled(s, FinishTokenless(t)) && WorkingOn(s, j)
    ensures WorkingOn(Do(s, c, FinishTokenless(t)), j)
  {
    assert RunFits(s, t);
    SettledJobIsIdle(s, c, t);
  }

  /**
   A job stops being worked on only by a step that has read its evidence (its own
   run's finish, expiry, or recovery), and it is then uncertain exactly when that
   evidence is unresolved.
   */
  lemma WorkEndsByEvidence(s: Sys, c: Config, step: Step, j: JobId)
    requires Inv(s, c) && Enabled(s, step) && EndsWork(s, c, step, j)
    ensures j in Do(s, c, step).store.jobs && EvidenceFor(step, j).Some?
    ensures Uncertain(Do(s, c, step).store, j) <==> EvidenceFor(step, j).value.unresolved
  {
    if step.Start? {
      StartEndsByEvidence(s, c, step, j);
    } else if step.FinishRun? {
      FinishEndsByEvidence(s, c, step, j);
    } else if step.FinishTokenless? {
      TokenlessEndsNoWork(s, c, step.run, j);
    } else {
      OtherStepEndsByEvidence(s, c, step, j);
    }
  }

  /** What the controller reads from a job directory. */
  function EvidenceIn(d: Outcome.Directory): Evidence {
    var o := Outcome.OutcomeOf(d);
    Evidence(o.unresolved, o.hasAttempts)
  }

  /**
   End to end: a browser write whose helper was killed before its outcome was
   logged, and which the operator has not resolved, leaves its job failed_uncertain
   when the work on it ends, however it ends, and no later run of the system starts
   the job again.
   */
  lemma InterruptedWriteHoldsTheJob(
      before: seq<Router.Step>, since: seq<Router.Step>, u: Router.Sys, v: Router.Sys, helper: Router.HelperId,
      d: Outcome.Directory, s: Sys, c: Config, step: Step, j: JobId, later: seq<Step>)
    requires Router.After(before) == Some(u) && Router.After(before + since) == Some(v) && Audit.LeftBy(v, d)
    requires helper in u.helpers && u.helpers[helper].pc == Router.Killed && u.helpers[helper].logging == Router.Open
    requires Audit.ResolvesOnlyOpen(v, Outcome.ResolvedBy(d.resolutions))
    requires (Outcome.At(u.helpers[helper].at), u.helpers[helper].key) !in Outcome.ResolvedBy(d.resolutions)
    requires Inv(s, c) && Enabled(s, step) && EndsWork(s, c, step, j)
    requires EvidenceFor(step, j) == Some(EvidenceIn(d))
    requires After(Do(s, c, step), c, later).Some?
    ensures var end := After(Do(s, c, step), c, later).value;
      && Uncertain(end.store, j)
      && forall now, token, e: JobId -> Evidence ::
           ReserveNow(end.store, c, j, now, token, e).1 == Err(NotStartable)
  {
    Audit.KilledAttemptStaysUnresolved(before, since, u, v, helper, d);
    WorkEndsByEvidence(s, c, step, j);
    StepKeepsInv(s, c, step);
    UncertaintyIsAbsorbing(Do(s, c, step), c, later, j);
  }
}
