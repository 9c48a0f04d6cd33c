/**
 What a write of unknown outcome leaves behind: a timeout, or a failure after
 something was dispatched, puts the uncertainty marker on disk, and the guard then
 refuses every write.  A timeout is marked before the gate is released; a failure is
 marked after, which leaves a gap.
 */
module WriteMarks {
  import opened Wrappers
  import opened BrowserGate
  import opened WriteRouter
  import Runs = AuditRuns
  import MutationOutcome

  // ---- the history of a helper ---------------------------------------------

  /** The child of this helper did not answer in time. */
  predicate RanOutOfTime(steps: seq<Step>, id: HelperId) { exists step <- steps :: step.TimeOut? && step.id == id }

  /** The run has this helper's child report a failure after at least one dispatched write. */
  predicate FailedDispatched(steps: seq<Step>, id: HelperId) {
    exists step <- steps ::
      step.Return? && step.id == id && step.result.Failure? && step.result.writesAttempted > 0
  }

  ghost predicate NoWriteAdmitted(s: Sys) { forall k :: Enabled(s, GuardAdmits(k)) ==> !s.helpers[k].write }

  lemma StepKeepsMarker(s: Sys, step: Step)
    requires s.marker && Enabled(s, step)
    ensures Do(s, step).marker
  {}

  /** The marker stays on disk. */
  lemma {:induction false} MarkerStays(steps: seq<Step>, more: seq<Step>, s: Sys, t: Sys)
    requires After(steps) == Some(s) && After(steps + more) == Some(t) && s.marker
    ensures t.marker && NoWriteAdmitted(t)
    decreases |more|
  {
    if more == [] {
      assert steps + more == steps;
    } else {
      var front := more[..|more| - 1];
      assert (steps + more)[..|steps + more| - 1] == steps + front;
      MarkerStays(steps, front, s, After(steps + front).value);
      StepKeepsMarker(After(steps + front).value, more[|more| - 1]);
    }
  }

  /** Whoever holds the lock keeps other helpers from being admitted. */
  lemma HolderBlocks(steps: seq<Step>, s: Sys, id: HelperId)
    requires After(steps) == Some(s) && id in s.helpers && HasLock(s.helpers[id].pc) && s.helpers[id].pc != Inside
    ensures forall k :: !Enabled(s, GuardAdmits(k))
  {
    forall k <- s.helpers ensures HasLock(s.helpers[k].pc) ==> k == id {
      if HasLock(s.helpers[k].pc) { OneHolder(steps, s, id, k); }
    }
  }

  // ---- timeouts ------------------------------------------------------------

  /** A write that ran out of time is marked, is about to be, or its helper died in the body. */
  ghost predicate TimeoutTraced(s: Sys, id: HelperId) {
    && id in s.helpers
    && var pc := s.helpers[id].pc;
    (s.helpers[id].write ==> s.marker || pc == TimedOut || pc == TimeoutLogged || (pc == Killed && id in s.lost))
  }

  lemma StepKeepsTimeoutTraced(s: Sys, step: Step, id: HelperId)
    requires TimeoutTraced(s, id) && Enabled(s, step)
    ensures TimeoutTraced(Do(s, step), id)
  {
    if Mover(step) != Some(id) { OthersStay(s, step, id); }
  }

  lemma {:induction false} TimeoutIsTraced(steps: seq<Step>, s: Sys, id: HelperId)
    requires After(steps) == Some(s) && RanOutOfTime(steps, id)
    ensures TimeoutTraced(s, id)
    decreases |steps|
  {
    var front, last := steps[..|steps| - 1], steps[|steps| - 1];
    if !(last.TimeOut? && last.id == id) {
      assert forall step <- steps :: step in front || step == last;
      TimeoutIsTraced(front, After(front).value, id);
      StepKeepsTimeoutTraced(After(front).value, last, id);
    }
  }

  /**
   Over every run: once a write has run out of time and its helper has gone on past the
   marking, the marker is on disk; and from the timeout itself on no write is admitted,
   even if the helper is killed before it has marked.
   */
  lemma TimedOutWriteBlocks(steps: seq<Step>, s: Sys, id: HelperId)
    requires After(steps) == Some(s) && RanOutOfTime(steps, id) && id in s.helpers && s.helpers[id].write
    ensures s.helpers[id].pc !in {TimedOut, TimeoutLogged, Killed} ==> s.marker
    ensures (forall step <- steps :: !Overwrites(step)) ==> NoWriteAdmitted(s)
  {
    TimeoutIsTraced(steps, s, id);
    if !s.marker && forall step <- steps :: !Overwrites(step) {
      if s.helpers[id].pc == Killed {
        NoWriteAfterLoss(steps, s);
      } else {
        HolderBlocks(steps, s, id);
      }
    }
  }

  /**
   A helper that finds the record of a dead mutation gets in only with the marker on
   disk, which it writes itself if need be.
   */
  lemma DeadMutationIsMarked(s: Sys, id: HelperId)
    requires id in s.helpers && s.helpers[id].pc == Locked && MutationPending(s.gate)
    ensures Enabled(s, Enter(id)) ==> s.marker
    ensures AgentOwned(s.gate) && !s.marker ==>
      Enabled(s, MarkAbandoned(id)) && Do(s, MarkAbandoned(id)).marker && Enabled(Do(s, MarkAbandoned(id)), Enter(id))
  {
    AdmissionMeaning(s.gate, s.marker);
  }

  // ---- failures after a dispatch -------------------------------------------

  predicate Doubtful(result: WriteRouter.Result) { result.Failure? && result.writesAttempted > 0 }

  /** The marking of a doubtful result is still to come. */
  predicate MarkingDue(pc: Pc) {
    match pc
    case Cleaning(exit) => exit.Report? && Doubtful(exit.result)
    case Unlocking(exit) => exit.Report? && Doubtful(exit.result)
    case Reporting(result) => Doubtful(result)
    case _ => pc == MarkDue
  }

  ghost predicate FailureTraced(s: Sys, id: HelperId) {
    id in s.helpers && (s.helpers[id].write ==> s.marker || MarkingDue(s.helpers[id].pc) || s.helpers[id].pc == Killed)
  }

  lemma StepKeepsFailureTraced(s: Sys, step: Step, id: HelperId)
    requires FailureTraced(s, id) && Enabled(s, step)
    ensures FailureTraced(Do(s, step), id)
  {
    if Mover(step) != Some(id) { OthersStay(s, step, id); }
  }

  lemma {:induction false} FailureIsTraced(steps: seq<Step>, s: Sys, id: HelperId)
    requires After(steps) == Some(s) && FailedDispatched(steps, id)
    ensures FailureTraced(s, id)
    decreases |steps|
  {
    var front, last := steps[..|steps| - 1], steps[|steps| - 1];
    var before := After(front).value;
    if !(last.Return? && last.id == id && Doubtful(last.result)) {
      assert forall step <- steps :: step in front || step == last;
      FailureIsTraced(front, before, id);
      StepKeepsFailureTraced(before, last, id);
    }
  }

  /** The gate is released and the marker is not yet written, or never will be. */
  predicate InGap(s: Sys, id: HelperId)
    requires id in s.helpers
  {
    var pc := s.helpers[id].pc;
    !s.marker && (pc.Reporting? || pc == MarkDue || (pc == Killed && id !in s.lost))
  }

  /**
   Over every run: once a writer has reported a failure after a dispatched write and
   gone on past its marking step, the marker is on disk; and no write is admitted at
   any time after the report, except in the gap between the release of the gate and
   the marking.
   */
  lemma FailedWriteBlocks(steps: seq<Step>, s: Sys, id: HelperId)
    requires After(steps) == Some(s) && FailedDispatched(steps, id) && id in s.helpers && s.helpers[id].write
    ensures s.helpers[id].pc == Finished ==> s.marker
    ensures (forall step <- steps :: !Overwrites(step)) && !InGap(s, id) ==> NoWriteAdmitted(s)
  {
    FailureIsTraced(steps, s, id);
    if !s.marker && !InGap(s, id) && forall step <- steps :: !Overwrites(step) {
      if s.helpers[id].pc == Killed {
        NoWriteAfterLoss(steps, s);
      } else {
        HolderBlocks(steps, s, id);
      }
    }
  }

  /** Without the marker the next writer is admitted to any free gate. */
  lemma GapAdmits(steps: seq<Step>, s: Sys, k: HelperId, key: MutationOutcome.Key) returns (more: seq<Step>, t: Sys)
    requires After(steps) == Some(s) && !s.marker && s.owner == None && k !in s.helpers && Admit(s.gate, s.marker) == Free
    ensures After(more) == Some(t) && more == steps + [Lock(k, true, key), Enter(k)]
    ensures Enabled(t, GuardAdmits(k)) && t.helpers[k].write && t.marker == s.marker
    ensures forall h <- s.helpers :: h in t.helpers && t.helpers[h] == s.helpers[h]
  {
    var u: Sys;
    more, u := Runs.Go(steps, s, Lock(k, true, key));
    more, t := Runs.Go(more, u, Enter(k));
    assert steps + [Lock(k, true, key)] + [Enter(k)] == steps + [Lock(k, true, key), Enter(k)];
  }

  function Failing(key: MutationOutcome.Key): seq<Step> {
    [Lock(1, true, key), Enter(1), GuardAdmits(1), LogAttempt(1, "1"), Dispatch(1), ChildEnds(1), Return(1, Failure(1))]
  }

  const FAILED := Cleaning(Report(Failure(1)))

  /** A write on a fresh job fails after its dispatch. */
  lemma WriteFails(key: MutationOutcome.Key) returns (s: Sys)
    ensures After(Failing(key)) == Some(s) && !s.marker && s.owner == Some(1) && s.gate == Entered(INITIAL, true)
    ensures s.helpers == map[1 := Helper(true, key, FAILED, false, Open, "1")]
  {
    var steps;
    steps, s := Runs.WriteBegins([], Start, 1, key, "1");
    var h := s.helpers[1];
    steps, s := Runs.WriteReturns(steps, s, 1, h, Failure(1));
    assert steps == Failing(key);
  }

  /** It releases the gate, and the marking is due. */
  lemma GateReleased(key: MutationOutcome.Key, s: Sys) returns (t: Sys)
    requires After(Failing(key)) == Some(s) && !s.marker && s.owner == Some(1) && s.gate == Entered(INITIAL, true)
    requires s.helpers == map[1 := Helper(true, key, FAILED, false, Open, "1")]
    ensures After(Failing(key) + [Clean(1)] + [Unlock(1)]) == Some(t)
    ensures !t.marker && t.owner == None && Admit(t.gate, t.marker) == Free
    ensures t.helpers == map[1 := Helper(true, key, Reporting(Failure(1)), false, Open, "1")]
  {
    var steps;
    steps, t := Runs.Go(Failing(key), s, Clean(1));
    steps, t := Runs.Go(steps, t, Unlock(1));
  }

  lemma FailingSteps(key: MutationOutcome.Key, steps: seq<Step>)
    requires steps == Failing(key) + [Clean(1)] + [Unlock(1)] + [Lock(2, true, key), Enter(2)]
    ensures FailedDispatched(steps, 1) && forall step <- steps :: !Overwrites(step)
  {
    assert steps[6] == Return(1, Failure(1));
    assert forall step <- Failing(key) :: !Overwrites(step);
  }

  /** A write fails after its dispatch, and the next one is admitted before the failure is marked. */
  lemma WriteInGap(key: MutationOutcome.Key) returns (steps: seq<Step>, s: Sys)
    ensures After(steps) == Some(s) && FailedDispatched(steps, 1) && forall step <- steps :: !Overwrites(step)
    ensures 1 in s.helpers && s.helpers[1].write && InGap(s, 1)
    ensures Enabled(s, GuardAdmits(2)) && s.helpers[2].write
  {
    var failed := WriteFails(key);
    var released := GateReleased(key, failed);
    steps, s := GapAdmits(Failing(key) + [Clean(1)] + [Unlock(1)], released, 2, key);
    FailingSteps(key, steps);
  }
}
