/**
 The browser write router (`run_direct` in `browser_tool.py`) running inside the
 gate, with the death of any helper or child allowed after every step.

 A helper process takes the kernel lock, enters the gate record, passes the guard,
 logs its write attempt, dispatches a child that inherits the lock, and after
 leaving the gate logs the outcome.
 */
module WriteRouter {
  import opened Wrappers
  import opened BrowserGate
  import opened MutationOutcome

  type HelperId = nat

  /** The child's structured result: success, or a failure after so many dispatched writes. */
  datatype Result = Success | Failure(writesAttempted: nat)

  datatype Exit = Abort | Report(result: Result)

  datatype Pc =
    | Locked                       // kernel lock held, record not yet entered
    | Inside                       // record entered, guard not yet passed
    | Admitted                     // guard passed
    | Probing                      // a read-only preflight child is running
    | Logged                       // "attempted" is in the log
    | Dispatched                   // the browser child is (or was) running
    | TimedOut                     // a write timed out: its record and marker are due
    | TimeoutLogged
    | Cleaning(exit: Exit)         // leaving the body, record not yet cleaned
    | Unlocking(exit: Exit)        // record cleaned, lock still held
    | Reporting(result: Result)    // lock released, outcome not yet logged
    | MarkDue                      // failed write logged, marker due
    | Finished
    | Killed

  /** What the log says about a helper's attempt. */
  datatype Logging = NotLogged | Open | Rejected | Succeeded

  /** `at`: when its attempt was logged. */
  datatype Helper = Helper(write: bool, key: Key, pc: Pc, child: bool, logging: Logging, at: string)

  /** `owner`: whose file description holds the kernel lock.  `lost`: writers killed inside the gate. */
  datatype Sys = Sys(gate: Record, marker: bool, log: seq<Line>, owner: Option<HelperId>,
                     helpers: map<HelperId, Helper>, lost: set<HelperId>)

  const Start := Sys(INITIAL, false, [], None, map[], {})

  datatype Step =
    | Lock(id: HelperId, write: bool, key: Key)
    | RefuseEntry(id: HelperId)
    | MarkAbandoned(id: HelperId)
    | Enter(id: HelperId)
    | GuardAdmits(id: HelperId)
    | AbortBody(id: HelperId)
    | Probe(id: HelperId)
    | ProbeReturns(id: HelperId)
    | LogAttempt(id: HelperId, at: string)
    | Dispatch(id: HelperId)
    | ChildEnds(id: HelperId)
    | Return(id: HelperId, result: Result)
    | TimeOut(id: HelperId)
    | LogTimeout(id: HelperId, at: string)
    | MarkTimeout(id: HelperId)
    | Clean(id: HelperId)
    | Unlock(id: HelperId)
    | LogOutcome(id: HelperId, at: string)
    | MarkFailure(id: HelperId)
    | Kill(id: HelperId)
    | RequestUser
    | ShieldAgent
    | Initialize
    | TakeControl
    | HandBack(verified: bool)

  /** The helper is in the body of `action`: the record says so and its cleanup is still due. */
  predicate InBody(pc: Pc) {
    pc == Inside || pc == Admitted || pc == Probing || pc == Logged || pc == Dispatched || pc == TimedOut
      || pc == TimeoutLogged || pc.Cleaning?
  }

  predicate HasLock(pc: Pc) { pc == Locked || InBody(pc) || pc.Unlocking? }

  predicate At(s: Sys, id: HelperId, pc: Pc) { id in s.helpers && s.helpers[id].pc == pc }

  predicate Enabled(s: Sys, step: Step) {
    match step
    case Lock(h, _, _) => h !in s.helpers && s.owner == None
    case RefuseEntry(h) => At(s, h, Locked) && Admit(s.gate, s.marker) in {Refused, LegacyHelper}
    case MarkAbandoned(h) => At(s, h, Locked) && Admit(s.gate, s.marker) == MustMark
    case Enter(h) => At(s, h, Locked) && Admit(s.gate, s.marker) == Free
    // a write is refused while the uncertainty marker exists
    case GuardAdmits(h) => At(s, h, Inside) && (s.helpers[h].write ==> !s.marker)
    // a refusal, or a child that cannot be started
    case AbortBody(h) => At(s, h, Inside) || At(s, h, Admitted) || At(s, h, Logged)
    case Probe(h) => At(s, h, Admitted)
    case ProbeReturns(h) => At(s, h, Probing) && !s.helpers[h].child
    case LogAttempt(h, _) => At(s, h, Admitted) && s.helpers[h].write
    case Dispatch(h) => At(s, h, if h in s.helpers && s.helpers[h].write then Logged else Admitted)
    case ChildEnds(h) => h in s.helpers && s.helpers[h].child
    case Return(h, _) => At(s, h, Dispatched) && !s.helpers[h].child
    case TimeOut(h) => At(s, h, Dispatched)
    case LogTimeout(h, _) => At(s, h, TimedOut)
    case MarkTimeout(h) => At(s, h, TimeoutLogged)
    case Clean(h) => h in s.helpers && s.helpers[h].pc.Cleaning?
    case Unlock(h) => h in s.helpers && s.helpers[h].pc.Unlocking?
    case LogOutcome(h, _) => h in s.helpers && s.helpers[h].pc.Reporting?
    case MarkFailure(h) => At(s, h, MarkDue)
    case Kill(h) => h in s.helpers && s.helpers[h].pc != Finished && s.helpers[h].pc != Killed
    case RequestUser => true
    case ShieldAgent => true
    case Initialize => true
    // both write under the kernel lock
    case TakeControl => s.owner == None
    case HandBack(_) => s.owner == None
  }

  function Record(h: Helper, verdict: Verdict, at: string): Line {
    Entry(verdict, MutationOutcome.At(at), h.key, false)
  }

  function Put(s: Sys, id: HelperId, h: Helper): Sys { s.(helpers := s.helpers[id := h]) }

  function Move(s: Sys, id: HelperId, pc: Pc): Sys
    requires id in s.helpers
  {
    Put(s, id, s.helpers[id].(pc := pc))
  }

  /** The lock is dropped by an explicit unlock, or when the last process holding its descriptor is gone. */
  function Closed(s: Sys, id: HelperId): Option<HelperId> { if s.owner == Some(id) then None else s.owner }

  function Do(s: Sys, step: Step): Sys
    requires Enabled(s, step)
  {
    match step
    case Lock(h, write, key) => Put(s.(owner := Some(h)), h, Helper(write, key, Locked, false, NotLogged, ""))
    case RefuseEntry(h) => Move(s.(owner := Closed(s, h)), h, Finished)
    case MarkAbandoned(h) => s.(marker := true)
    case Enter(h) => Move(s.(gate := Entered(s.gate, s.helpers[h].write)), h, Inside)
    case GuardAdmits(h) => Move(s, h, Admitted)
    case AbortBody(h) => Move(s, h, Cleaning(Abort))
    case Probe(h) => Put(s, h, s.helpers[h].(pc := Probing, child := true))
    case ProbeReturns(h) => Move(s, h, Admitted)
    case LogAttempt(h, at) =>
      Put(s.(log := s.log + [Record(s.helpers[h], Attempted, at)]), h,
          s.helpers[h].(pc := Logged, logging := Open, at := at))
    case Dispatch(h) => Put(s, h, s.helpers[h].(pc := Dispatched, child := true))
    case ChildEnds(h) =>
      Put(if s.helpers[h].pc == Killed then s.(owner := Closed(s, h)) else s, h, s.helpers[h].(child := false))
    case Return(h, result) => Move(s, h, Cleaning(Report(result)))
    // the helper kills its child and waits for it before going on
    case TimeOut(h) =>
      Put(s, h, s.helpers[h].(child := false, pc := if s.helpers[h].write then TimedOut else Cleaning(Abort)))
    case LogTimeout(h, at) => Move(s.(log := s.log + [Record(s.helpers[h], OtherVerdict, at)]), h, TimeoutLogged)
    case MarkTimeout(h) => Move(s.(marker := true), h, Cleaning(Abort))
    case Clean(h) => Move(s.(gate := Left(s.gate)), h, Unlocking(s.helpers[h].pc.exit))
    case Unlock(h) =>
      var exit := s.helpers[h].pc.exit;
      Move(s.(owner := Closed(s, h)), h,
           if exit.Report? && s.helpers[h].write then Reporting(exit.result) else Finished)
    case LogOutcome(h, at) =>
      var r := s.helpers[h].pc.result;
      if r == Result.Success then
        Put(s.(log := s.log + [Record(s.helpers[h], Verdict.Succeeded, at)]), h,
            s.helpers[h].(pc := Finished, logging := Logging.Succeeded))
      else if r.writesAttempted == 0 then
        Put(s.(log := s.log + [Record(s.helpers[h], RejectedPrewrite, at)]), h,
            s.helpers[h].(pc := Finished, logging := Rejected))
      else Move(s.(log := s.log + [Record(s.helpers[h], OtherVerdict, at)]), h, MarkDue)
    case MarkFailure(h) => Move(s.(marker := true), h, Finished)
    case Kill(h) =>
      var helper := s.helpers[h];
      Put(s.(owner := if helper.child then s.owner else Closed(s, h),
             lost := if helper.write && InBody(helper.pc) then s.lost + {h} else s.lost),
          h, helper.(pc := Killed))
    case RequestUser => s.(gate := s.gate.(desired := User))
    case ShieldAgent => s.(gate := s.gate.(desired := Agent))
    case Initialize => s.(gate := INITIAL)
    case TakeControl => s.(gate := TakenOver(s.gate))
    case HandBack(verified) => s.(gate := if verified then HandedBack(s.gate) else TakenOver(s.gate))
  }

  function After(steps: seq<Step>): Option<Sys>
    decreases |steps|
  {
    if steps == [] then Some(Start)
    else
      var before := After(steps[..|steps| - 1]);
      if before.Some? && Enabled(before.value, steps[|steps| - 1])
      then Some(Do(before.value, steps[|steps| - 1])) else None
  }

  // ---- one lock holder -----------------------------------------------------

  /** The lock is held by exactly the helper, or surviving child, that the program believes holds it. */
  ghost predicate LockOk(s: Sys, id: HelperId)
    requires id in s.helpers
  {
    var h := s.helpers[id];
    && (HasLock(h.pc) || h.child <==> s.owner == Some(id))
    && (h.child ==> h.pc == Probing || h.pc == Dispatched || h.pc == Killed)
  }

  ghost predicate LockInv(s: Sys) {
    && (s.owner.Some? ==> s.owner.value in s.helpers)
    && (forall id <- s.helpers :: LockOk(s, id))
  }

  /** An agent action is in progress: a helper in the body, or the child of a killed one. */
  predicate InProgress(h: Helper) { InBody(h.pc) || h.child }

  ghost predicate OwnershipInv(s: Sys) {
    forall id <- s.helpers :: InProgress(s.helpers[id]) ==> s.gate.ownership == Agent
  }

  /** The helper a step belongs to, if any. */
  function Mover(step: Step): Option<HelperId> {
    match step
    case RequestUser => None
    case ShieldAgent => None
    case Initialize => None
    case TakeControl => None
    case HandBack(_) => None
    case _ => Some(step.id)
  }

  /** Steps up to the admission by the guard; a way to halve case distinctions. */
  predicate Early(step: Step) {
    step.Lock? || step.RefuseEntry? || step.MarkAbandoned? || step.Enter? || step.GuardAdmits? || step.AbortBody?
      || step.Probe? || step.ProbeReturns?
  }

  lemma OthersStay(s: Sys, step: Step, id: HelperId)
    requires Enabled(s, step) && Mover(step) != Some(id)
    ensures id in Do(s, step).helpers <==> id in s.helpers
    ensures id in s.helpers ==> Do(s, step).helpers[id] == s.helpers[id]
  {}

  /** A step takes the lock only when it is free and drops it only when its own helper has it. */
  lemma OwnerMoves(s: Sys, step: Step)
    requires Enabled(s, step)
    requires Mover(step).Some? && Mover(step).value in s.helpers ==> LockOk(s, Mover(step).value)
    ensures var before, after := s.owner, Do(s, step).owner;
      after == before || (before == None && step.Lock? && after == Some(step.id))
        || (Mover(step).Some? && before == Mover(step) && after == None)
  {}

  predicate MayRelease(step: Step) { step.RefuseEntry? || step.Unlock? || step.Kill? || step.ChildEnds? }

  /** Steps from the logged attempt to the end of the child. */
  predicate Middle(step: Step) {
    step.LogAttempt? || step.Dispatch? || step.Return? || step.TimeOut? || step.LogTimeout?
  }

  lemma OwnKillStep(s: Sys, id: HelperId)
    requires Enabled(s, Kill(id)) && LockOk(s, id)
    ensures id in Do(s, Kill(id)).helpers && LockOk(Do(s, Kill(id)), id)
  {}

  lemma OwnReleaseStep(s: Sys, step: Step)
    requires Enabled(s, step) && MayRelease(step) && !step.Kill? && LockOk(s, step.id)
    ensures step.id in Do(s, step).helpers && LockOk(Do(s, step), step.id)
  {}

  lemma OwnEarlyStep(s: Sys, step: Step)
    requires Enabled(s, step) && Mover(step).Some? && !MayRelease(step) && Early(step)
    requires Mover(step).value in s.helpers ==> LockOk(s, Mover(step).value)
    ensures Mover(step).value in Do(s, step).helpers && LockOk(Do(s, step), Mover(step).value)
  {}

  lemma OwnMiddleStep(s: Sys, step: Step)
    requires Enabled(s, step) && Middle(step) && LockOk(s, step.id)
    ensures step.id in Do(s, step).helpers && LockOk(Do(s, step), step.id)
  {}

  lemma OwnLateStep(s: Sys, step: Step)
    requires Enabled(s, step) && Mover(step).Some? && !MayRelease(step) && !Early(step) && !Middle(step)
    requires LockOk(s, Mover(step).value)
    ensures Mover(step).value in Do(s, step).helpers && LockOk(Do(s, step), Mover(step).value)
  {}

  lemma OwnLockStep(s: Sys, step: Step)
    requires Enabled(s, step) && Mover(step).Some?
    requires Mover(step).value in s.helpers ==> LockOk(s, Mover(step).value)
    ensures Mover(step).value in Do(s, step).helpers && LockOk(Do(s, step), Mover(step).value)
  {
    if step.Kill? {
      OwnKillStep(s, step.id);
    } else if MayRelease(step) {
      OwnReleaseStep(s, step);
    } else if Early(step) {
      OwnEarlyStep(s, step);
    } else if Middle(step) {
      OwnMiddleStep(s, step);
    } else {
      OwnLateStep(s, step);
    }
  }

  lemma StepKeepsLock(s: Sys, step: Step)
    requires LockInv(s) && Enabled(s, step)
    ensures LockInv(Do(s, step))
  {
    var s' := Do(s, step);
    OwnerMoves(s, step);
    if Mover(step).Some? {
      OwnLockStep(s, step);
    }
    if s.owner.Some? {
      if Mover(step) != s.owner { OthersStay(s, step, s.owner.value); }
    }
    forall id <- s'.helpers ensures LockOk(s', id) {
      if Mover(step) != Some(id) {
        OthersStay(s, step, id);
        assert LockOk(s, id);
      }
    }
  }

  /** Steps that rewrite the gate record, or may put a helper into the body. */
  predicate Rewrites(step: Step) {
    step.Enter? || step.Clean? || step.RequestUser? || step.ShieldAgent? || step.Initialize? || step.TakeControl?
      || step.HandBack?
  }

  lemma EarlyStepProgress(s: Sys, step: Step)
    requires Enabled(s, step) && Mover(step).Some? && !Rewrites(step) && Early(step)
    ensures var id, s' := Mover(step).value, Do(s, step);
      id in s'.helpers && (InProgress(s'.helpers[id]) ==> id in s.helpers && InProgress(s.helpers[id]))
  {}

  lemma LateStepProgress(s: Sys, step: Step)
    requires Enabled(s, step) && Mover(step).Some? && !Rewrites(step) && !Early(step)
    ensures var id, s' := Mover(step).value, Do(s, step);
      id in s'.helpers && (InProgress(s'.helpers[id]) ==> id in s.helpers && InProgress(s.helpers[id]))
  {}

  lemma QuietStepKeepsOwnership(s: Sys, step: Step)
    requires LockInv(s) && OwnershipInv(s) && Enabled(s, step) && !Rewrites(step)
    ensures OwnershipInv(Do(s, step))
  {
    var s' := Do(s, step);
    assert s'.gate == s.gate;
    if Mover(step).Some? {
      if Early(step) { EarlyStepProgress(s, step); } else { LateStepProgress(s, step); }
    }
    forall id <- s'.helpers ensures InProgress(s'.helpers[id]) ==> s'.gate.ownership == Agent {
      if Mover(step) != Some(id) { OthersStay(s, step, id); }
    }
  }

  lemma StepKeepsOwnership(s: Sys, step: Step)
    requires LockInv(s) && OwnershipInv(s) && Enabled(s, step)
    ensures OwnershipInv(Do(s, step))
  {
    if !Rewrites(step) {
      QuietStepKeepsOwnership(s, step);
    } else {
      var s' := Do(s, step);
      forall id <- s'.helpers ensures InProgress(s'.helpers[id]) ==> s'.gate.ownership == Agent {
        if Mover(step) != Some(id) { OthersStay(s, step, id); }
        assert LockOk(s, id);
      }
    }
  }

  lemma {:induction false} RunsKeepLock(steps: seq<Step>)
    requires After(steps).Some?
    ensures LockInv(After(steps).value) && OwnershipInv(After(steps).value)
    decreases |steps|
  {
    if steps != [] {
      RunsKeepLock(steps[..|steps| - 1]);
      StepKeepsLock(After(steps[..|steps| - 1]).value, steps[|steps| - 1]);
      StepKeepsOwnership(After(steps[..|steps| - 1]).value, steps[|steps| - 1]);
    }
  }

  /** In every reachable state at most one helper, or surviving child, has the gate. */
  lemma OneHolder(steps: seq<Step>, s: Sys, a: HelperId, b: HelperId)
    requires After(steps) == Some(s) && a in s.helpers && b in s.helpers
    requires HasLock(s.helpers[a].pc) || s.helpers[a].child
    requires HasLock(s.helpers[b].pc) || s.helpers[b].child
    ensures a == b && s.owner == Some(a)
  {
    RunsKeepLock(steps);
    assert LockOk(s, a) && LockOk(s, b);
  }

  /** In no reachable state is an agent action in progress while viewer input is enabled. */
  lemma OwnershipExclusion(steps: seq<Step>, s: Sys, id: HelperId)
    requires After(steps) == Some(s) && id in s.helpers && InProgress(s.helpers[id])
    ensures !ViewerEnabled(s.gate)
  {
    RunsKeepLock(steps);
  }

  // ---- no interrupted mutation is forgotten ---------------------------------

  /** The helper in the body is the one the record describes. */
  ghost predicate RecordOk(s: Sys, id: HelperId)
    requires id in s.helpers
  {
    var h := s.helpers[id];
    InBody(h.pc) ==> s.gate.actor == Automation && s.gate.inherited && s.gate.mutationPossible == h.write
  }

  ghost predicate NobodyInside(s: Sys) { forall id <- s.helpers :: !InBody(s.helpers[id].pc) }

  /** The trace of an interrupted mutation: the marker, or the record it left, untouched by a later action. */
  ghost predicate TraceKept(s: Sys) { s.marker || (MutationPending(s.gate) && NobodyInside(s)) }

  ghost predicate CrashInv(s: Sys) {
    && (forall id <- s.helpers :: RecordOk(s, id))
    && (s.lost != {} ==> TraceKept(s))
  }

  /** The two steps that rewrite the record to "nobody acting" without looking at what it said. */
  predicate Overwrites(step: Step) { step == Initialize || step == HandBack(true) }

  /** A step that leaves the record alone never puts its helper into the body. */
  lemma EarlyStepStaysOut(s: Sys, step: Step)
    requires Enabled(s, step) && Mover(step).Some? && !Rewrites(step) && Early(step)
    ensures var id, s' := Mover(step).value, Do(s, step);
      && id in s'.helpers && s'.gate == s.gate
      && (InBody(s'.helpers[id].pc) ==> id in s.helpers && InBody(s.helpers[id].pc))
      && (id in s.helpers ==> s'.helpers[id].write == s.helpers[id].write)
  {}

  lemma LateStepStaysOut(s: Sys, step: Step)
    requires Enabled(s, step) && Mover(step).Some? && !Rewrites(step) && !Early(step)
    ensures var id, s' := Mover(step).value, Do(s, step);
      && id in s'.helpers && s'.gate == s.gate
      && (InBody(s'.helpers[id].pc) ==> id in s.helpers && InBody(s.helpers[id].pc))
      && (id in s.helpers ==> s'.helpers[id].write == s.helpers[id].write)
  {}

  lemma OwnQuietRecordStep(s: Sys, step: Step)
    requires LockInv(s) && CrashInv(s) && Enabled(s, step) && Mover(step).Some? && !Rewrites(step)
    ensures Mover(step).value in Do(s, step).helpers && RecordOk(Do(s, step), Mover(step).value)
  {
    if Early(step) { EarlyStepStaysOut(s, step); } else { LateStepStaysOut(s, step); }
    assert Mover(step).value in s.helpers ==> RecordOk(s, Mover(step).value);
  }

  lemma OwnRecordStep(s: Sys, step: Step)
    requires LockInv(s) && CrashInv(s) && Enabled(s, step) && Mover(step).Some?
    ensures Mover(step).value in Do(s, step).helpers && RecordOk(Do(s, step), Mover(step).value)
  {
    if !Rewrites(step) { OwnQuietRecordStep(s, step); }
  }

  /** The record changes only under the lock, so it still describes whoever else is in the body. */
  lemma OtherRecordStep(s: Sys, step: Step, id: HelperId)
    requires LockInv(s) && CrashInv(s) && Enabled(s, step) && !Overwrites(step)
    requires id in s.helpers && Mover(step) != Some(id)
    ensures id in Do(s, step).helpers && RecordOk(Do(s, step), id)
  {
    OthersStay(s, step, id);
    assert RecordOk(s, id) && LockOk(s, id);
    var h := Mover(step);
    assert h.Some? && h.value in s.helpers ==> LockOk(s, h.value);
  }

  lemma OnlyOwnerInside(s: Sys, id: HelperId)
    requires LockInv(s) && id in s.helpers && InBody(s.helpers[id].pc)
    ensures forall k <- s.helpers :: k != id ==> !InBody(s.helpers[k].pc)
  {
    assert LockOk(s, id);
    forall k <- s.helpers ensures k != id ==> !InBody(s.helpers[k].pc) {
      assert LockOk(s, k);
    }
  }

  /** A kill inside the body leaves the record behind, and the record is that of the killed helper. */
  lemma KillKeepsTrace(s: Sys, id: HelperId)
    requires LockInv(s) && CrashInv(s) && Enabled(s, Kill(id)) && Do(s, Kill(id)).lost != {}
    ensures TraceKept(Do(s, Kill(id)))
  {
    var s' := Do(s, Kill(id));
    assert RecordOk(s, id);
    if InBody(s.helpers[id].pc) {
      OnlyOwnerInside(s, id);
      assert NobodyInside(s');
    } else {
      assert s'.lost == s.lost;
      assert NobodyInside(s) ==> NobodyInside(s');
    }
  }

  lemma OtherStepsKeepTrace(s: Sys, step: Step)
    requires LockInv(s) && CrashInv(s) && Enabled(s, step) && !Overwrites(step) && !step.Kill? && s.lost != {}
    ensures TraceKept(Do(s, step))
  {
    var s' := Do(s, step);
    if !s.marker {
      assert MutationPending(s.gate) && NobodyInside(s);
      if Mover(step).Some? && Mover(step).value in s.helpers {
        assert !InBody(s.helpers[Mover(step).value].pc);
      }
      forall k <- s'.helpers ensures Mover(step) != Some(k) ==> !InBody(s'.helpers[k].pc) {
        if Mover(step) != Some(k) { OthersStay(s, step, k); }
      }
    }
  }

  lemma StepKeepsTrace(s: Sys, step: Step)
    requires LockInv(s) && CrashInv(s) && Enabled(s, step) && !Overwrites(step)
    ensures CrashInv(Do(s, step))
  {
    var s' := Do(s, step);
    if Mover(step).Some? {
      OwnRecordStep(s, step);
    }
    forall id <- s'.helpers ensures RecordOk(s', id) {
      if Mover(step) != Some(id) {
        OthersStay(s, step, id);
        OtherRecordStep(s, step, id);
      }
    }
    if s'.lost != {} {
      if step.Kill? {
        KillKeepsTrace(s, step.id);
      } else {
        OtherStepsKeepTrace(s, step);
      }
    }
  }

  lemma {:induction false} RunsKeepTrace(steps: seq<Step>)
    requires After(steps).Some? && forall step <- steps :: !Overwrites(step)
    ensures CrashInv(After(steps).value)
    decreases |steps|
  {
    if steps != [] {
      var front := steps[..|steps| - 1];
      assert forall step <- front :: step in steps;
      RunsKeepTrace(front);
      RunsKeepLock(front);
      StepKeepsTrace(After(front).value, steps[|steps| - 1]);
    }
  }

  /**
   Gate crash safety: over every run of actions, handoffs to the user, child
   inheritance, exits and kills, a mutating action that died before its cleanup is
   still recorded in the gate or has its marker on disk, and no write is admitted
   after it, even if the recovery itself is killed.
   */
  lemma NoWriteAfterLoss(steps: seq<Step>, s: Sys)
    requires After(steps) == Some(s) && (forall step <- steps :: !Overwrites(step)) && s.lost != {}
    ensures s.marker || MutationPending(s.gate)
    ensures forall h :: Enabled(s, GuardAdmits(h)) ==> !s.helpers[h].write
  {
    RunsKeepTrace(steps);
  }

  /** Exactly the two overwriting steps, and only without a marker, erase the trace. */
  lemma TraceErasedExactly(s: Sys, step: Step)
    requires LockInv(s) && CrashInv(s) && Enabled(s, step) && s.lost != {}
    ensures Do(s, step).marker || MutationPending(Do(s, step).gate) <==> s.marker || !Overwrites(step)
  {
    if !Overwrites(step) {
      StepKeepsTrace(s, step);
    }
  }

  lemma Extend(steps: seq<Step>, s: Sys, step: Step, s': Sys)
    requires After(steps) == Some(s) && Enabled(s, step) && Do(s, step) == s'
    ensures After(steps + [step]) == Some(s')
  {
    assert (steps + [step])[..|steps|] == steps;
  }

  // ---- a run that forgets --------------------------------------------------

  const KEY := Key("actions", "Event Details!B10")
  const WRITER := Helper(true, KEY, Locked, false, NotLogged, "")
  const PENDING := Entered(INITIAL, true)

  const F1 := Start.(owner := Some(1), helpers := map[1 := WRITER])
  const F2 := F1.(gate := PENDING, helpers := map[1 := WRITER.(pc := Inside)])
  const F3 := F2.(owner := None, lost := {1}, helpers := map[1 := WRITER.(pc := Killed)])
  const F4 := F3.(gate := INITIAL)
  const F5 := F4.(owner := Some(2), helpers := map[1 := WRITER.(pc := Killed), 2 := WRITER])
  const F6 := F5.(gate := PENDING, helpers := map[1 := WRITER.(pc := Killed), 2 := WRITER.(pc := Inside)])

  ghost predicate Leads(s: Sys, step: Step, s': Sys) { Enabled(s, step) && Do(s, step) == s' }

  lemma FirstWriterDies()
    ensures Leads(Start, Lock(1, true, KEY), F1) && Leads(F1, Enter(1), F2) && Leads(F2, Kill(1), F3)
  {
    assert Start.helpers[1 := WRITER] == F1.helpers;
    assert F1.helpers[1 := WRITER.(pc := Inside)] == F2.helpers;
    assert F2.helpers[1 := WRITER.(pc := Killed)] == F3.helpers;
    assert {} + {1} == F3.lost;
  }

  lemma SecondWriterEnters()
    ensures Leads(F3, Initialize, F4) && Leads(F4, Lock(2, true, KEY), F5) && Leads(F5, Enter(2), F6)
  {
    assert F4.helpers[2 := WRITER] == F5.helpers;
    assert F5.helpers[2 := WRITER.(pc := Inside)] == F6.helpers;
  }

  /** Re-initialising the gate after a kill lets the next write in. */
  lemma InitializeForgets() returns (steps: seq<Step>)
    ensures After(steps) == Some(F6)
    ensures F6.lost != {} && 2 in F6.helpers && F6.helpers[2].write && Enabled(F6, GuardAdmits(2))
  {
    FirstWriterDies();
    SecondWriterEnters();
    Extend([], Start, Lock(1, true, KEY), F1);
    steps := [] + [Lock(1, true, KEY)];
    Extend(steps, F1, Enter(1), F2);
    steps := steps + [Enter(1)];
    Extend(steps, F2, Kill(1), F3);
    steps := steps + [Kill(1)];
    Extend(steps, F3, Initialize, F4);
    steps := steps + [Initialize];
    Extend(steps, F4, Lock(2, true, KEY), F5);
    steps := steps + [Lock(2, true, KEY)];
    Extend(steps, F5, Enter(2), F6);
    steps := steps + [Enter(2)];
  }
}
