/**
 Who has the browser over whole runs: the human from a takeover until control is
 given back, and the agent from a verified hand-back on.
 */
module Takeover {
  import opened Wrappers
  import opened BrowserGate
  import opened WriteRouter
  import Runs = AuditRuns
  import MutationOutcome

  /** The steps that take the browser from the human. */
  predicate TakesBack(step: Step) { step.ShieldAgent? || step.Initialize? || step == HandBack(true) }

  /** While the human has the browser, exactly those steps end it. */
  lemma ViewerEndsExactly(s: Sys, step: Step)
    requires ViewerEnabled(s.gate) && Enabled(s, step)
    ensures ViewerEnabled(Do(s, step).gate) <==> !TakesBack(step)
  {}

  /** The human has the browser and no agent action is or can be under way. */
  ghost predicate HumanHas(s: Sys) {
    && ViewerEnabled(s.gate)
    && (forall id <- s.helpers :: !InProgress(s.helpers[id]))
    && (forall id :: !Enabled(s, Enter(id)))
  }

  lemma ViewerExcludesAgent(steps: seq<Step>, s: Sys)
    requires After(steps) == Some(s) && ViewerEnabled(s.gate)
    ensures HumanHas(s)
  {
    RunsKeepLock(steps);
  }

  lemma HandsOver(s: Sys, handover: Step)
    requires Enabled(s, handover) && (handover == TakeControl || handover == HandBack(false))
    ensures ViewerEnabled(Do(s, handover).gate)
  {
    HandoverMeaning(s.gate, s.marker);
  }

  lemma {:induction false} ViewerStays(before: seq<Step>, since: seq<Step>, s: Sys, t: Sys)
    requires After(before) == Some(s) && ViewerEnabled(s.gate) && After(before + since) == Some(t)
    requires forall step <- since :: !TakesBack(step)
    ensures ViewerEnabled(t.gate)
    decreases |since|
  {
    if since == [] {
      assert before + since == before;
    } else {
      var sooner, last := since[..|since| - 1], since[|since| - 1];
      assert (before + since)[..|before + since| - 1] == before + sooner;
      assert last in since && forall step <- sooner :: step in since;
      ViewerStays(before, sooner, s, After(before + sooner).value);
      ViewerEndsExactly(After(before + sooner).value, last);
    }
  }

  /**
   Over every run: from a takeover on, and likewise from a rejected return, viewer
   input is forwarded and no agent action is under way or admitted, until the agent
   is shielded, the gate is initialised, or a return is verified.
   */
  lemma HumanKeepsBrowser(before: seq<Step>, handover: Step, since: seq<Step>, s: Sys, t: Sys)
    requires After(before) == Some(s) && Enabled(s, handover) && (handover == TakeControl || handover == HandBack(false))
    requires After(before + [handover] + since) == Some(t) && forall step <- since :: !TakesBack(step)
    ensures HumanHas(t)
  {
    HandsOver(s, handover);
    assert (before + [handover])[..|before|] == before;
    ViewerStays(before + [handover], since, Do(s, handover), t);
    ViewerExcludesAgent(before + [handover] + since, t);
  }

  /** The user has asked for the browser: the running action may end, and no other gets in. */
  ghost predicate Asked(s: Sys) { s.gate.desired == User && forall id :: !Enabled(s, Enter(id)) && !Enabled(s, MarkAbandoned(id)) }

  lemma RequestStays(s: Sys, step: Step)
    requires s.gate.desired == User && Enabled(s, step) && !TakesBack(step)
    ensures Do(s, step).gate.desired == User
  {}

  lemma {:induction false} DesireStays(before: seq<Step>, since: seq<Step>, s: Sys, t: Sys)
    requires After(before) == Some(s) && s.gate.desired == User && After(before + since) == Some(t)
    requires forall step <- since :: !TakesBack(step)
    ensures t.gate.desired == User
    decreases |since|
  {
    if since == [] {
      assert before + since == before;
    } else {
      var sooner, last := since[..|since| - 1], since[|since| - 1];
      assert (before + since)[..|before + since| - 1] == before + sooner;
      assert last in since && forall step <- sooner :: step in since;
      DesireStays(before, sooner, s, After(before + sooner).value);
      RequestStays(After(before + sooner).value, last);
    }
  }

  /** Over every run: from a request for the browser on, no action is admitted until one of those three steps. */
  lemma RequestStopsActions(before: seq<Step>, since: seq<Step>, s: Sys)
    requires After(before + [RequestUser] + since) == Some(s) && After(before).Some?
    requires forall step <- since :: !TakesBack(step)
    ensures Asked(s)
  {
    assert (before + [RequestUser])[..|before|] == before;
    DesireStays(before + [RequestUser], since, Do(After(before).value, RequestUser), s);
    assert !AgentOwned(s.gate);
  }

  /** After a verified return the viewer is off and the next action gets in. */
  lemma AgentResumes(before: seq<Step>, s: Sys, id: HelperId, write: bool, key: MutationOutcome.Key)
    returns (steps: seq<Step>, t: Sys)
    requires After(before + [HandBack(true)]) == Some(s) && id !in s.helpers
    ensures !ViewerEnabled(s.gate)
    ensures After(steps) == Some(t) && steps == before + [HandBack(true)] + [Lock(id, write, key)] + [Enter(id)]
    ensures id in t.helpers && t.helpers[id].pc == Inside
  {
    var all := before + [HandBack(true)];
    assert all[..|before|] == before;
    HandoverMeaning(After(before).value.gate, s.marker);
    var u: Sys;
    steps, u := Runs.Go(all, s, Lock(id, write, key));
    steps, t := Runs.Go(steps, u, Enter(id));
  }
}
