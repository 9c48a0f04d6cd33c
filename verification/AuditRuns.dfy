/** Concrete runs of the write router, and what the readers make of the logs they leave. */
module AuditRuns {
  import W = Wrappers
  import opened MutationOutcome
  import opened WriteRouter
  import Audit = AuditConservation
  import Text = AuditText
  import Gate = BrowserGate

  /** Nobody holds the lock, the record is idle and agent-owned, and no marker exists. */
  predicate Quiet(s: Sys) { s.owner == W.None && !s.marker && s.gate.actor == Gate.Nobody && Gate.AgentOwned(s.gate) }

  /** The lines and the final helper of a write that runs to its end without leaving doubt. */
  predicate Clear(result: Result) { result == Result.Success || result == Failure(0) }

  function OutcomeLine(key: Key, result: Result, at: string): Line {
    Entry(if result == Result.Success then Verdict.Succeeded else RejectedPrewrite, Stamp.At(at), key, false)
  }

  function Wrote(key: Key, result: Result, at: string): Helper {
    Helper(true, key, Finished, false, if result == Result.Success then Logging.Succeeded else Rejected, at)
  }

  function AttemptLine(key: Key, at: string): Line { Entry(Attempted, Stamp.At(at), key, false) }

  function AfterEntry(g: Gate.Record): Gate.Record { Gate.Left(Gate.Entered(g, true)) }

  lemma Go(steps: seq<Step>, s: Sys, step: Step) returns (more: seq<Step>, t: Sys)
    requires After(steps) == W.Some(s) && Enabled(s, step)
    ensures After(more) == W.Some(t) && t == Do(s, step) && more == steps + [step]
  {
    more, t := steps + [step], Do(s, step);
    Extend(steps, s, step, t);
  }

  /** Taking the lock and entering the record. */
  lemma WriteEnters(steps: seq<Step>, s: Sys, id: HelperId, key: Key) returns (more: seq<Step>, t: Sys)
    requires After(steps) == W.Some(s) && Quiet(s) && id !in s.helpers
    ensures After(more) == W.Some(t) && more == steps + [Lock(id, true, key), Enter(id)]
    ensures t == s.(owner := W.Some(id), gate := Gate.Entered(s.gate, true),
                    helpers := s.helpers[id := Helper(true, key, Inside, false, NotLogged, "")])
  {
    more, t := Go(steps, s, Lock(id, true, key));
    more, t := Go(more, t, Enter(id));
    assert t.helpers == s.helpers[id := Helper(true, key, Inside, false, NotLogged, "")];
  }

  /** The steps of a write up to its logged attempt. */
  lemma WriteBegins(steps: seq<Step>, s: Sys, id: HelperId, key: Key, at: string) returns (more: seq<Step>, t: Sys)
    requires After(steps) == W.Some(s) && Quiet(s) && id !in s.helpers
    ensures After(more) == W.Some(t)
    ensures more == steps + [Lock(id, true, key), Enter(id), GuardAdmits(id), LogAttempt(id, at)]
    ensures t == s.(owner := W.Some(id), gate := Gate.Entered(s.gate, true), log := s.log + [AttemptLine(key, at)],
                    helpers := s.helpers[id := Helper(true, key, Logged, false, Open, at)])
  {
    more, t := WriteEnters(steps, s, id, key);
    more, t := Go(more, t, GuardAdmits(id));
    more, t := Go(more, t, LogAttempt(id, at));
    assert t.helpers == s.helpers[id := Helper(true, key, Logged, false, Open, at)];
  }

  /** The child runs and returns. */
  lemma WriteReturns(steps: seq<Step>, s: Sys, id: HelperId, h: Helper, result: Result)
    returns (more: seq<Step>, t: Sys)
    requires After(steps) == W.Some(s) && id in s.helpers && s.helpers[id] == h && h.write && h.pc == Logged && !h.child
    ensures After(more) == W.Some(t) && more == steps + [Dispatch(id), ChildEnds(id), Return(id, result)]
    ensures t == s.(helpers := s.helpers[id := h.(pc := Cleaning(Report(result)))])
  {
    more, t := Go(steps, s, Dispatch(id));
    more, t := Go(more, t, ChildEnds(id));
    more, t := Go(more, t, Return(id, result));
    assert t.helpers == s.helpers[id := h.(pc := Cleaning(Report(result)))];
  }

  /** The record is cleaned, the lock released, and then the outcome logged. */
  lemma WriteEnds(steps: seq<Step>, s: Sys, id: HelperId, h: Helper, result: Result, at: string)
    returns (more: seq<Step>, t: Sys)
    requires After(steps) == W.Some(s) && id in s.helpers && s.helpers[id] == h && h.write && s.owner == W.Some(id)
    requires h.pc == Cleaning(Report(result)) && Clear(result)
    ensures After(more) == W.Some(t)
    ensures t == s.(gate := Gate.Left(s.gate), owner := W.None, log := s.log + [OutcomeLine(h.key, result, at)],
                    helpers := s.helpers[id := h.(pc := Finished, logging :=
                      if result == Result.Success then Logging.Succeeded else Rejected)])
  {
    more, t := Go(steps, s, Clean(id));
    more, t := Go(more, t, Unlock(id));
    more, t := Go(more, t, LogOutcome(id, at));
    assert t.helpers == s.helpers[id := h.(pc := Finished, logging :=
      if result == Result.Success then Logging.Succeeded else Rejected)];
  }

  /** A whole write on a quiet router leaves it quiet, with its two lines in the log. */
  lemma WholeWrite(steps: seq<Step>, s: Sys, id: HelperId, key: Key, began: string, result: Result, ended: string)
    returns (more: seq<Step>, t: Sys)
    requires After(steps) == W.Some(s) && Quiet(s) && id !in s.helpers && Clear(result)
    ensures After(more) == W.Some(t) && Quiet(t) && t.lost == s.lost
    ensures t.log == s.log + [AttemptLine(key, began)] + [OutcomeLine(key, result, ended)]
    ensures t.helpers == s.helpers[id := Wrote(key, result, began)]
  {
    more, t := WriteBegins(steps, s, id, key, began);
    var h := t.helpers[id];
    more, t := WriteReturns(more, t, id, h, result);
    more, t := WriteEnds(more, t, id, h.(pc := Cleaning(Report(result))), result, ended);
    assert t.helpers == s.helpers[id := Wrote(key, result, began)];
  }

  // ---- a resolved success hides a later attempt -------------------------------------

  /** A write succeeds, and a second one on the same key is killed after its attempt was logged. */
  lemma SecondWriteKilled() returns (steps: seq<Step>, s: Sys)
    ensures After(steps) == W.Some(s) && s.log == [Audit.FIRST, Audit.DONE, Audit.SECOND] && !s.marker
    ensures 2 in s.helpers && s.helpers[2] == Helper(true, Audit.EVENT_DATE, Killed, false, Open, "3")
  {
    steps, s := WholeWrite([], Start, 1, Audit.EVENT_DATE, "1", Result.Success, "2");
    assert s.log == [Audit.FIRST, Audit.DONE];
    steps, s := WriteBegins(steps, s, 2, Audit.EVENT_DATE, "3");
    steps, s := Go(steps, s, Kill(2));
  }

  /** When the operator has resolved the first attempt of that run, the reader of its log calls the job resolved. */
  lemma RouterLeavesHiddenAttempt() returns (steps: seq<Step>, s: Sys)
    ensures After(steps) == W.Some(s) && Audit.LeftBy(s, Audit.HIDING)
    ensures 2 in s.helpers && s.helpers[2].pc == Killed
    ensures 2 in Audit.Unanswered(s, ResolvedBy(Audit.HIDING.resolutions)) && !OutcomeOf(Audit.HIDING).unresolved
  {
    steps, s := SecondWriteKilled();
    Audit.ResolvedSuccessHidesAttempt();
  }

  // ---- a separator in a message holds a finished job --------------------------------

  const KEY1 := Key("actions", "Event Details!B10")

  const BEFORE := Text.Written("1", "actions", "Event Details!B10", "e", W.None, "attempted", W.None)
  const REFUSED := Text.Written("2", "actions", "Event Details!B10", "e", W.None, "rejected_prewrite",
                                W.Some("a" + [Text.LINE_SEPARATOR] + "b"))

  function Held(parse: string -> Line): Directory {
    Directory(false, false, W.Some(Text.ReadLines(parse, Text.File([BEFORE, REFUSED]))), NoFile)
  }

  lemma RefusedWrite() returns (steps: seq<Step>, s: Sys)
    ensures After(steps) == W.Some(s) && Audit.OpenAttempts(s) == {} && !s.marker
    ensures s.log == [AttemptLine(KEY1, "1"), OutcomeLine(KEY1, Failure(0), "2")]
  {
    steps, s := WholeWrite([], Start, 1, KEY1, "1", Failure(0), "2");
    assert s.helpers == map[1 := Wrote(KEY1, Failure(0), "1")];
  }

  /**
   A write that was refused before anything was dispatched, and whose message holds
   a line separator: no attempt is open and no marker exists, and the job is
   nevertheless unresolved.
   */
  lemma SeparatorHoldsJob(parse: string -> Line) returns (steps: seq<Step>, s: Sys)
    requires Text.ReadsJson(parse)
    ensures After(steps) == W.Some(s) && Audit.OpenAttempts(s) == {} && !s.marker
    ensures Text.HoldsText(parse, [BEFORE, REFUSED], s, Held(parse)) && OutcomeOf(Held(parse)).unresolved
  {
    steps, s := RefusedWrite();
    TwoLines();
    MessageIsBroken();
    assert Text.HoldsText(parse, [BEFORE, REFUSED], s, Held(parse));
    Text.TextOutcome(parse, [BEFORE, REFUSED], steps, s, Held(parse));
  }

  lemma TwoLines()
    ensures Text.LinesOf([BEFORE, REFUSED]) == [AttemptLine(KEY1, "1"), OutcomeLine(KEY1, Failure(0), "2")]
  {
    assert [BEFORE, REFUSED][1..] == [REFUSED] && [REFUSED][1..] == [];
    assert Text.LinesOf([REFUSED]) == [Text.LineOf(REFUSED)];
  }

  lemma MessageIsBroken()
    ensures exists w <- [BEFORE, REFUSED] :: Text.Broken(w)
  {
    var message := "a" + [Text.LINE_SEPARATOR] + "b";
    assert message[1] == Text.LINE_SEPARATOR && message[1] in message;
    assert Text.HasSeparator(message);
    assert REFUSED in [BEFORE, REFUSED];
  }
}
