/**
 The durable gate record (`browser-gate.json`) and the operations that rewrite it
 (`browser_gate.py`, and `take_control` / `return_to_agent` in `app.py`).

 Each read-modify-write of the record is one atomic step.
 */
module BrowserGate {
  import opened ControlStore

  datatype Owner = Agent | User

  datatype Actor = Nobody | Automation | Human

  /** `inherited`: the record carries the inherited-lock protocol tag. */
  datatype Record = Record(ownership: Owner, desired: Owner, actor: Actor, inherited: bool, mutationPossible: bool)

  const INITIAL := Record(Agent, Agent, Nobody, false, false)

  predicate AgentOwned(g: Record) { g.ownership == Agent && g.desired == Agent }

  /** The viewer forwards input only in this state. */
  predicate ViewerEnabled(g: Record) { g.ownership == User && g.desired == User }

  /** Somebody was acting and may have been in the middle of a mutation. */
  predicate MutationPending(g: Record) { g.actor != Nobody && g.inherited && g.mutationPossible }

  datatype Admission = Refused | LegacyHelper | MustMark | Free

  /** What `action` decides about the record it finds, holding the kernel lock. */
  function Admit(g: Record, marker: bool): Admission {
    if !AgentOwned(g) then Refused
    else if g.actor == Nobody then Free
    else if !g.inherited then LegacyHelper
    else if g.mutationPossible && !marker then MustMark
    else Free
  }

  /** Who gets in, and when the marker is written first. */
  lemma AdmissionMeaning(g: Record, marker: bool)
    ensures Admit(g, marker) in {MustMark, Free} <==> AgentOwned(g) && (g.actor == Nobody || g.inherited)
    ensures Admit(g, marker) == MustMark <==> AgentOwned(g) && MutationPending(g) && !marker
  {}

  function Entered(g: Record, write: bool): Record {
    g.(actor := Automation, inherited := true, mutationPossible := write)
  }

  function Left(g: Record): Record { g.(actor := Nobody, mutationPossible := false) }

  function TakenOver(g: Record): Record { g.(ownership := User, desired := User, actor := Human) }

  function HandedBack(g: Record): Record { g.(ownership := Agent, desired := Agent, actor := Nobody) }

  /** Who has the browser after a handover: the human alone, or the next agent action. */
  lemma HandoverMeaning(g: Record, marker: bool)
    ensures ViewerEnabled(TakenOver(g)) && Admit(TakenOver(g), marker) == Refused
    ensures !ViewerEnabled(HandedBack(g)) && Admit(HandedBack(g), marker) == Free
    ensures !ViewerEnabled(INITIAL) && Admit(INITIAL, marker) == Free
  {}

  /** An action is recorded while it may be interrupted, and no longer once it is cleaned up; ownership is not touched. */
  lemma ActionMeaning(g: Record, write: bool)
    ensures MutationPending(Entered(g, write)) <==> write
    ensures !MutationPending(Left(g)) && !Left(g).mutationPossible && (AgentOwned(g) ==> forall marker :: Admit(Left(g), marker) == Free)
    ensures AgentOwned(Entered(g, write)) == AgentOwned(g) && AgentOwned(Left(g)) == AgentOwned(g)
    ensures ViewerEnabled(Entered(g, write)) == ViewerEnabled(g) && ViewerEnabled(Left(g)) == ViewerEnabled(g)
  {}

  /** Control left with the human by a worker that has ended, in a state from which the job can go on. */
  predicate StaleControl(g: Record, state: JobState) {
    g.ownership == User && state in {LoginRequired, FailedPrewrite, FailedRecoverable, Failed, ReviewRequired}
  }

  /** The record and the uncertainty marker of one job directory. */
  class GateFiles {
    var record: Record
    var marker: bool

    constructor ()
      ensures record == Record(Agent, Agent, Nobody, false, false) && !marker
    {
      record, marker := INITIAL, false;
    }

    method Initialize()
      modifies this`record
      ensures record == Record(Agent, Agent, Nobody, false, false)
    {
      record := INITIAL;
    }

    method RequestUser()
      modifies this`record
      ensures record == old(record).(desired := User)
    {
      record := record.(desired := User);
    }

    method ShieldAgent()
      modifies this`record
      ensures record == old(record).(desired := Agent)
    {
      record := record.(desired := Agent);
    }

    /**
     The entry of `action`, with the kernel lock held.  A record left by a dead
     mutating helper puts the marker on disk before the record is overwritten.
     */
    method EnterAction(write: bool) returns (entered: bool)
      modifies this
      ensures entered <==> AgentOwned(old(record)) && (old(record).actor == Nobody || old(record).inherited)
      ensures record == if entered then Entered(old(record), write) else old(record)
      ensures marker <==> old(marker) || (entered && MutationPending(old(record)))
    {
      var data := record;
      if !AgentOwned(data) {
        return false;
      }
      if data.actor != Nobody {
        if !data.inherited {
          return false;
        }
        if data.mutationPossible && !marker {
          marker := true;
        }
      }
      record := Entered(data, write);
      return true;
    }

    /** The `finally` of `action`. */
    method LeaveAction()
      modifies this`record
      ensures record == Left(old(record))
    {
      record := record.(actor := Nobody, mutationPossible := false);
    }

    method TakeControl()
      modifies this`record
      ensures record == TakenOver(old(record))
      ensures ViewerEnabled(record) && Admit(record, marker) == Refused
    {
      record := record.(desired := User);
      record := record.(ownership := User, desired := User, actor := Human);
    }

    /** With no agent running there is nothing to resume: a stale record of the human's is reset, for those states. */
    method ReturnToAgent(running: bool, state: JobState, loginVerified: bool) returns (ok: bool)
      modifies this`record
      ensures running ==> record == if loginVerified then HandedBack(old(record)) else TakenOver(old(record))
      ensures running && loginVerified ==> !ViewerEnabled(record) && Admit(record, marker) == Free
      ensures running && !loginVerified ==> ViewerEnabled(record) && Admit(record, marker) == Refused
      ensures !running ==> record == if ok then INITIAL else old(record)
      ensures running ==> ok == loginVerified
      ensures !running ==> (ok <==> old(record).ownership == User && Startable(state) && state != Draft && state != Cancelled)
    {
      if !running {
        ok := StaleControl(record, state);
        if ok {
          Initialize();
        }
        return;
      }
      ok := loginVerified;
      record := record.(desired := Agent);
      if loginVerified {
        record := record.(ownership := Agent, desired := Agent, actor := Nobody);
      } else {
        record := record.(ownership := User, desired := User, actor := Human);
      }
    }
  }
}
