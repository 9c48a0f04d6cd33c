/**
 The write router's log against the reader of durable evidence.

 The router appends one line when a write is admitted and another when its outcome
 is known, from helpers that may be killed at any step; the reader sees only the
 lines.  The theorems say the reader's counters are exactly the numbers of helpers
 in each state, over every run.
 */
module AuditConservation {
  import opened Wrappers
  import opened MutationOutcome
  import opened WriteRouter

  // ---- what the log says about a helper ------------------------------------

  /** A helper's place in the router determines what the log says about its attempt. */
  ghost predicate LoggingOk(h: Helper) {
    && (!h.write ==> h.logging == NotLogged)
    && match h.pc
       case Locked => h.logging == NotLogged
       case Inside => h.logging == NotLogged
       case Admitted => h.logging == NotLogged
       case Probing => h.logging == NotLogged
       case Logged => h.logging == Open
       case Dispatched => h.write ==> h.logging == Open
       case TimedOut => h.logging == Open
       case TimeoutLogged => h.logging == Open
       case Cleaning(exit) => LeavingOk(h, exit)
       case Unlocking(exit) => LeavingOk(h, exit)
       case Reporting(_) => h.logging == Open
       case MarkDue => h.logging == Open
       case Finished => true
       case Killed => true
  }

  ghost predicate LeavingOk(h: Helper, exit: Exit) {
    if exit.Report? then h.write ==> h.logging == Open else h.logging == NotLogged || h.logging == Open
  }

  ghost predicate LoggingInv(s: Sys) { forall id <- s.helpers :: LoggingOk(s.helpers[id]) }

  predicate Logs(step: Step) { step.LogAttempt? || step.LogTimeout? || step.LogOutcome? }

  lemma EarlyLoggingStep(s: Sys, step: Step)
    requires LoggingInv(s) && Enabled(s, step) && Mover(step).Some? && Early(step)
    ensures Mover(step).value in Do(s, step).helpers && LoggingOk(Do(s, step).helpers[Mover(step).value])
  {
    assert Mover(step).value in s.helpers ==> LoggingOk(s.helpers[Mover(step).value]);
  }

  lemma MiddleLoggingStep(s: Sys, step: Step)
    requires LoggingInv(s) && Enabled(s, step)
    requires Middle(step) || step.ChildEnds?
    ensures step.id in Do(s, step).helpers && LoggingOk(Do(s, step).helpers[step.id])
  {
    assert LoggingOk(s.helpers[step.id]);
  }

  lemma CleaningLoggingStep(s: Sys, step: Step)
    requires LoggingInv(s) && Enabled(s, step) && (step.MarkTimeout? || step.Clean? || step.Unlock?)
    ensures step.id in Do(s, step).helpers && LoggingOk(Do(s, step).helpers[step.id])
  {
    assert LoggingOk(s.helpers[step.id]);
  }

  lemma LateLoggingStep(s: Sys, step: Step)
    requires LoggingInv(s) && Enabled(s, step) && (step.LogOutcome? || step.MarkFailure? || step.Kill?)
    ensures step.id in Do(s, step).helpers && LoggingOk(Do(s, step).helpers[step.id])
  {
    assert LoggingOk(s.helpers[step.id]);
  }

  lemma StepKeepsLogging(s: Sys, step: Step)
    requires LoggingInv(s) && Enabled(s, step)
    ensures LoggingInv(Do(s, step))
  {
    var s' := Do(s, step);
    if Mover(step).Some? {
      if Early(step) {
        EarlyLoggingStep(s, step);
      } else if Middle(step) || step.ChildEnds? {
        MiddleLoggingStep(s, step);
      } else if step.MarkTimeout? || step.Clean? || step.Unlock? {
        CleaningLoggingStep(s, step);
      } else {
        LateLoggingStep(s, step);
      }
    }
    forall id <- s'.helpers ensures LoggingOk(s'.helpers[id]) {
      if Mover(step) != Some(id) {
        OthersStay(s, step, id);
      }
    }
  }

  /** The helper contributes a line of this kind to the log. */
  predicate Has(kind: Kind, h: Helper, known: Resolved) {
    match kind
    case Attempt => h.logging != NotLogged
    case Success => h.logging == Logging.Succeeded
    case Rejection => h.logging == Rejected
    case NotPersisted =>
      h.logging != NotLogged && (At(h.at), h.key) in known && !known[(At(h.at), h.key)]
    case Persisted =>
      h.logging != NotLogged && (At(h.at), h.key) in known && known[(At(h.at), h.key)]
  }

  function At(at: string): Stamp { Stamp.At(at) }

  function Members(kind: Kind, helpers: map<HelperId, Helper>, known: Resolved): set<HelperId> {
    set id | id in helpers && Has(kind, helpers[id], known)
  }

  /** Those of the helpers that write under this key. */
  function OfKey(ids: set<HelperId>, helpers: map<HelperId, Helper>, k: Key): set<HelperId>
    requires ids <= helpers.Keys
  {
    set id | id in ids && helpers[id].key == k
  }

  /** The helpers that contribute a line of this kind under this key. */
  function Contributors(s: Sys, kind: Kind, known: Resolved, k: Key): set<HelperId> {
    OfKey(Members(kind, s.helpers, known), s.helpers, k)
  }

  ghost predicate Counted(s: Sys, kind: Kind, known: Resolved, k: Key) {
    Count(kind, s.log, known, k) == |Contributors(s, kind, known, k)|
  }

  // ---- every step keeps the counts -----------------------------------------

  lemma CountAppend(kind: Kind, lines: seq<Line>, l: Line, known: Resolved, k: Key)
    ensures Count(kind, lines + [l], known, k)
      == Count(kind, lines, known, k) + if Is(kind, l, known) && l.key == k then 1 else 0
  {
    assert (lines + [l])[..|lines|] == lines;
  }

  /** The key of a helper never changes, and a line it contributed is never taken back. */
  lemma OwnContribution(s: Sys, step: Step, kind: Kind, known: Resolved)
    requires LoggingInv(s) && Enabled(s, step) && Mover(step).Some?
    ensures var id, t := Mover(step).value, Do(s, step);
      && id in t.helpers
      && (id in s.helpers ==> t.helpers[id].key == s.helpers[id].key)
      && (id in s.helpers && Has(kind, s.helpers[id], known) ==> Has(kind, t.helpers[id], known))
  {
    var id := Mover(step).value;
    assert id in s.helpers ==> LoggingOk(s.helpers[id]);
  }

  /** The helper the step belongs to starts to contribute a line of the kind. */
  ghost predicate Starts(s: Sys, step: Step, kind: Kind, known: Resolved, k: Key)
    requires Enabled(s, step) && Mover(step).Some? && Mover(step).value in Do(s, step).helpers
  {
    var id, t := Mover(step).value, Do(s, step);
    Has(kind, t.helpers[id], known) && !(id in s.helpers && Has(kind, s.helpers[id], known))
      && t.helpers[id].key == k
  }

  function Extra(b: bool): nat { if b then 1 else 0 }

  lemma QuietStep(s: Sys, step: Step, kind: Kind, known: Resolved, k: Key)
    requires LoggingInv(s) && Enabled(s, step) && Mover(step).Some? && !Logs(step)
    ensures Mover(step).value in Do(s, step).helpers
    ensures Do(s, step).log == s.log && !Starts(s, step, kind, known, k)
  {
    var id := Mover(step).value;
    assert id in s.helpers ==> LoggingOk(s.helpers[id]);
    if id in s.helpers {
      assert Do(s, step).helpers[id].logging == s.helpers[id].logging;
    }
  }

  /** The step appends one line, of the kind and key exactly when its helper starts to contribute one. */
  ghost predicate AppendsLine(s: Sys, step: Step, kind: Kind, known: Resolved, k: Key)
    requires Enabled(s, step) && Logs(step)
  {
    && step.id in Do(s, step).helpers && |Do(s, step).log| == |s.log| + 1
    && Do(s, step).log == s.log + [Do(s, step).log[|s.log|]]
    && (Is(kind, Do(s, step).log[|s.log|], known) && Do(s, step).log[|s.log|].key == k <==>
          Starts(s, step, kind, known, k))
  }

  lemma AttemptLine(s: Sys, id: HelperId, at: string, kind: Kind, known: Resolved, k: Key)
    requires LoggingInv(s) && Enabled(s, LogAttempt(id, at))
    ensures AppendsLine(s, LogAttempt(id, at), kind, known, k)
  {
    assert LoggingOk(s.helpers[id]);
    var t := Do(s, LogAttempt(id, at));
    assert t.helpers[id].logging == Open && t.helpers[id].at == at;
    assert t.log[|s.log|] == Record(s.helpers[id], Attempted, at);
  }

  lemma TimeoutLine(s: Sys, id: HelperId, at: string, kind: Kind, known: Resolved, k: Key)
    requires LoggingInv(s) && Enabled(s, LogTimeout(id, at))
    ensures AppendsLine(s, LogTimeout(id, at), kind, known, k)
  {
    var t := Do(s, LogTimeout(id, at));
    assert t.helpers[id] == s.helpers[id].(pc := TimeoutLogged);
    assert t.log[|s.log|] == Record(s.helpers[id], OtherVerdict, at);
  }

  lemma OutcomeLine(s: Sys, id: HelperId, at: string, kind: Kind, known: Resolved, k: Key)
    requires LoggingInv(s) && Enabled(s, LogOutcome(id, at))
    ensures AppendsLine(s, LogOutcome(id, at), kind, known, k)
  {
    assert LoggingOk(s.helpers[id]);
    var h, t := s.helpers[id], Do(s, LogOutcome(id, at));
    assert t.helpers[id].key == h.key && t.helpers[id].at == h.at && h.logging == Open;
    assert t.log[|s.log|].Entry? && t.log[|s.log|].key == h.key;
  }

  /** A line of the kind is appended exactly when the helper starts to contribute one. */
  lemma OwnLine(s: Sys, step: Step, kind: Kind, known: Resolved, k: Key)
    requires LoggingInv(s) && Enabled(s, step) && Mover(step).Some?
    ensures Mover(step).value in Do(s, step).helpers
    ensures Count(kind, Do(s, step).log, known, k)
      == Count(kind, s.log, known, k) + Extra(Starts(s, step, kind, known, k))
  {
    if Logs(step) {
      match step {
        case LogAttempt(id, at) => AttemptLine(s, id, at, kind, known, k);
        case LogTimeout(id, at) => TimeoutLine(s, id, at, kind, known, k);
        case LogOutcome(id, at) => OutcomeLine(s, id, at, kind, known, k);
      }
      CountAppend(kind, s.log, Do(s, step).log[|s.log|], known, k);
    } else {
      QuietStep(s, step, kind, known, k);
    }
  }

  lemma GrowsByOne(before: set<HelperId>, after: set<HelperId>, id: HelperId)
    requires forall other :: other != id ==> (other in before <==> other in after)
    requires id in before ==> id in after
    ensures |after| == |before| + Extra(id in after && id !in before)
  {
    if id in after && id !in before {
      assert after == before + {id};
    } else {
      assert after == before;
    }
  }

  lemma OthersStayMembers(s: Sys, step: Step, kind: Kind, known: Resolved, k: Key, other: HelperId)
    requires Enabled(s, step) && Mover(step) != Some(other)
    ensures other in OfKey(Members(kind, s.helpers, known), s.helpers, k) <==>
      other in OfKey(Members(kind, Do(s, step).helpers, known), Do(s, step).helpers, k)
  {
    OthersStay(s, step, other);
  }

  lemma GateStepLogsNothing(s: Sys, step: Step)
    requires Enabled(s, step) && Mover(step).None?
    ensures Do(s, step).helpers == s.helpers && Do(s, step).log == s.log
  {}

  /** The helpers of a kind and key, before and after, differ by at most the mover. */
  lemma ContributorsGrow(s: Sys, step: Step, kind: Kind, known: Resolved, k: Key)
    requires LoggingInv(s) && Enabled(s, step) && Mover(step).Some?
    requires Mover(step).value in Do(s, step).helpers
    ensures |Contributors(Do(s, step), kind, known, k)|
      == |Contributors(s, kind, known, k)| + Extra(Starts(s, step, kind, known, k))
  {
    var id, t := Mover(step).value, Do(s, step);
    OwnContribution(s, step, kind, known);
    forall other: HelperId ensures other != id ==>
      (other in Contributors(s, kind, known, k) <==> other in Contributors(t, kind, known, k))
    {
      if other != id { OthersStayMembers(s, step, kind, known, k, other); }
    }
    GrowsByOne(Contributors(s, kind, known, k), Contributors(t, kind, known, k), id);
  }

  lemma StepKeepsCount(s: Sys, step: Step, kind: Kind, known: Resolved, k: Key)
    requires LoggingInv(s) && Enabled(s, step) && Counted(s, kind, known, k)
    ensures Counted(Do(s, step), kind, known, k)
  {
    if Mover(step).None? {
      GateStepLogsNothing(s, step);
    } else {
      OwnLine(s, step, kind, known, k);
      ContributorsGrow(s, step, kind, known, k);
    }
  }

  predicate Sound(l: Line) { l.Entry? && l.at.At? }

  ghost predicate LogInv(s: Sys) {
    && LoggingInv(s)
    && (forall kind, known, k :: Counted(s, kind, known, k))
    && (forall l <- s.log :: Sound(l))
  }

  lemma {:induction false} RunsKeepLog(steps: seq<Step>)
    requires After(steps).Some?
    ensures LogInv(After(steps).value)
    decreases |steps|
  {
    if steps == [] {
      forall kind, known, k ensures Counted(Start, kind, known, k) {
        assert OfKey(Members(kind, Start.helpers, known), Start.helpers, k) == {};
      }
    } else {
      var front, step := steps[..|steps| - 1], steps[|steps| - 1];
      RunsKeepLog(front);
      var s := After(front).value;
      StepKeepsLogging(s, step);
      forall kind, known, k ensures Counted(Do(s, step), kind, known, k) {
        assert Counted(s, kind, known, k);
        StepKeepsCount(s, step, kind, known, k);
      }
    }
  }

  // ---- conservation --------------------------------------------------------

  /** Attempts with no recorded outcome: in flight, timed out, failed after dispatch, or killed. */
  function OpenAttempts(s: Sys): set<HelperId> {
    set id | id in s.helpers && s.helpers[id].logging == Open
  }

  lemma ThreeParts(all: set<HelperId>, a: set<HelperId>, b: set<HelperId>, c: set<HelperId>)
    requires forall id :: id in all <==> id in a || id in b || id in c
    requires forall id :: !(id in a && id in b) && !(id in a && id in c) && !(id in b && id in c)
    ensures |all| == |a| + |b| + |c|
  {
    assert all == a + b + c;
    assert |a + b + c| == |a + b| + |c|;
  }

  lemma AttemptsSplit(s: Sys, known: Resolved, k: Key)
    ensures |OfKey(Members(Attempt, s.helpers, known), s.helpers, k)|
      == |OfKey(Members(Rejection, s.helpers, known), s.helpers, k)|
       + |OfKey(Members(Kind.Success, s.helpers, known), s.helpers, k)|
       + |OfKey(OpenAttempts(s), s.helpers, k)|
  {
    var all := OfKey(Members(Attempt, s.helpers, known), s.helpers, k);
    var rejected := OfKey(Members(Rejection, s.helpers, known), s.helpers, k);
    var succeeded := OfKey(Members(Kind.Success, s.helpers, known), s.helpers, k);
    var open := OfKey(OpenAttempts(s), s.helpers, k);
    forall id: HelperId
      ensures id in all <==> id in rejected || id in succeeded || id in open
      ensures !(id in rejected && id in succeeded) && !(id in rejected && id in open)
      ensures !(id in succeeded && id in open)
    {
      if id in s.helpers && s.helpers[id].key == k {
        assert id in all <==> s.helpers[id].logging != NotLogged;
      }
    }
    ThreeParts(all, rejected, succeeded, open);
  }

  /**
   In every reachable log, for every key: the attempts are the rejections, the
   successes and the open attempts.
   */
  lemma Conservation(steps: seq<Step>, s: Sys, known: Resolved, k: Key)
    requires After(steps) == Some(s)
    ensures Count(Attempt, s.log, known, k) == Count(Rejection, s.log, known, k)
      + Count(Kind.Success, s.log, known, k) + |OfKey(OpenAttempts(s), s.helpers, k)|
  {
    RunsKeepLog(steps);
    assert Counted(s, Attempt, known, k) && Counted(s, Rejection, known, k) && Counted(s, Kind.Success, known, k);
    AttemptsSplit(s, known, k);
  }

  /** The operator has resolved only attempts that the log itself leaves open. */
  ghost predicate ResolvesOnlyOpen(s: Sys, known: Resolved) {
    forall id <- s.helpers ::
      (At(s.helpers[id].at), s.helpers[id].key) in known ==> s.helpers[id].logging in {NotLogged, Open}
  }

  /** Open attempts that the operator has not resolved. */
  function Unanswered(s: Sys, known: Resolved): set<HelperId> {
    set id | id in OpenAttempts(s) && (At(s.helpers[id].at), s.helpers[id].key) !in known
  }

  function Unrejected(s: Sys): set<HelperId> {
    set id | id in s.helpers && s.helpers[id].logging in {Open, Logging.Succeeded}
  }

  /** Attempts the operator has resolved, whatever the log says about them. */
  function Answered(s: Sys, known: Resolved): set<HelperId> {
    set id | id in s.helpers && s.helpers[id].logging != NotLogged && (At(s.helpers[id].at), s.helpers[id].key) in known
  }

  /**
   What the reader computes for a key, on every reachable log and with any
   resolutions: its first clamp never fires, its second fires exactly when more
   attempts of the key were resolved than are open, and what remains is the excess
   of open attempts over resolved ones.
   */
  lemma ReaderExactly(steps: seq<Step>, s: Sys, known: Resolved, k: Key)
    requires After(steps) == Some(s)
    ensures var c := CountersOf(s.log, known);
      var open, answered := |OfKey(OpenAttempts(s), s.helpers, k)|, |OfKey(Answered(s, known), s.helpers, k)|;
      && Get(c.rejected, k) <= Get(c.attempted, k)
      && Effective(c, k) == |OfKey(Unrejected(s), s.helpers, k)|
      && (Get(c.succeeded, k) + Get(c.notPersisted, k) + Get(c.persisted, k) <= Effective(c, k) <==> answered <= open)
      && Unmatched(c, k) == Monus(open, answered)
  {
    Conservation(steps, s, known, k);
    TalliesAreCounts(s.log, known, k);
    UnrejectedSplits(steps, s, known, k);
    AnsweredSplits(steps, s, known, k);
  }

  /** When the operator resolved only open attempts, no clamp ever fires and what remains is what is unanswered. */
  lemma ClampsNeverFire(steps: seq<Step>, s: Sys, known: Resolved, k: Key)
    requires After(steps) == Some(s) && ResolvesOnlyOpen(s, known)
    ensures var c := CountersOf(s.log, known);
      && Get(c.rejected, k) <= Get(c.attempted, k)
      && Get(c.succeeded, k) + Get(c.notPersisted, k) + Get(c.persisted, k) <= Effective(c, k)
      && Unmatched(c, k) == |OfKey(Unanswered(s, known), s.helpers, k)|
  {
    ReaderExactly(steps, s, known, k);
    OpenTwoWays(s, known, k);
  }

  lemma OpenTwoWays(s: Sys, known: Resolved, k: Key)
    requires ResolvesOnlyOpen(s, known)
    ensures |OfKey(OpenAttempts(s), s.helpers, k)|
      == |OfKey(Unanswered(s, known), s.helpers, k)| + |OfKey(Answered(s, known), s.helpers, k)|
  {
    var open, answered := OfKey(OpenAttempts(s), s.helpers, k), OfKey(Answered(s, known), s.helpers, k);
    var unanswered := OfKey(Unanswered(s, known), s.helpers, k);
    forall id: HelperId
      ensures id in open <==> id in unanswered || id in answered
      ensures !(id in unanswered && id in answered)
    {
    }
    ThreeParts(open, unanswered, answered, {});
  }

  lemma TalliesAreCounts(lines: seq<Line>, known: Resolved, k: Key)
    ensures var c := CountersOf(lines, known);
      && Get(c.attempted, k) == Count(Attempt, lines, known, k)
      && Get(c.rejected, k) == Count(Rejection, lines, known, k)
      && Get(c.succeeded, k) == Count(Kind.Success, lines, known, k)
      && Get(c.notPersisted, k) == Count(NotPersisted, lines, known, k)
      && Get(c.persisted, k) == Count(Persisted, lines, known, k)
  {
    TallyCounts(Attempt, lines, known);
    TallyCounts(Rejection, lines, known);
    TallyCounts(Kind.Success, lines, known);
    TallyCounts(NotPersisted, lines, known);
    TallyCounts(Persisted, lines, known);
  }

  lemma UnrejectedSplits(steps: seq<Step>, s: Sys, known: Resolved, k: Key)
    requires After(steps) == Some(s)
    ensures |OfKey(Unrejected(s), s.helpers, k)|
      == |OfKey(OpenAttempts(s), s.helpers, k)| + Count(Kind.Success, s.log, known, k)
  {
    RunsKeepLog(steps);
    assert Counted(s, Kind.Success, known, k);
    var succeeded := OfKey(Members(Kind.Success, s.helpers, known), s.helpers, k);
    assert OfKey(Unrejected(s), s.helpers, k) == OfKey(OpenAttempts(s), s.helpers, k) + succeeded;
  }

  lemma AnsweredTwoWays(s: Sys, known: Resolved, k: Key)
    ensures |OfKey(Answered(s, known), s.helpers, k)|
      == |OfKey(Members(NotPersisted, s.helpers, known), s.helpers, k)|
       + |OfKey(Members(Persisted, s.helpers, known), s.helpers, k)|
  {
    var answered := OfKey(Answered(s, known), s.helpers, k);
    var gone := OfKey(Members(NotPersisted, s.helpers, known), s.helpers, k);
    var kept := OfKey(Members(Persisted, s.helpers, known), s.helpers, k);
    forall id: HelperId
      ensures id in answered <==> id in gone || id in kept
      ensures !(id in gone && id in kept)
    {
    }
    ThreeParts(answered, gone, kept, {});
  }

  lemma AnsweredSplits(steps: seq<Step>, s: Sys, known: Resolved, k: Key)
    requires After(steps) == Some(s)
    ensures |OfKey(Answered(s, known), s.helpers, k)|
      == Count(NotPersisted, s.log, known, k) + Count(Persisted, s.log, known, k)
  {
    RunsKeepLog(steps);
    assert Counted(s, NotPersisted, known, k) && Counted(s, Persisted, known, k);
    AnsweredTwoWays(s, known, k);
  }

  // ---- the reader's totals -------------------------------------------------

  /** Summing per-key cardinalities over distinct keys that cover a set gives its size. */
  lemma {:induction false} SumOverKeys(f: Key -> nat, ks: seq<Key>, ids: set<HelperId>,
                                       helpers: map<HelperId, Helper>)
    requires ids <= helpers.Keys && forall id <- ids :: helpers[id].key in ks
    requires forall i, j | 0 <= i < j < |ks| :: ks[i] != ks[j]
    requires forall k <- ks :: f(k) == |OfKey(ids, helpers, k)|
    ensures Sum(f, ks) == |ids|
  {
    if ks == [] {
      assert ids == {};
    } else {
      var front, last := ks[..|ks| - 1], ks[|ks| - 1];
      assert ks == front + [last];
      var here := OfKey(ids, helpers, last);
      forall k <- front ensures f(k) == |OfKey(ids - here, helpers, k)| {
        assert OfKey(ids - here, helpers, k) == OfKey(ids, helpers, k);
      }
      SumOverKeys(f, front, ids - here, helpers);
      assert |ids| == |ids - here| + |here|;
    }
  }

  /** A key on which some helper contributes a line of the kind is in that kind's counter. */
  lemma KeyIsCounted(steps: seq<Step>, s: Sys, kind: Kind, known: Resolved, id: HelperId)
    requires After(steps) == Some(s) && id in Members(kind, s.helpers, known)
    ensures s.helpers[id].key in Tally(kind, s.log, known).order
  {
    var k := s.helpers[id].key;
    RunsKeepLog(steps);
    assert Counted(s, kind, known, k);
    assert id in OfKey(Members(kind, s.helpers, known), s.helpers, k);
    TallyCounts(kind, s.log, known);
    assert Get(Tally(kind, s.log, known), k) > 0;
  }

  lemma TotalIsMembers(steps: seq<Step>, s: Sys, kind: Kind, known: Resolved)
    requires After(steps) == Some(s)
    ensures Total(Tally(kind, s.log, known)) == |Members(kind, s.helpers, known)|
  {
    var c := Tally(kind, s.log, known);
    RunsKeepLog(steps);
    TallyCounts(kind, s.log, known);
    forall k <- c.order ensures CountOf(c)(k) == |OfKey(Members(kind, s.helpers, known), s.helpers, k)| {
      assert Counted(s, kind, known, k);
    }
    forall id <- Members(kind, s.helpers, known) ensures s.helpers[id].key in c.order {
      KeyIsCounted(steps, s, kind, known, id);
    }
    SumOverKeys(CountOf(c), c.order, Members(kind, s.helpers, known), s.helpers);
  }

  /** Summing any per-key count over the attempted keys, when it counts attempts. */
  lemma SumOverAttempted(steps: seq<Step>, s: Sys, known: Resolved, f: Key -> nat, ids: set<HelperId>)
    requires After(steps) == Some(s) && ids <= Members(Attempt, s.helpers, known)
    requires forall k :: f(k) == |OfKey(ids, s.helpers, k)|
    ensures Sum(f, Tally(Attempt, s.log, known).order) == |ids|
  {
    var order := Tally(Attempt, s.log, known).order;
    TallyCounts(Attempt, s.log, known);
    forall id <- ids ensures s.helpers[id].key in order {
      KeyIsCounted(steps, s, Attempt, known, id);
    }
    SumOverKeys(f, order, ids, s.helpers);
  }

  lemma TotalEffective(steps: seq<Step>, s: Sys, known: Resolved)
    requires After(steps) == Some(s)
    ensures var c := CountersOf(s.log, known); Sum(EffectiveOf(c), c.attempted.order) == |Unrejected(s)|
  {
    var c := CountersOf(s.log, known);
    forall k ensures EffectiveOf(c)(k) == |OfKey(Unrejected(s), s.helpers, k)| {
      ReaderExactly(steps, s, known, k);
    }
    SumOverAttempted(steps, s, known, EffectiveOf(c), Unrejected(s));
  }

  lemma TotalUnmatched(steps: seq<Step>, s: Sys, known: Resolved)
    requires After(steps) == Some(s) && ResolvesOnlyOpen(s, known)
    ensures var c := CountersOf(s.log, known); Sum(UnmatchedOf(c), c.attempted.order) == |Unanswered(s, known)|
  {
    var c := CountersOf(s.log, known);
    forall k ensures UnmatchedOf(c)(k) == |OfKey(Unanswered(s, known), s.helpers, k)| {
      ClampsNeverFire(steps, s, known, k);
    }
    SumOverAttempted(steps, s, known, UnmatchedOf(c), Unanswered(s, known));
  }

  /** A job directory that holds what a run of the router left, with any resolutions file beside it. */
  ghost predicate LeftBy(s: Sys, d: Directory) { Lines(d) == s.log && d.uncertainMarker == s.marker }

  /** More attempts of the key are open than the operator has resolved. */
  ghost predicate Outstanding(s: Sys, known: Resolved, k: Key) {
    |OfKey(OpenAttempts(s), s.helpers, k)| > |OfKey(Answered(s, known), s.helpers, k)|
  }

  /**
   Audit conservation: over every run, with a kill allowed after any step and with
   any resolutions file, the totals are the numbers of helpers in each state, and
   "unresolved" is exactly a marker, malformed resolutions, or a key with more open
   attempts than resolved ones.
   */
  lemma OutcomeExactly(steps: seq<Step>, s: Sys, d: Directory)
    requires After(steps) == Some(s) && LeftBy(s, d)
    ensures var o, known := OutcomeOf(d), ResolvedBy(d.resolutions);
      && o.attempted == |Unrejected(s)|
      && o.rejectedPrewrite == |Members(Rejection, s.helpers, known)|
      && o.succeeded == |Members(Kind.Success, s.helpers, known)|
      && o.notPersisted == |Members(NotPersisted, s.helpers, known)|
      && o.persistedResolved == |Members(Persisted, s.helpers, known)|
      && o.uncertainMarker == s.marker && o.pendingReadback == d.pendingMarker
      && (o.hasAttempts <==> Unrejected(s) != {})
      && (o.malformedAudit <==> !ResolutionsOk(d.resolutions))
      && (o.unmatchedAttempts == 0 <==> forall k :: !Outstanding(s, known, k))
      && (o.unresolved <==> s.marker || d.pendingMarker || o.malformedAudit || o.unmatchedAttempts > 0)
  {
    var known := ResolvedBy(d.resolutions);
    RunsKeepLog(steps);
    TotalIsMembers(steps, s, Rejection, known);
    TotalIsMembers(steps, s, Kind.Success, known);
    TotalIsMembers(steps, s, NotPersisted, known);
    TotalIsMembers(steps, s, Persisted, known);
    TotalEffective(steps, s, known);
    assert forall l <- Lines(d) :: Sound(l);
    NothingUnmatched(d);
    forall k ensures Shortfall(s.log, known, k) == 0 <==> !Outstanding(s, known, k) {
      UnmatchedIsShortfall(s.log, known, k);
      ReaderExactly(steps, s, known, k);
    }
  }

  /** When the operator resolved only open attempts, the unmatched count is the number of open, unanswered ones. */
  lemma OutcomeCountsHelpers(steps: seq<Step>, s: Sys, d: Directory)
    requires After(steps) == Some(s) && LeftBy(s, d) && ResolvesOnlyOpen(s, ResolvedBy(d.resolutions))
    ensures var o, known := OutcomeOf(d), ResolvedBy(d.resolutions);
      && o.unmatchedAttempts == |Unanswered(s, known)|
      && (o.unresolved <==> Unanswered(s, known) != {} || s.marker || d.pendingMarker || !ResolutionsOk(d.resolutions))
  {
    OutcomeExactly(steps, s, d);
    TotalUnmatched(steps, s, ResolvedBy(d.resolutions));
  }

  const EVENT_DATE := Key("fill", "Event Details!B10")
  const FIRST := Entry(Attempted, Stamp.At("1"), EVENT_DATE, false)
  const DONE := Entry(Verdict.Succeeded, Stamp.At("2"), EVENT_DATE, false)
  const SECOND := Entry(Attempted, Stamp.At("3"), EVENT_DATE, false)
  const ANSWER := Resolution(Stamp.At("1"), EVENT_DATE, WasPersisted, true, OnFile(0, 0))
  const HIDING := Directory(false, false, Some([FIRST, DONE, SECOND]), Listing([ANSWER]))

  function Weight(kind: Kind, l: Line, known: Resolved, k: Key): nat {
    if Is(kind, l, known) && l.key == k then 1 else 0
  }

  lemma CountOfThree(kind: Kind, a: Line, b: Line, c: Line, known: Resolved, k: Key)
    ensures Count(kind, [a, b, c], known, k)
      == Weight(kind, a, known, k) + Weight(kind, b, known, k) + Weight(kind, c, known, k)
  {
    CountAppend(kind, [], a, known, k);
    CountAppend(kind, [a], b, known, k);
    CountAppend(kind, [a, b], c, known, k);
    assert [] + [a] == [a] && [a] + [b] == [a, b] && [a, b] + [c] == [a, b, c];
  }

  lemma OneResolution()
    ensures ReadResolutions([ANSWER]) == (map[(ANSWER.at, ANSWER.key) := true], true)
  {
    assert [ANSWER][..0] == [];
    assert ReadResolutions([ANSWER][..0]) == (map[], true);
  }

  lemma OtherKeysCountNothing(kind: Kind, known: Resolved, k: Key)
    requires k != EVENT_DATE
    ensures Count(kind, [FIRST, DONE, SECOND], known, k) == 0
  {
    CountOfThree(kind, FIRST, DONE, SECOND, known, k);
  }

  lemma HidingCounts(known: Resolved)
    requires known == map[(ANSWER.at, ANSWER.key) := true]
    ensures Count(Attempt, [FIRST, DONE, SECOND], known, EVENT_DATE) == 2
    ensures Count(Kind.Success, [FIRST, DONE, SECOND], known, EVENT_DATE) == 1
    ensures Count(Persisted, [FIRST, DONE, SECOND], known, EVENT_DATE) == 1
  {
    CountOfThree(Attempt, FIRST, DONE, SECOND, known, EVENT_DATE);
    CountOfThree(Kind.Success, FIRST, DONE, SECOND, known, EVENT_DATE);
    CountOfThree(Persisted, FIRST, DONE, SECOND, known, EVENT_DATE);
  }

  /** Resolving an attempt that also succeeded hides a later attempt of the same key that nothing answers. */
  lemma ResolvedSuccessHidesAttempt()
    ensures !OutcomeOf(HIDING).unresolved
    ensures (SECOND.at, SECOND.key) !in ResolvedBy(HIDING.resolutions) && HIDING.audit.value[2] == SECOND
  {
    var known := ResolvedBy(HIDING.resolutions);
    OneResolution();
    HidingCounts(known);
    forall k ensures Shortfall([FIRST, DONE, SECOND], known, k) == 0 {
      if k != EVENT_DATE { OtherKeysCountNothing(Attempt, known, k); }
    }
    NothingUnmatched(HIDING);
  }

  /** With no operator resolutions, every open attempt is unmatched. */
  lemma OutcomeWithoutResolutions(steps: seq<Step>, s: Sys, d: Directory)
    requires After(steps) == Some(s) && LeftBy(s, d) && ResolvedBy(d.resolutions) == map[]
    ensures OutcomeOf(d).unmatchedAttempts == |OpenAttempts(s)|
  {
    OutcomeCountsHelpers(steps, s, d);
    assert Unanswered(s, map[]) == OpenAttempts(s);
  }

  // ---- a killed attempt stays open -----------------------------------------

  lemma StepKeepsKilled(s: Sys, step: Step, id: HelperId)
    requires Enabled(s, step) && id in s.helpers && s.helpers[id].pc == Killed
    ensures var t := Do(s, step); id in t.helpers && t.helpers[id] == s.helpers[id].(child := t.helpers[id].child)
  {
    if Mover(step) != Some(id) { OthersStay(s, step, id); }
  }

  lemma {:induction false} KilledStaysOpen(steps: seq<Step>, more: seq<Step>, s: Sys, t: Sys, id: HelperId)
    requires After(steps) == Some(s) && After(steps + more) == Some(t)
    requires id in s.helpers && s.helpers[id].pc == Killed
    ensures id in t.helpers && t.helpers[id] == s.helpers[id].(child := t.helpers[id].child)
    decreases |more|
  {
    if more == [] {
      assert steps + more == steps;
    } else {
      var front, step := more[..|more| - 1], more[|more| - 1];
      assert (steps + more)[..|steps + more| - 1] == steps + front;
      var u := After(steps + front).value;
      KilledStaysOpen(steps, front, s, u, id);
      StepKeepsKilled(u, step, id);
    }
  }

  /**
   An attempt whose helper is killed before its outcome is logged, even after the
   gate was released and with no marker on disk, keeps the job unresolved through
   everything that follows until the operator resolves that very attempt.
   */
  lemma KilledAttemptStaysUnresolved(steps: seq<Step>, more: seq<Step>, s: Sys, t: Sys, id: HelperId, d: Directory)
    requires After(steps) == Some(s) && After(steps + more) == Some(t) && LeftBy(t, d)
    requires id in s.helpers && s.helpers[id].pc == Killed && s.helpers[id].logging == Open
    requires ResolvesOnlyOpen(t, ResolvedBy(d.resolutions))
    requires (At(s.helpers[id].at), s.helpers[id].key) !in ResolvedBy(d.resolutions)
    ensures OutcomeOf(d).unresolved
  {
    KilledStaysOpen(steps, more, s, t, id);
    OutcomeCountsHelpers(steps + more, t, d);
    assert id in Unanswered(t, ResolvedBy(d.resolutions));
  }

  /** A standing entry of the resolutions file names this attempt. */
  ghost predicate Named(f: ResolutionFile, at: string, key: Key) {
    f.Listing? && exists i | 0 <= i < |f.entries| ::
      Stands(f.entries, i) && Names(f.entries[i], At(at), key)
  }

  lemma NamedIsResolved(f: ResolutionFile, at: string, key: Key)
    ensures Named(f, at, key) <==> (At(at), key) in ResolvedBy(f)
  {
    if f.Listing? { ResolvedExactly(f.entries, At(at), key); }
  }

  /** Attempts of the key that are settled in the log and that the operator has resolved all the same. */
  function ResolvedTwice(t: Sys, d: Directory, k: Key): set<HelperId> {
    set id | id in t.helpers && t.helpers[id].key == k && t.helpers[id].logging in {Rejected, Logging.Succeeded}
      && (At(t.helpers[id].at), k) in ResolvedBy(d.resolutions)
  }

  /**
   With any resolutions file: an attempt left open by a killed helper and named by no
   standing entry keeps the job unresolved through everything that follows, unless
   the operator has resolved at least as many attempts of its key as are open, and so
   some that the log had settled itself.
   */
  lemma UnnamedAttemptHoldsJob(steps: seq<Step>, more: seq<Step>, s: Sys, t: Sys, id: HelperId, d: Directory)
    requires After(steps) == Some(s) && After(steps + more) == Some(t) && LeftBy(t, d)
    requires id in s.helpers && s.helpers[id].pc == Killed && s.helpers[id].logging == Open
    requires !Named(d.resolutions, s.helpers[id].at, s.helpers[id].key)
    ensures OutcomeOf(d).unresolved || ResolvedTwice(t, d, s.helpers[id].key) != {}
    ensures OutcomeOf(d).unresolved || !Outstanding(t, ResolvedBy(d.resolutions), s.helpers[id].key)
  {
    var known, k := ResolvedBy(d.resolutions), s.helpers[id].key;
    KilledStaysOpen(steps, more, s, t, id);
    NamedIsResolved(d.resolutions, s.helpers[id].at, k);
    OutcomeExactly(steps + more, t, d);
    if ResolvedTwice(t, d, k) == {} {
      OpenExceedsAnswered(t, d, id);
    }
  }

  lemma OpenExceedsAnswered(t: Sys, d: Directory, id: HelperId)
    requires id in t.helpers && t.helpers[id].logging == Open && ResolvedTwice(t, d, t.helpers[id].key) == {}
    requires (At(t.helpers[id].at), t.helpers[id].key) !in ResolvedBy(d.resolutions)
    ensures Outstanding(t, ResolvedBy(d.resolutions), t.helpers[id].key)
  {
    var known, k := ResolvedBy(d.resolutions), t.helpers[id].key;
    var open, answered := OfKey(OpenAttempts(t), t.helpers, k), OfKey(Answered(t, known), t.helpers, k);
    forall h <- answered ensures h in open && h != id {
      assert h !in ResolvedTwice(t, d, k);
    }
    assert id in open;
    GrowsBy(answered, open, id);
  }

  lemma GrowsBy(smaller: set<HelperId>, larger: set<HelperId>, id: HelperId)
    requires smaller <= larger && id in larger && id !in smaller
    ensures |smaller| < |larger|
  {
    SubsetIsSmaller(smaller, larger - {id});
  }

  lemma {:induction false} SubsetIsSmaller(smaller: set<HelperId>, larger: set<HelperId>)
    requires smaller <= larger
    ensures |smaller| <= |larger|
  {
    if smaller != {} {
      var id :| id in smaller;
      SubsetIsSmaller(smaller - {id}, larger - {id});
    }
  }
}
