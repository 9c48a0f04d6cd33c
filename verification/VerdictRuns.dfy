/**
 The verdict over whole lives of a job directory: workbook edits, which replace the
 workbook and then delete what was derived from it file by file; preflights and
 re-preparations; domain verification; and the final verdict.  The controller may
 die in the middle of an edit, an edit may be overtaken by a start, and a new
 validator may be deployed.
 */
module VerdictRuns {
  import opened Wrappers
  import opened Verdict
  import Tree = EvidenceTree

  /** What the statuses of the items are computed from. */
  datatype Basis = Basis(workbook: nat, validator: nat)

  type Compile = Basis -> seq<RrItem>

  /** An edit deletes, in this order, the expectations, the recorded outcomes and the validation. */
  datatype Edit = NoEdit | Admitted(workbook: nat) | Replaced | ExpectationsGone | RecordsGone

  datatype Phase = Idle | Preflight | AgentUp

  /** `compiled`: what the stored expectations were compiled from, if they are all there and agree. */
  datatype Dir = Dir(current: Basis, compiled: Option<Basis>, validation: Option<seq<RrItem>>,
                     records: seq<DomainRecord>, edit: Edit, phase: Phase)

  datatype Step =
    | AdmitEdit(workbook: nat)
    | ReplaceWorkbook
    | UnlinkExpectations
    | UnlinkRecords
    | UnlinkValidation
    | CrashEdit
    | Deploy(validator: nat)
    | StartRun
    | PreflightPasses
    | PreflightFails(leftover: Option<seq<RrItem>>)
    | EndRun
    | Prepare
    | VerifyDomain(domain: string, evidence: seq<string>, matches: seq<MatchEntry>, exceptions: seq<ExceptionEntry>,
                   rows: seq<Row>)

  const FRESH := Dir(Basis(0, 0), None, None, [], NoEdit, Idle)

  ghost predicate Enabled(s: Dir, step: Step) {
    match step
    // refused while the job is active; a lock admits one edit at a time
    case AdmitEdit(_) => s.edit == NoEdit && s.phase == Idle
    case ReplaceWorkbook => s.edit.Admitted?
    case UnlinkExpectations => s.edit == Replaced
    case UnlinkRecords => s.edit == ExpectationsGone
    case UnlinkValidation => s.edit == RecordsGone
    case CrashEdit => s.edit != NoEdit
    case Deploy(_) => true
    // a start does not take the lock of the edit
    case StartRun => s.phase == Idle
    case PreflightPasses => s.phase == Preflight
    case PreflightFails(_) => s.phase == Preflight
    case EndRun => s.phase == AgentUp
    case Prepare => s.phase == AgentUp
    case VerifyDomain(domain, _, matches, exceptions, rows) =>
      && s.phase == AgentUp && s.validation.Some?
      && Accountable(DomainItems(s.validation.value, domain), matches, exceptions)
      && AccountsAll(DomainItems(s.validation.value, domain), matches, exceptions, rows)
  }

  /** The agent's preparation keeps artifacts that belong to the current workbook. */
  predicate Rebuilds(s: Dir, step: Step) {
    step.PreflightPasses?
    || (step.Prepare? && !(s.compiled.Some? && s.validation.Some? && s.compiled.value.workbook == s.current.workbook))
  }

  function Rebuilt(s: Dir, compile: Compile): Dir {
    s.(compiled := Some(s.current), validation := Some(compile(s.current)))
  }

  ghost function Do(s: Dir, compile: Compile, step: Step): Dir
    requires Enabled(s, step)
  {
    match step
    case AdmitEdit(w) => s.(edit := Admitted(w))
    case ReplaceWorkbook => s.(current := s.current.(workbook := s.edit.workbook), edit := Replaced)
    case UnlinkExpectations => s.(compiled := None, edit := ExpectationsGone)
    case UnlinkRecords => s.(records := [], edit := RecordsGone)
    case UnlinkValidation => s.(validation := None, edit := NoEdit)
    case CrashEdit => s.(edit := NoEdit)
    case Deploy(v) => s.(current := s.current.(validator := v))
    case StartRun => s.(phase := Preflight)
    case PreflightPasses => Rebuilt(s, compile).(phase := AgentUp)
    case PreflightFails(leftover) => s.(compiled := None, validation := leftover, phase := Idle)
    case EndRun => s.(phase := Idle)
    case Prepare => if Rebuilds(s, step) then Rebuilt(s, compile) else s
    case VerifyDomain(domain, evidence, _, _, rows) =>
      s.(records := Store(s.records, DomainRecord(domain, evidence, rows)))
  }

  ghost function After(compile: Compile, steps: seq<Step>): Option<Dir>
    decreases |steps|
  {
    if steps == [] then Some(FRESH)
    else
      var before := After(compile, steps[..|steps| - 1]);
      if before.Some? && Enabled(before.value, steps[|steps| - 1])
      then Some(Do(before.value, compile, steps[|steps| - 1])) else None
  }

  // ---- item identities -------------------------------------------------------

  ghost predicate DistinctIds(items: seq<RrItem>) {
    forall i, j | 0 <= i < j < |items| :: items[i].itemId != items[j].itemId
  }

  /** An identity belongs to one domain, and occurs once in a plan (see `ExecutionPlan.ItemsDistinct`). */
  ghost predicate Identifies(compile: Compile, home: string -> string) {
    forall b ::
      DistinctIds(compile(b)) && forall item <- compile(b) :: item.domain == home(item.itemId)
  }

  predicate VerifiedIn(items: seq<RrItem>, id: string) {
    exists item <- items :: item.itemId == id && item.status == Plan.Verified
  }

  lemma OneStatus(items: seq<RrItem>, item: RrItem)
    requires DistinctIds(items) && item in items
    ensures VerifiedIn(items, item.itemId) <==> item.status == Plan.Verified
  {
    var i :| 0 <= i < |items| && items[i] == item;
    forall other <- items | other.itemId == item.itemId ensures other == item {
      var j :| 0 <= j < |items| && items[j] == other;
    }
  }

  lemma {:induction false} DomainItemsAre(items: seq<RrItem>, domain: string)
    ensures forall item :: item in DomainItems(items, domain) <==> item in items && item.domain == domain
  {
    if items != [] {
      DomainItemsAre(items[..|items| - 1], domain);
      assert items == items[..|items| - 1] + [items[|items| - 1]];
    }
  }

  /** A match of a fresh record names an item that the plan has as VERIFIED. */
  lemma FreshMatch(items: seq<RrItem>, domain: string, matches: seq<MatchEntry>, exceptions: seq<ExceptionEntry>,
                   rows: seq<Row>, row: Row)
    requires Accountable(DomainItems(items, domain), matches, exceptions)
    requires AccountsAll(DomainItems(items, domain), matches, exceptions, rows) && row in rows
    ensures MatchIsBacked(row)
    ensures exists item <- items :: item.itemId == row.itemId && item.domain == domain && item.status == row.rrStatus
    ensures row.status == Match ==> VerifiedIn(items, row.itemId)
  {
    var mine := DomainItems(items, domain);
    var i :| 0 <= i < |rows| && rows[i] == row;
    assert mine[i] in mine;
    DomainItemsAre(items, domain);
    RowsAreBacked(mine, matches, exceptions, mine[i], row);
    assert mine[i] in items && mine[i].itemId == row.itemId;
  }

  // ---- what every run keeps ----------------------------------------------------

  ghost predicate RowsAtHome(records: seq<DomainRecord>, home: string -> string) {
    forall record <- records, row <- record.rows :: home(row.itemId) == record.domain
  }

  ghost predicate FilesOk(s: Dir, compile: Compile, home: string -> string) {
    && RecordsBacked(s.records) && RowsAtHome(s.records, home)
    && (forall i, j | 0 <= i < j < |s.records| :: s.records[i].domain != s.records[j].domain)
    && (s.phase == AgentUp && s.validation.Some? ==> exists b :: s.validation.value == compile(b))
  }

  lemma VerifyKeepsFiles(s: Dir, compile: Compile, home: string -> string, step: Step)
    requires Identifies(compile, home) && FilesOk(s, compile, home) && Enabled(s, step) && step.VerifyDomain?
    ensures FilesOk(Do(s, compile, step), compile, home)
  {
    var record := DomainRecord(step.domain, step.evidence, step.rows);
    var b :| s.validation.value == compile(b);
    forall row <- record.rows ensures MatchIsBacked(row) && home(row.itemId) == step.domain {
      FreshMatch(compile(b), step.domain, step.matches, step.exceptions, step.rows, row);
    }
    StoreKeeps(s.records, record);
    StoreMembers(s.records, record);
  }

  lemma {:induction false} StoreMembers(records: seq<DomainRecord>, record: DomainRecord)
    ensures forall r <- Store(records, record) :: r == record || (r in records)
  {
    if records != [] && records[0].domain != record.domain { StoreMembers(records[1..], record); }
  }

  lemma StepKeepsFiles(s: Dir, compile: Compile, home: string -> string, step: Step)
    requires Identifies(compile, home) && FilesOk(s, compile, home) && Enabled(s, step)
    ensures FilesOk(Do(s, compile, step), compile, home)
  {
    if step.VerifyDomain? {
      VerifyKeepsFiles(s, compile, home, step);
    } else if Rebuilds(s, step) {
      assert Do(s, compile, step).validation.value == compile(s.current);
    }
  }

  lemma {:induction false} RunsKeepFiles(compile: Compile, home: string -> string, steps: seq<Step>)
    requires Identifies(compile, home) && After(compile, steps).Some?
    ensures FilesOk(After(compile, steps).value, compile, home)
    decreases |steps|
  {
    if steps != [] {
      RunsKeepFiles(compile, home, steps[..|steps| - 1]);
      StepKeepsFiles(After(compile, steps[..|steps| - 1]).value, compile, home, steps[|steps| - 1]);
    }
  }

  // ---- when an accepted draft holds of the current plan ----------------------------

  /** The verdict DRAFT_COMPLETE is accepted in this state of the directory. */
  ghost predicate Accepts(s: Dir, p: Params, readbackPending: bool) {
    && s.phase == AgentUp && s.validation.Some? && p.status == DraftComplete
    && Refusal(p, readbackPending, s.validation.value, s.records).None?
    && AllMatch(Recorded(s.records, s.validation.value))
  }

  /** Since the domain was last verified, the last rebuild of the plan did not find the item VERIFIED. */
  ghost predicate Demoted(compile: Compile, steps: seq<Step>, domain: string, id: string)
    requires After(compile, steps).Some?
    decreases |steps|
  {
    if steps == [] then false
    else
      var front, step := steps[..|steps| - 1], steps[|steps| - 1];
      var s := After(compile, front).value;
      if step.VerifyDomain? && step.domain == domain then false
      else if Rebuilds(s, step) then !VerifiedIn(compile(s.current), id)
      else Demoted(compile, front, domain, id)
  }

  /** A recorded match of an item. */
  ghost predicate HasMatch(records: seq<DomainRecord>, id: string) {
    exists record <- records, row <- record.rows :: row.itemId == id && row.status == Match
  }

  /** The plan says of an item what its last verification or rebuild said. */
  ghost predicate SaysLast(compile: Compile, steps: seq<Step>, domain: string, id: string)
    requires After(compile, steps).Some?
  {
    var s := After(compile, steps).value;
    s.phase == AgentUp && s.validation.Some? ==>
      && (Demoted(compile, steps, domain, id) ==> !VerifiedIn(s.validation.value, id))
      && (HasMatch(s.records, id) && !Demoted(compile, steps, domain, id) ==> VerifiedIn(s.validation.value, id))
  }

  lemma MatchSurvivesOtherDomains(records: seq<DomainRecord>, record: DomainRecord, home: string -> string, id: string)
    requires RowsAtHome(records, home) && home(id) != record.domain && HasMatch(Store(records, record), id)
    requires forall row <- record.rows :: home(row.itemId) == record.domain
    ensures HasMatch(records, id)
  {
    StoreMembers(records, record);
    var r, row :| r in Store(records, record) && row in r.rows && row.itemId == id && row.status == Match;
    assert r in records;
  }

  /** After a domain was verified, a match of one of its items is in the new record. */
  lemma OwnMatch(records: seq<DomainRecord>, record: DomainRecord, home: string -> string, id: string)
    requires RowsAtHome(records, home) && home(id) == record.domain && HasMatch(Store(records, record), id)
    requires RecordsBacked(records) && forall row <- record.rows :: MatchIsBacked(row)
    requires forall i, j | 0 <= i < j < |records| :: records[i].domain != records[j].domain
    ensures exists row <- record.rows :: row.itemId == id && row.status == Match
  {
    StoreMembers(records, record);
    StoreKeeps(records, record);
    var stored := Store(records, record);
    var r, row :| r in stored && row in r.rows && row.itemId == id && row.status == Match;
    assert r == record || r in records;
    assert r.domain == record.domain;
    var i :| 0 <= i < |stored| && stored[i] == r;
    var j :| 0 <= j < |stored| && stored[j] == record;
    assert i == j;
  }

  /** After a verification, a match on file is of a VERIFIED item, or was on file already for another domain. */
  lemma VerifyMatches(s: Dir, compile: Compile, home: string -> string, step: Step, id: string)
    requires Identifies(compile, home) && FilesOk(s, compile, home) && Enabled(s, step) && step.VerifyDomain?
    requires HasMatch(Do(s, compile, step).records, id)
    ensures if step.domain == home(id) then VerifiedIn(s.validation.value, id) else HasMatch(s.records, id)
  {
    var record := DomainRecord(step.domain, step.evidence, step.rows);
    var b :| s.validation.value == compile(b);
    forall row <- record.rows
      ensures MatchIsBacked(row) && home(row.itemId) == step.domain
      ensures row.status == Match ==> VerifiedIn(compile(b), row.itemId)
    {
      FreshMatch(compile(b), step.domain, step.matches, step.exceptions, step.rows, row);
    }
    if step.domain == home(id) {
      OwnMatch(s.records, record, home, id);
    } else {
      MatchSurvivesOtherDomains(s.records, record, home, id);
    }
  }

  lemma VerifySaysLast(compile: Compile, home: string -> string, steps: seq<Step>, domain: string, id: string)
    requires Identifies(compile, home) && After(compile, steps).Some? && steps != [] && home(id) == domain
    requires steps[|steps| - 1].VerifyDomain? && SaysLast(compile, steps[..|steps| - 1], domain, id)
    ensures SaysLast(compile, steps, domain, id)
  {
    var front, step := steps[..|steps| - 1], steps[|steps| - 1];
    var s := After(compile, front).value;
    RunsKeepFiles(compile, home, front);
    assert Demoted(compile, steps, domain, id) == (step.domain != domain && Demoted(compile, front, domain, id));
    if HasMatch(Do(s, compile, step).records, id) { VerifyMatches(s, compile, home, step, id); }
  }

  lemma {:induction false} RunsSayLast(compile: Compile, home: string -> string, steps: seq<Step>, domain: string, id: string)
    requires Identifies(compile, home) && After(compile, steps).Some? && home(id) == domain
    ensures SaysLast(compile, steps, domain, id)
    decreases |steps|
  {
    if steps != [] {
      RunsSayLast(compile, home, steps[..|steps| - 1], domain, id);
      if steps[|steps| - 1].VerifyDomain? {
        VerifySaysLast(compile, home, steps, domain, id);
      } else {
        StepSaysLast(compile, steps, domain, id);
      }
    }
  }

  /** Without a rebuild or a verification, a plan that an agent reads is the plan it read before. */
  lemma PlanStays(s: Dir, compile: Compile, step: Step)
    requires Enabled(s, step) && !step.VerifyDomain?
    ensures var s' := Do(s, compile, step);
      && (s'.records == s.records || s'.records == [])
      && (s'.phase == AgentUp && s'.validation.Some? ==>
            if Rebuilds(s, step) then s'.validation.value == compile(s.current)
            else s.phase == AgentUp && s.validation == s'.validation)
  {}

  lemma StepSaysLast(compile: Compile, steps: seq<Step>, domain: string, id: string)
    requires After(compile, steps).Some? && steps != [] && !steps[|steps| - 1].VerifyDomain?
    requires SaysLast(compile, steps[..|steps| - 1], domain, id)
    ensures SaysLast(compile, steps, domain, id)
  {
    var front, step := steps[..|steps| - 1], steps[|steps| - 1];
    var s := After(compile, front).value;
    PlanStays(s, compile, step);
    assert Demoted(compile, steps, domain, id) ==
      if Rebuilds(s, step) then !VerifiedIn(compile(s.current), id) else Demoted(compile, front, domain, id);
  }

  /** Where a row of the recorded table comes from. */
  lemma {:induction false} FromRows(t: Table, rows: seq<Row>, id: string)
    requires Consistent(t) && id in PutAll(t, rows).rows
    ensures (exists row <- rows :: row == PutAll(t, rows).rows[id] && row.itemId == id)
      || (id in t.rows && PutAll(t, rows).rows[id] == t.rows[id])
  {
    if rows != [] {
      var front, last := rows[..|rows| - 1], rows[|rows| - 1];
      assert last in rows && forall row <- front :: row in rows;
      if last.itemId != id { FromRows(t, front, id); }
    }
  }

  lemma {:induction false} FromRecords(records: seq<DomainRecord>, id: string)
    requires id in FromDomains(records).rows && FromDomains(records).rows[id].status == Match
    ensures HasMatch(records, id)
  {
    var front, last := records[..|records| - 1], records[|records| - 1];
    FromDomainsKeeps(front);
    FromRows(FromDomains(front), last.rows, id);
    assert last in records && forall record <- front :: record in records;
    if row :| row in last.rows && row == FromDomains(records).rows[id] && row.itemId == id {
      assert HasMatch(records, id);
    } else {
      FromRecords(front, id);
    }
  }

  /** Every item of an accepted draft has a recorded match. */
  lemma AcceptedItemsMatched(s: Dir, p: Params, readbackPending: bool, item: RrItem)
    requires Accepts(s, p, readbackPending) && RecordsBacked(s.records) && item in s.validation.value
    ensures HasMatch(s.records, item.itemId)
  {
    DraftCompleteIsSound(p, readbackPending, s.validation.value, s.records);
    FromRecords(s.records, item.itemId);
  }

  /**
   An item of an accepted draft is VERIFIED in the current plan exactly when no
   rebuild since its domain was verified left it in another status.
   */
  lemma DraftVerifiedExactly(compile: Compile, home: string -> string, steps: seq<Step>, s: Dir, p: Params,
                             readbackPending: bool, item: RrItem)
    requires Identifies(compile, home) && After(compile, steps) == Some(s)
    requires Accepts(s, p, readbackPending) && item in s.validation.value
    ensures item.status == Plan.Verified <==> !Demoted(compile, steps, item.domain, item.itemId)
  {
    RunsKeepFiles(compile, home, steps);
    var b :| s.validation.value == compile(b);
    OneStatus(compile(b), item);
    AcceptedItemsMatched(s, p, readbackPending, item);
    RunsSayLast(compile, home, steps, item.domain, item.itemId);
  }

  // ---- a whole edit ------------------------------------------------------------------

  /** An edit that runs through leaves the new workbook and nothing derived from the old one. */
  lemma EditClears(compile: Compile, steps: seq<Step>, s: Dir, workbook: nat) returns (more: seq<Step>, t: Dir)
    requires After(compile, steps) == Some(s) && s.edit == NoEdit && s.phase == Idle
    ensures more == steps + [AdmitEdit(workbook)] + [ReplaceWorkbook] + [UnlinkExpectations] + [UnlinkRecords] + [UnlinkValidation]
    ensures After(compile, more) == Some(t)
    ensures t == Dir(s.current.(workbook := workbook), None, None, [], NoEdit, Idle)
  {
    more, t := Onwards(compile, steps, s, AdmitEdit(workbook));
    more, t := Onwards(compile, more, t, ReplaceWorkbook);
    more, t := Onwards(compile, more, t, UnlinkExpectations);
    more, t := Onwards(compile, more, t, UnlinkRecords);
    more, t := Onwards(compile, more, t, UnlinkValidation);
  }

  lemma Onwards(compile: Compile, before: seq<Step>, start: Dir, step: Step) returns (steps: seq<Step>, s: Dir)
    requires After(compile, before) == Some(start) && Enabled(start, step)
    ensures steps == before + [step] && After(compile, steps) == Some(s) && s == Do(start, compile, step)
  {
    steps, s := before + [step], Do(start, compile, step);
    assert steps[..|before|] == before;
  }

  // ---- what can demote an item -------------------------------------------------------

  /**
   A new validator, a crash between replacing the workbook and deleting the recorded
   outcomes, or a start while an edit is under way.
   */
  predicate Disturbs(s: Dir, step: Step) {
    step.Deploy?
    || (step.CrashEdit? && (s.edit == Replaced || s.edit == ExpectationsGone))
    || (step.StartRun? && s.edit != NoEdit)
  }

  ghost predicate Undisturbed(compile: Compile, steps: seq<Step>)
    requires After(compile, steps).Some?
    decreases |steps|
  {
    steps != [] ==>
      var front := steps[..|steps| - 1];
      Undisturbed(compile, front) && !Disturbs(After(compile, front).value, steps[|steps| - 1])
  }

  /** Recorded matches are of items VERIFIED on the current basis, unless an edit is between the two. */
  ghost predicate Current(s: Dir, compile: Compile) {
    && (s.phase != Idle ==> s.edit == NoEdit)
    && (s.phase == AgentUp && s.validation.Some? ==> s.validation.value == compile(s.current))
    && (s.edit != Replaced && s.edit != ExpectationsGone ==>
          forall record <- s.records, row <- record.rows | row.status == Match :: VerifiedIn(compile(s.current), row.itemId))
  }

  lemma StepKeepsCurrent(s: Dir, compile: Compile, step: Step)
    requires Current(s, compile) && Enabled(s, step) && !Disturbs(s, step)
    ensures Current(Do(s, compile, step), compile)
  {
    if step.VerifyDomain? {
      var record := DomainRecord(step.domain, step.evidence, step.rows);
      StoreMembers(s.records, record);
      forall r <- Store(s.records, record), row <- r.rows | row.status == Match
        ensures VerifiedIn(compile(s.current), row.itemId)
      {
        if r == record { FreshMatch(compile(s.current), step.domain, step.matches, step.exceptions, step.rows, row); }
      }
    }
  }

  lemma {:induction false} RunsKeepCurrent(compile: Compile, steps: seq<Step>)
    requires After(compile, steps).Some? && Undisturbed(compile, steps)
    ensures Current(After(compile, steps).value, compile)
    decreases |steps|
  {
    if steps != [] {
      RunsKeepCurrent(compile, steps[..|steps| - 1]);
      StepKeepsCurrent(After(compile, steps[..|steps| - 1]).value, compile, steps[|steps| - 1]);
    }
  }

  /** In a run without such a disturbance every accepted draft has all its items VERIFIED. */
  lemma UndisturbedDraftIsVerified(compile: Compile, home: string -> string, steps: seq<Step>, s: Dir, p: Params,
                                   readbackPending: bool)
    requires Identifies(compile, home) && After(compile, steps) == Some(s) && Undisturbed(compile, steps)
    requires Accepts(s, p, readbackPending)
    ensures forall item <- s.validation.value :: item.status == Plan.Verified
  {
    RunsKeepCurrent(compile, steps);
    RunsKeepFiles(compile, home, steps);
    forall item <- s.validation.value ensures item.status == Plan.Verified {
      AcceptedItemsMatched(s, p, readbackPending, item);
      OneStatus(compile(s.current), item);
    }
  }

  // ---- runs in which an accepted draft is not all VERIFIED ------------------------------

  const WAS := RrItem("i", "d", Plan.Verified)
  const NOW := RrItem("i", "d", Plan.Ambiguous)
  const SEEN := [MatchEntry("i", ["seen"])]
  const ROW := Row("i", Plan.Verified, Match, Some(["seen"]), "")
  const RECORD := DomainRecord("d", ["seen"], [ROW])
  const DRAFT := Params(DraftComplete, None, None, [], Guardrails(0, 0, 0, 0))
  const OUTCOME := VerifyDomain("d", ["seen"], SEEN, [], [ROW])

  /** The item is VERIFIED on the first basis only. */
  function Shifting(b: Basis): seq<RrItem> { if b == Basis(0, 0) then [WAS] else [NOW] }

  lemma Go(before: seq<Step>, start: Dir, step: Step) returns (steps: seq<Step>, s: Dir)
    requires After(Shifting, before) == Some(start) && Enabled(start, step)
    ensures After(Shifting, steps) == Some(s) && s == Do(start, Shifting, step)
  {
    steps, s := Onwards(Shifting, before, start, step);
  }

  lemma OutcomeRows()
    ensures AccountsAll([WAS], SEEN, [], [ROW])
  {
    assert SEEN[0] in SEEN;
    assert Matched(SEEN, "i");
    assert Accounts(WAS, SEEN, [], ROW);
  }

  lemma OutcomeAccountable()
    ensures Accountable([WAS], SEEN, [])
  {
    assert WAS in [WAS];
    assert InDomain([WAS], "i");
  }

  lemma OutcomeFits()
    ensures DomainItems([WAS], "d") == [WAS]
    ensures Accountable([WAS], SEEN, []) && AccountsAll([WAS], SEEN, [], [ROW])
  {
    assert [WAS][..0] == [];
    OutcomeAccountable();
    OutcomeRows();
  }

  lemma NowRecorded()
    ensures Recorded([RECORD], [NOW]) == Table(["i"], map["i" := ROW])
  {
    assert [ROW][..0] == [] && [RECORD][..0] == [] && [NOW][..0] == [];
    assert PutAll(EMPTY, [ROW]) == Put(EMPTY, ROW);
    assert FromDomains([RECORD]) == PutAll(EMPTY, [ROW]);
    assert Put(EMPTY, ROW) == Table(["i"], map["i" := ROW]) by { assert EMPTY.order + ["i"] == ["i"]; }
    assert FillIn(FromDomains([RECORD]), []) == FromDomains([RECORD]);
  }

  /** With the old outcome on file and the item re-read, the draft is accepted. */
  lemma OldOutcomeAccepted(s: Dir)
    requires s.phase == AgentUp && s.validation == Some([NOW]) && s.records == [RECORD]
    ensures Accepts(s, DRAFT, false) && NOW in s.validation.value && NOW.status != Plan.Verified
  {
    NowRecorded();
    assert RECORD in [RECORD];
    assert Assessed([RECORD], "d");
  }

  /** A first session that records the outcome. */
  lemma FirstSession() returns (steps: seq<Step>, s: Dir)
    ensures After(Shifting, steps) == Some(s)
    ensures s == Dir(Basis(0, 0), Some(Basis(0, 0)), Some([WAS]), [RECORD], NoEdit, Idle)
  {
    OutcomeFits();
    steps, s := Go([], FRESH, StartRun);
    steps, s := Go(steps, s, PreflightPasses);
    steps, s := Go(steps, s, OUTCOME);
    steps, s := Go(steps, s, EndRun);
  }

  /** The next session after the basis has moved while the outcome stayed. */
  lemma SecondSession(before: seq<Step>, start: Dir) returns (steps: seq<Step>, s: Dir)
    requires After(Shifting, before) == Some(start)
    requires start.phase == Idle && start.records == [RECORD] && start.current != Basis(0, 0)
    ensures After(Shifting, steps) == Some(s) && Accepts(s, DRAFT, false)
    ensures NOW in s.validation.value && NOW.status != Plan.Verified
  {
    steps, s := Go(before, start, StartRun);
    steps, s := Go(steps, s, PreflightPasses);
    OldOutcomeAccepted(s);
  }

  /** The controller dies after an edit replaced the workbook and before it deleted the recorded outcomes. */
  lemma CrashedEditKeepsOutcomes() returns (steps: seq<Step>, s: Dir)
    ensures After(Shifting, steps) == Some(s) && Accepts(s, DRAFT, false)
    ensures NOW in s.validation.value && NOW.status != Plan.Verified
  {
    steps, s := FirstSession();
    steps, s := Go(steps, s, AdmitEdit(1));
    steps, s := Go(steps, s, ReplaceWorkbook);
    steps, s := Go(steps, s, CrashEdit);
    steps, s := SecondSession(steps, s);
  }

  /** A new validator between two sessions; the preflight deletes no recorded outcome. */
  lemma DeployKeepsOutcomes() returns (steps: seq<Step>, s: Dir)
    ensures After(Shifting, steps) == Some(s) && Accepts(s, DRAFT, false)
    ensures NOW in s.validation.value && NOW.status != Plan.Verified
  {
    steps, s := FirstSession();
    steps, s := Go(steps, s, Deploy(1));
    steps, s := SecondSession(steps, s);
  }

  /** An edit admitted just before a start replaces the workbook under the running agent. */
  lemma OvertakenEditKeepsOutcomes() returns (steps: seq<Step>, s: Dir)
    ensures After(Shifting, steps) == Some(s) && Accepts(s, DRAFT, false)
    ensures NOW in s.validation.value && NOW.status != Plan.Verified
  {
    OutcomeFits();
    steps, s := Go([], FRESH, AdmitEdit(1));
    steps, s := Go(steps, s, StartRun);
    steps, s := Go(steps, s, PreflightPasses);
    steps, s := Go(steps, s, OUTCOME);
    steps, s := Go(steps, s, ReplaceWorkbook);
    steps, s := Go(steps, s, Prepare);
    OldOutcomeAccepted(s);
  }

  // ---- from the evidence tree to the verdict ---------------------------------------------

  /** The items as the verdict reads them. */
  function AsRrItems(items: seq<Plan.Item>): seq<RrItem> {
    seq(|items|, i requires 0 <= i < |items| => RrItem(items[i].id, items[i].domain, items[i].status))
  }

  /**
   An accepted draft over the items of a tree of expectations: every outermost
   sourced object of the tree has a recorded match with non-empty evidence.
   */
  lemma AcceptedDraftCoversEvidence(order: seq<string>, expected: map<string, Tree.Json>,
                                    judge: (string, Tree.Json) -> Plan.Status, s: Dir, p: Params, readbackPending: bool,
                                    n: Tree.Node)
    requires Plan.GoodOrder(order) && Plan.WellFormedTrees(expected) && RecordsBacked(s.records)
    requires Accepts(s, p, readbackPending)
    requires s.validation.value == AsRrItems(Plan.ItemsOf(Plan.AllNodes(order, expected), judge))
    requires Tree.Yields(Plan.Root(order, expected), [], n)
    ensures var t := FromDomains(s.records);
      && Tree.Identity(n) in t.rows && t.rows[Tree.Identity(n)].status == Match
      && t.rows[Tree.Identity(n)].cventEvidence.Some? && t.rows[Tree.Identity(n)].cventEvidence.value != []
  {
    var ns, items := Plan.AllNodes(order, expected), Plan.ItemsOf(Plan.AllNodes(order, expected), judge);
    Plan.RootWellFormed(order, expected);
    Tree.NodesExactly(Plan.Root(order, expected), [], n);
    var i :| 0 <= i < |ns| && ns[i] == n;
    Plan.ItemAt(ns, judge, i);
    var item := s.validation.value[i];
    assert item in s.validation.value && item.itemId == Tree.Identity(n);
    DraftCompleteIsSound(p, readbackPending, s.validation.value, s.records);
  }

  /** The plans of `ExecutionPlan`, one for each basis. */
  function Plans(order: seq<string>, expected: Basis -> map<string, Tree.Json>,
                 judge: Basis -> ((string, Tree.Json) -> Plan.Status)): Compile
    requires Plan.GoodOrder(order)
  {
    b => AsRrItems(Plan.ItemsOf(Plan.AllNodes(order, expected(b)), judge(b)))
  }

  /** The domain an item identity begins with. */
  function Home(id: string): string {
    if id == "" || id[0] == '/' || id[0] == '|' then "" else [id[0]] + Home(id[1..])
  }

  lemma {:induction false} HomeIsFirst(first: string, separator: char, rest: string)
    requires '/' !in first && '|' !in first && (separator == '/' || separator == '|')
    ensures Home(first + [separator] + rest) == first
  {
    var id := first + [separator] + rest;
    if first == "" {
      assert id[0] == separator;
    } else {
      assert id[1..] == first[1..] + [separator] + rest;
      HomeIsFirst(first[1..], separator, rest);
    }
  }

  lemma NodeAtHome(n: Tree.Node)
    requires Tree.Plain(n.path) && n.path != []
    ensures Home(Tree.Identity(n)) == n.path[0]
  {
    if |n.path| == 1 {
      HomeIsFirst(n.path[0], '|', n.source);
      assert Tree.Identity(n) == n.path[0] + ['|'] + n.source;
    } else {
      var rest := Tree.Join(n.path[1..]) + "|" + n.source;
      HomeIsFirst(n.path[0], '/', rest);
      assert Tree.Identity(n) == n.path[0] + ['/'] + rest;
    }
  }

  /** These plans identify their items: within a plan an identity is unique, and across plans it keeps its domain. */
  lemma PlansIdentify(order: seq<string>, expected: Basis -> map<string, Tree.Json>,
                      judge: Basis -> ((string, Tree.Json) -> Plan.Status))
    requires Plan.GoodOrder(order) && forall b :: Plan.GoodExpectations(expected(b))
    ensures Identifies(Plans(order, expected, judge), Home)
  {
    var compile := Plans(order, expected, judge);
    forall b ensures DistinctIds(compile(b)) && forall item <- compile(b) :: item.domain == Home(item.itemId) {
      var ns, items := Plan.AllNodes(order, expected(b)), Plan.ItemsOf(Plan.AllNodes(order, expected(b)), judge(b));
      Plan.ItemsDistinct(order, expected(b), judge(b));
      Plan.RootPlain(order, expected(b));
      Plan.PathsPlain(Plan.Root(order, expected(b)), []);
      forall item <- compile(b) ensures item.domain == Home(item.itemId) {
        var i :| 0 <= i < |items| && compile(b)[i] == item;
        if ns != [] { Plan.ItemAt(ns, judge(b), 0); }
        Plan.ItemAt(ns, judge(b), i);
        assert ns[i] in ns;
        NodeAtHome(ns[i]);
      }
    }
  }
}
