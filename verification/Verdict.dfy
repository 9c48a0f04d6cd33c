/**
 The accounting behind the final verdict (`verificationItemResults`,
 `cvent_verify_domain` and the controlled-mode `cvent_finish` in
 `extensions/cvent-job-tools.ts`).
 */
module Verdict {
  import opened Wrappers
  import Plan = ExecutionPlan

  type RrStatus = Plan.Status

  datatype Outcome = Match | NotConfigured | Ambiguous | Prohibited

  /** The schema of the tool admits no MATCH as an exception. */
  type Exceptional = o: Outcome | o != Match witness NotConfigured

  datatype RrItem = RrItem(itemId: string, domain: string, status: RrStatus)

  datatype MatchEntry = MatchEntry(itemId: string, cventEvidence: seq<string>)

  datatype ExceptionEntry = ExceptionEntry(itemId: string, status: Exceptional, reason: string)

  /** One row of a verification record; `cventEvidence` is present exactly on matches. */
  datatype Row = Row(itemId: string, rrStatus: RrStatus, status: Outcome, cventEvidence: Option<seq<string>>, reason: string)

  datatype ResultsError = BadMatch | BadException | MatchOnUnverified

  const NO_READBACK := "No explicit item-level Cvent readback was supplied"

  // ---- one outcome per item --------------------------------------------------

  predicate InDomain(items: seq<RrItem>, id: string) { exists item <- items :: item.itemId == id }

  predicate Matched(matches: seq<MatchEntry>, id: string) { exists m <- matches :: m.itemId == id }

  predicate Excepted(exceptions: seq<ExceptionEntry>, id: string) { exists e <- exceptions :: e.itemId == id }

  /** Every match names a different item of the domain and carries evidence. */
  ghost predicate MatchesFit(items: seq<RrItem>, matches: seq<MatchEntry>) {
    && (forall m <- matches :: InDomain(items, m.itemId) && m.cventEvidence != [])
    && (forall i, j | 0 <= i < j < |matches| :: matches[i].itemId != matches[j].itemId)
  }

  /** Every exception names a different item of the domain, none of them matched. */
  ghost predicate ExceptionsFit(items: seq<RrItem>, matches: seq<MatchEntry>, exceptions: seq<ExceptionEntry>) {
    && (forall e <- exceptions :: InDomain(items, e.itemId) && !Matched(matches, e.itemId))
    && (forall i, j | 0 <= i < j < |exceptions| :: exceptions[i].itemId != exceptions[j].itemId)
  }

  ghost predicate OnlyVerifiedMatched(items: seq<RrItem>, matches: seq<MatchEntry>) {
    forall item <- items :: Matched(matches, item.itemId) ==> item.status == Plan.Verified
  }

  /** The one outcome the item gets. */
  ghost predicate Accounts(item: RrItem, matches: seq<MatchEntry>, exceptions: seq<ExceptionEntry>, row: Row) {
    && row.itemId == item.itemId && row.rrStatus == item.status
    && (forall m <- matches :: m.itemId == item.itemId ==>
          row.status == Match && row.cventEvidence == Some(m.cventEvidence) && row.reason == "")
    && (forall e <- exceptions :: e.itemId == item.itemId ==>
          row.status == e.status && row.cventEvidence == None && row.reason == e.reason)
    && (!Matched(matches, item.itemId) && !Excepted(exceptions, item.itemId) ==>
          row.status == (if item.status == Plan.Verified then NotConfigured else Ambiguous)
            && row.cventEvidence == None && row.reason == NO_READBACK)
  }

  /** One row per item, in order. */
  ghost predicate AccountsAll(items: seq<RrItem>, matches: seq<MatchEntry>, exceptions: seq<ExceptionEntry>,
                              rows: seq<Row>) {
    |rows| == |items| && forall i | 0 <= i < |items| :: Accounts(items[i], matches, exceptions, rows[i])
  }

  ghost predicate Accountable(items: seq<RrItem>, matches: seq<MatchEntry>, exceptions: seq<ExceptionEntry>) {
    MatchesFit(items, matches) && ExceptionsFit(items, matches, exceptions) && OnlyVerifiedMatched(items, matches)
  }

  /** The first loop: matches by item. */
  method IndexMatches(items: seq<RrItem>, matches: seq<MatchEntry>) returns (r: Option<map<string, MatchEntry>>)
    ensures r.Some? <==> MatchesFit(items, matches)
    ensures r.Some? ==> (forall id :: id in r.value <==> Matched(matches, id))
    ensures r.Some? ==> forall m <- matches :: r.value[m.itemId] == m
  {
    var matched: map<string, MatchEntry> := map[];
    for i := 0 to |matches|
      invariant MatchesFit(items, matches[..i])
      invariant forall id :: id in matched <==> Matched(matches[..i], id)
      invariant forall m <- matches[..i] :: matched[m.itemId] == m
    {
      var m := matches[i];
      assert m in matches && matches[..i + 1] == matches[..i] + [m];
      if !InDomain(items, m.itemId) || m.itemId in matched || m.cventEvidence == [] {
        assert m.itemId in matched ==> exists k | 0 <= k < i :: matches[k].itemId == m.itemId;
        return None;
      }
      matched := matched[m.itemId := m];
    }
    assert matches[..|matches|] == matches;
    return Some(matched);
  }

  /** The second loop: exceptions by item. */
  method IndexExceptions(items: seq<RrItem>, matches: seq<MatchEntry>, matched: map<string, MatchEntry>,
                         exceptions: seq<ExceptionEntry>)
    returns (r: Option<map<string, ExceptionEntry>>)
    requires forall id :: id in matched <==> Matched(matches, id)
    ensures r.Some? <==> ExceptionsFit(items, matches, exceptions)
    ensures r.Some? ==> (forall id :: id in r.value <==> Excepted(exceptions, id))
    ensures r.Some? ==> forall e <- exceptions :: r.value[e.itemId] == e
  {
    var held: map<string, ExceptionEntry> := map[];
    for i := 0 to |exceptions|
      invariant ExceptionsFit(items, matches, exceptions[..i])
      invariant forall id :: id in held <==> Excepted(exceptions[..i], id)
      invariant forall e <- exceptions[..i] :: held[e.itemId] == e
    {
      var e := exceptions[i];
      assert e in exceptions && exceptions[..i + 1] == exceptions[..i] + [e];
      if !InDomain(items, e.itemId) || e.itemId in held || e.itemId in matched {
        assert e.itemId in held ==> exists k | 0 <= k < i :: exceptions[k].itemId == e.itemId;
        return None;
      }
      held := held[e.itemId := e];
    }
    assert exceptions[..|exceptions|] == exceptions;
    return Some(held);
  }

  method VerificationItemResults(items: seq<RrItem>, matches: seq<MatchEntry>, exceptions: seq<ExceptionEntry>)
    returns (r: Result<seq<Row>, ResultsError>)
    ensures r == Err(BadMatch) <==> !MatchesFit(items, matches)
    ensures r == Err(BadException) <==> MatchesFit(items, matches) && !ExceptionsFit(items, matches, exceptions)
    ensures r.Ok? <==> Accountable(items, matches, exceptions)
    ensures r.Ok? ==> AccountsAll(items, matches, exceptions, r.value)
  {
    var matched := IndexMatches(items, matches);
    if matched.None? {
      return Err(BadMatch);
    }
    var held := IndexExceptions(items, matches, matched.value, exceptions);
    if held.None? {
      return Err(BadException);
    }
    var rows := [];
    for i := 0 to |items|
      invariant AccountsAll(items[..i], matches, exceptions, rows)
      invariant OnlyVerifiedMatched(items[..i], matches)
    {
      var item := items[i];
      assert item in items && items[..i + 1] == items[..i] + [item];
      if item.itemId in matched.value && item.status != Plan.Verified {
        return Err(MatchOnUnverified);
      }
      var row :=
        if item.itemId in held.value then
          Row(item.itemId, item.status, held.value[item.itemId].status, None, held.value[item.itemId].reason)
        else if item.itemId in matched.value then
          Row(item.itemId, item.status, Match, Some(matched.value[item.itemId].cventEvidence), "")
        else
          Row(item.itemId, item.status, if item.status == Plan.Verified then NotConfigured else Ambiguous, None, NO_READBACK);
      assert Accounts(item, matches, exceptions, row);
      rows := rows + [row];
    }
    assert items[..|items|] == items;
    r := Ok(rows);
  }

  /** With fitting inputs the accounting is total and unambiguous: exactly one row fits each item. */
  lemma ExactlyOneOutcome(items: seq<RrItem>, matches: seq<MatchEntry>, exceptions: seq<ExceptionEntry>, item: RrItem)
    requires MatchesFit(items, matches) && ExceptionsFit(items, matches, exceptions) && item in items
    ensures exists row :: Accounts(item, matches, exceptions, row)
    ensures forall a, b ::
      Accounts(item, matches, exceptions, a) && Accounts(item, matches, exceptions, b) ==> a == b
  {
    var row;
    if Matched(matches, item.itemId) {
      var m :| m in matches && m.itemId == item.itemId;
      row := Row(item.itemId, item.status, Match, Some(m.cventEvidence), "");
    } else if Excepted(exceptions, item.itemId) {
      var e :| e in exceptions && e.itemId == item.itemId;
      row := Row(item.itemId, item.status, e.status, None, e.reason);
    } else {
      row := Row(item.itemId, item.status, if item.status == Plan.Verified then NotConfigured else Ambiguous, None, NO_READBACK);
    }
    assert Accounts(item, matches, exceptions, row);
  }

  /** A MATCH is never recorded without VERIFIED source evidence and non-empty readback evidence. */
  ghost predicate MatchIsBacked(row: Row) {
    row.status == Match ==> row.rrStatus == Plan.Verified && row.cventEvidence.Some? && row.cventEvidence.value != []
  }

  lemma RowsAreBacked(items: seq<RrItem>, matches: seq<MatchEntry>, exceptions: seq<ExceptionEntry>, item: RrItem, row: Row)
    requires MatchesFit(items, matches) && OnlyVerifiedMatched(items, matches) && item in items
    requires Accounts(item, matches, exceptions, row)
    ensures MatchIsBacked(row)
  {
    if Matched(matches, item.itemId) {
      var m :| m in matches && m.itemId == item.itemId;
    } else if Excepted(exceptions, item.itemId) {
      var e :| e in exceptions && e.itemId == item.itemId;
    }
  }

  // ---- the recorded outcomes ---------------------------------------------------

  datatype DomainRecord = DomainRecord(domain: string, cventEvidence: seq<string>, rows: seq<Row>)

  /** A JavaScript `Map`: keys in insertion order with their rows. */
  datatype Table = Table(order: seq<string>, rows: map<string, Row>)

  const EMPTY := Table([], map[])

  function Put(t: Table, row: Row): Table {
    Table(if row.itemId in t.rows then t.order else t.order + [row.itemId], t.rows[row.itemId := row])
  }

  function PutAll(t: Table, rows: seq<Row>): Table {
    if rows == [] then t else Put(PutAll(t, rows[..|rows| - 1]), rows[|rows| - 1])
  }

  function FromDomains(records: seq<DomainRecord>): Table {
    if records == [] then EMPTY else PutAll(FromDomains(records[..|records| - 1]), records[|records| - 1].rows)
  }

  function Missing(item: RrItem): Row {
    Row(item.itemId, item.status, if item.status == Plan.Ambiguous then Ambiguous else NotConfigured, None,
        "Domain was not verified before the job ended")
  }

  function FillIn(t: Table, items: seq<RrItem>): Table {
    if items == [] then t
    else
      var before, item := FillIn(t, items[..|items| - 1]), items[|items| - 1];
      if item.itemId in before.rows then before else Put(before, Missing(item))
  }

  function Recorded(records: seq<DomainRecord>, items: seq<RrItem>): Table { FillIn(FromDomains(records), items) }

  function CountOf(t: Table, order: seq<string>, outcome: Outcome): nat
    requires forall id <- order :: id in t.rows
  {
    if order == [] then 0
    else CountOf(t, order[..|order| - 1], outcome)
           + if t.rows[order[|order| - 1]].status == outcome then 1 else 0
  }

  ghost predicate Consistent(t: Table) {
    && (forall id :: id in t.order <==> id in t.rows)
    && (forall id <- t.rows :: t.rows[id].itemId == id)
  }

  ghost predicate Backed(t: Table) { forall id <- t.rows :: MatchIsBacked(t.rows[id]) }

  ghost predicate RecordsBacked(records: seq<DomainRecord>) {
    forall record <- records, row <- record.rows :: MatchIsBacked(row)
  }

  lemma {:induction false} PutAllKeeps(t: Table, rows: seq<Row>)
    requires Consistent(t)
    ensures Consistent(PutAll(t, rows))
    ensures Backed(t) && (forall row <- rows :: MatchIsBacked(row)) ==> Backed(PutAll(t, rows))
  {
    if rows != [] { PutAllKeeps(t, rows[..|rows| - 1]); }
  }

  lemma {:induction false} FromDomainsKeeps(records: seq<DomainRecord>)
    ensures Consistent(FromDomains(records))
    ensures RecordsBacked(records) ==> Backed(FromDomains(records))
  {
    if records != [] {
      var front, last := records[..|records| - 1], records[|records| - 1];
      FromDomainsKeeps(front);
      PutAllKeeps(FromDomains(front), last.rows);
      assert forall record <- front :: record in records;
      assert last in records;
    }
  }

  lemma {:induction false} FillInKeeps(t: Table, items: seq<RrItem>)
    requires Consistent(t)
    ensures Consistent(FillIn(t, items)) && Extends(t, FillIn(t, items))
    ensures forall item <- items :: item.itemId in FillIn(t, items).rows
  {
    if items != [] {
      var front, last := items[..|items| - 1], items[|items| - 1];
      FillInKeeps(t, front);
      var before := FillIn(t, front);
      assert Extends(before, FillIn(t, items));
      assert items == front + [last];
    }
  }

  /** Rows are kept, and only rows other than matches are added. */
  ghost predicate Extends(t: Table, u: Table) {
    && (forall id <- t.rows :: id in u.rows && u.rows[id] == t.rows[id])
    && (forall id <- u.rows :: id !in t.rows ==> u.rows[id].status != Match)
  }

  lemma RecordedKeeps(records: seq<DomainRecord>, items: seq<RrItem>)
    ensures Consistent(Recorded(records, items))
    ensures RecordsBacked(records) ==> Backed(Recorded(records, items))
    ensures forall item <- items :: item.itemId in Recorded(records, items).rows
  {
    FromDomainsKeeps(records);
    FillInKeeps(FromDomains(records), items);
  }

  lemma {:induction false} CountVanishes(t: Table, order: seq<string>, outcome: Outcome)
    requires forall id <- order :: id in t.rows
    ensures CountOf(t, order, outcome) == 0 <==> forall id <- order :: t.rows[id].status != outcome
  {
    if order != [] {
      CountVanishes(t, order[..|order| - 1], outcome);
      assert order == order[..|order| - 1] + [order[|order| - 1]];
    }
  }

  // ---- what the recorded table holds -------------------------------------------

  /** The rows on file, in the order in which they are read. */
  function RowsOnFile(records: seq<DomainRecord>): seq<Row> {
    if records == [] then [] else RowsOnFile(records[..|records| - 1]) + records[|records| - 1].rows
  }

  predicate HasRow(rows: seq<Row>, id: string) { exists row <- rows :: row.itemId == id }

  /** Row i is the last one of its item. */
  predicate LastOfItem(rows: seq<Row>, i: nat)
    requires i < |rows|
  {
    forall j | i < j < |rows| :: rows[j].itemId != rows[i].itemId
  }

  lemma {:induction false} PutAllAppend(t: Table, a: seq<Row>, b: seq<Row>)
    ensures PutAll(t, a + b) == PutAll(PutAll(t, a), b)
  {
    if b == [] {
      assert a + b == a;
    } else {
      PutAllAppend(t, a, b[..|b| - 1]);
      assert (a + b)[..|a + b| - 1] == a + b[..|b| - 1];
    }
  }

  lemma {:induction false} FromDomainsPuts(records: seq<DomainRecord>)
    ensures FromDomains(records) == PutAll(EMPTY, RowsOnFile(records))
  {
    if records != [] {
      FromDomainsPuts(records[..|records| - 1]);
      PutAllAppend(EMPTY, RowsOnFile(records[..|records| - 1]), records[|records| - 1].rows);
    }
  }

  lemma {:induction false} PutAllHolds(rows: seq<Row>)
    ensures forall id :: id in PutAll(EMPTY, rows).rows <==> HasRow(rows, id)
    ensures forall i | 0 <= i < |rows| && LastOfItem(rows, i) ::
      rows[i].itemId in PutAll(EMPTY, rows).rows && PutAll(EMPTY, rows).rows[rows[i].itemId] == rows[i]
  {
    if rows != [] {
      var front, last := rows[..|rows| - 1], rows[|rows| - 1];
      PutAllHolds(front);
      assert rows == front + [last];
      forall i | 0 <= i < |front| && LastOfItem(rows, i) ensures LastOfItem(front, i) && rows[i].itemId != last.itemId {
        assert rows[|front|] == last;
      }
    }
  }

  lemma {:induction false} FillInAdds(t: Table, items: seq<RrItem>)
    ensures var u := FillIn(t, items);
      && (forall id <- t.rows :: id in u.rows && u.rows[id] == t.rows[id])
      && (forall id <- u.rows :: id in t.rows || exists item <- items :: item.itemId == id && u.rows[id] == Missing(item))
  {
    if items != [] {
      var front := items[..|items| - 1];
      FillInAdds(t, front);
      assert items == front + [items[|items| - 1]];
    }
  }

  /**
   The table of a verdict: the last row on file of each item, and for an item of the
   plan without one a row that is no match.
   */
  lemma RecordedExactly(records: seq<DomainRecord>, items: seq<RrItem>)
    ensures var rows, t := RowsOnFile(records), Recorded(records, items);
      && (forall i | 0 <= i < |rows| && LastOfItem(rows, i) ::
            rows[i].itemId in t.rows && t.rows[rows[i].itemId] == rows[i])
      && (forall id :: id in t.rows <==> HasRow(rows, id) || InDomain(items, id))
      && (forall id <- t.rows :: !HasRow(rows, id) ==> exists item <- items ::
            && item.itemId == id && t.rows[id].rrStatus == item.status && t.rows[id].cventEvidence.None?
            && t.rows[id].status == if item.status == Plan.Ambiguous then Ambiguous else NotConfigured)
  {
    var rows := RowsOnFile(records);
    FromDomainsPuts(records);
    PutAllHolds(rows);
    FromDomainsKeeps(records);
    FillInKeeps(FromDomains(records), items);
    FillInAdds(FromDomains(records), items);
  }

  lemma {:induction false} LastRowExists(rows: seq<Row>, id: string) returns (i: nat)
    requires HasRow(rows, id)
    ensures i < |rows| && rows[i].itemId == id && LastOfItem(rows, i)
  {
    if rows[|rows| - 1].itemId == id {
      i := |rows| - 1;
    } else {
      assert rows == rows[..|rows| - 1] + [rows[|rows| - 1]];
      i := LastRowExists(rows[..|rows| - 1], id);
    }
  }

  /** Every item of the plan has a row on file, and every item's last row is a MATCH. */
  ghost predicate AllOnFileMatch(records: seq<DomainRecord>, items: seq<RrItem>) {
    var rows := RowsOnFile(records);
    && (forall item <- items :: HasRow(rows, item.itemId))
    && (forall i | 0 <= i < |rows| && LastOfItem(rows, i) :: rows[i].status == Match)
  }

  lemma AllMatchExactly(records: seq<DomainRecord>, items: seq<RrItem>)
    ensures AllMatch(Recorded(records, items)) <==> AllOnFileMatch(records, items)
  {
    var rows, t := RowsOnFile(records), Recorded(records, items);
    RecordedExactly(records, items);
    if AllMatch(t) {
      forall item <- items ensures HasRow(rows, item.itemId) {
        assert InDomain(items, item.itemId);
        assert t.rows[item.itemId].status == Match;
      }
    }
    if AllOnFileMatch(records, items) {
      forall id <- t.rows ensures t.rows[id].status == Match {
        assert InDomain(items, id) ==> HasRow(rows, id);
        var i := LastRowExists(rows, id);
      }
    }
  }

  lemma {:induction false} PutAllGrows(t: Table, rows: seq<Row>)
    ensures t.order <= PutAll(t, rows).order
  {
    if rows != [] { PutAllGrows(t, rows[..|rows| - 1]); }
  }

  lemma {:induction false} FillInGrows(t: Table, items: seq<RrItem>)
    ensures t.order <= FillIn(t, items).order
  {
    if items != [] { FillInGrows(t, items[..|items| - 1]); }
  }

  /** Items stand in the order in which they first come up: rows read later, and items filled in, come after. */
  lemma FirstComeFirst(records: seq<DomainRecord>, later: seq<DomainRecord>, items: seq<RrItem>)
    ensures FromDomains(records).order <= FromDomains(records + later).order <= Recorded(records + later, items).order
  {
    FromDomainsPuts(records);
    FromDomainsPuts(records + later);
    RowsAppend(records, later);
    PutAllAppend(EMPTY, RowsOnFile(records), RowsOnFile(later));
    PutAllGrows(FromDomains(records), RowsOnFile(later));
    FillInGrows(FromDomains(records + later), items);
  }

  lemma {:induction false} RowsAppend(a: seq<DomainRecord>, b: seq<DomainRecord>)
    ensures RowsOnFile(a + b) == RowsOnFile(a) + RowsOnFile(b)
  {
    if b == [] {
      assert a + b == a;
    } else {
      var front, last := b[..|b| - 1], b[|b| - 1];
      RowsAppend(a, front);
      assert (a + b)[..|a + b| - 1] == a + front && (a + b)[|a + b| - 1] == last;
      calc {
        RowsOnFile(a + b);
        RowsOnFile(a + front) + last.rows;
        RowsOnFile(a) + RowsOnFile(front) + last.rows;
        RowsOnFile(a) + (RowsOnFile(front) + last.rows);
        RowsOnFile(a) + RowsOnFile(b);
      }
    }
  }

  ghost predicate Distinct(order: seq<string>) { forall i, j | 0 <= i < j < |order| :: order[i] != order[j] }

  lemma PutDistinct(t: Table, row: Row)
    requires Consistent(t) && Distinct(t.order)
    ensures Distinct(Put(t, row).order)
  {
    assert forall i | 0 <= i < |t.order| :: t.order[i] in t.order;
  }

  lemma {:induction false} PutAllDistinct(t: Table, rows: seq<Row>)
    requires Consistent(t) && Distinct(t.order)
    ensures Distinct(PutAll(t, rows).order)
  {
    if rows != [] {
      PutAllDistinct(t, rows[..|rows| - 1]);
      PutAllKeeps(t, rows[..|rows| - 1]);
      PutDistinct(PutAll(t, rows[..|rows| - 1]), rows[|rows| - 1]);
    }
  }

  lemma {:induction false} FillInDistinct(t: Table, items: seq<RrItem>)
    requires Consistent(t) && Distinct(t.order)
    ensures Distinct(FillIn(t, items).order)
  {
    if items != [] {
      FillInDistinct(t, items[..|items| - 1]);
      FillInKeeps(t, items[..|items| - 1]);
      PutDistinct(FillIn(t, items[..|items| - 1]), Missing(items[|items| - 1]));
    }
  }

  function Having(t: Table, order: seq<string>, outcome: Outcome): set<string>
    requires forall id <- order :: id in t.rows
  {
    set id | id in order && t.rows[id].status == outcome
  }

  lemma OneMoreHas(t: Table, front: seq<string>, last: string, outcome: Outcome)
    requires (forall id <- front :: id in t.rows) && last in t.rows && last !in front
    ensures |Having(t, front + [last], outcome)|
      == |Having(t, front, outcome)| + if t.rows[last].status == outcome then 1 else 0
  {
    var before, after := Having(t, front, outcome), Having(t, front + [last], outcome);
    if t.rows[last].status == outcome {
      assert after == before + {last};
    } else {
      assert after == before;
    }
  }

  lemma {:induction false} CountIsSize(t: Table, order: seq<string>, outcome: Outcome)
    requires (forall id <- order :: id in t.rows) && Distinct(order)
    ensures CountOf(t, order, outcome) == |Having(t, order, outcome)|
  {
    if order != [] {
      var front, last := order[..|order| - 1], order[|order| - 1];
      assert order == front + [last];
      CountIsSize(t, front, outcome);
      OneMoreHas(t, front, last, outcome);
    }
  }

  lemma RecordedDistinct(records: seq<DomainRecord>, items: seq<RrItem>)
    ensures Distinct(Recorded(records, items).order)
  {
    FromDomainsKeeps(records);
    FromDomainsPuts(records);
    PutAllDistinct(EMPTY, RowsOnFile(records));
    FillInDistinct(FromDomains(records), items);
  }

  /** The report counts each item of the table once, under its outcome. */
  lemma AccuracyExactly(records: seq<DomainRecord>, items: seq<RrItem>, outcome: Outcome)
    ensures var t := Recorded(records, items);
      && (forall id :: id in t.order <==> id in t.rows)
      && outcome in Accuracy(t)
      && Accuracy(t)[outcome] == |Having(t, t.order, outcome)|
  {
    var t := Recorded(records, items);
    RecordedKeeps(records, items);
    RecordedDistinct(records, items);
    CountIsSize(t, t.order, outcome);
    assert outcome == Match || outcome == NotConfigured || outcome == Ambiguous || outcome == Prohibited;
  }

  // ---- the decision of cvent_finish --------------------------------------------

  datatype FinalStatus = DraftComplete | ReviewRequired | Incomplete

  datatype Blocker = UncertainMutation | OtherBlocker

  datatype Guardrails = Guardrails(published: nat, emailsSent: nat, deletes: nat, globalMutations: nat)

  datatype Params = Params(
    status: FinalStatus, blocker: Option<Blocker>, blockerEvidence: Option<string>,
    unresolvedItems: seq<string>, guardrails: Guardrails)

  datatype FinishError =
    | ReadbackPending | BlockerUnfounded | ProtectedActionDone | UnresolvedListed
    | PlanEmpty | DomainsOutstanding | BlockerNeeded | NotAllMatch

  /** The domain has a record with evidence. */
  predicate Assessed(records: seq<DomainRecord>, domain: string) {
    exists record <- records :: record.domain == domain && record.cventEvidence != []
  }

  /** The refusals that come before any file is written. */
  function Refusal(p: Params, readbackPending: bool, items: seq<RrItem>, records: seq<DomainRecord>): Option<FinishError> {
    if readbackPending && p.blocker != Some(UncertainMutation) then Some(ReadbackPending)
    else if p.blocker.Some? && (p.status != Incomplete || p.blockerEvidence.None?) then Some(BlockerUnfounded)
    else if p.guardrails != Guardrails(0, 0, 0, 0) then Some(ProtectedActionDone)
    else if p.status == DraftComplete && p.unresolvedItems != [] then Some(UnresolvedListed)
    else if p.blocker.Some? then None
    else if items == [] then Some(PlanEmpty)
    else if exists item <- items :: !Assessed(records, item.domain) then Some(DomainsOutstanding)
    else if p.status == Incomplete then Some(BlockerNeeded)
    else None
  }

  ghost predicate AllMatch(t: Table) { forall id <- t.rows :: t.rows[id].status == Match }

  function Accuracy(t: Table): map<Outcome, nat>
    requires forall id <- t.order :: id in t.rows
  {
    map[Match := CountOf(t, t.order, Match), NotConfigured := CountOf(t, t.order, NotConfigured),
        Ambiguous := CountOf(t, t.order, Ambiguous), Prohibited := CountOf(t, t.order, Prohibited)]
  }

  /** What `cvent_finish` answers: the early refusals, and then the demand that all outcomes be matches. */
  ghost function Answer(p: Params, readbackPending: bool, items: seq<RrItem>, records: seq<DomainRecord>)
    : Option<FinishError>
  {
    var refusal := Refusal(p, readbackPending, items, records);
    if refusal.Some? then refusal
    else if p.status == DraftComplete && !AllMatch(Recorded(records, items)) then Some(NotAllMatch)
    else None
  }

  /** A record of the domain carries evidence. */
  predicate EvidenceOnFile(records: seq<DomainRecord>, domain: string) {
    exists i | 0 <= i < |records| :: records[i].domain == domain && |records[i].cventEvidence| > 0
  }

  lemma AssessedExactly(records: seq<DomainRecord>, domain: string)
    ensures Assessed(records, domain) <==> EvidenceOnFile(records, domain)
  {
    assert forall i | 0 <= i < |records| :: records[i] in records;
  }

  lemma CoveredExactly(records: seq<DomainRecord>, items: seq<RrItem>)
    ensures (exists item <- items :: !Assessed(records, item.domain)) <==>
      exists item <- items :: !EvidenceOnFile(records, item.domain)
  {
    forall item <- items ensures Assessed(records, item.domain) <==> EvidenceOnFile(records, item.domain) {
      AssessedExactly(records, item.domain);
    }
  }

  /**
   The verdicts that may stand: nothing protected was done; INCOMPLETE names its blocker
   and the evidence for it; the others name none and cover every domain of a plan that
   is not empty; a draft leaves nothing unresolved and every outcome on file is a MATCH;
   an unread write is admitted only as the blocker itself.
   */
  ghost predicate MayStand(p: Params, readbackPending: bool, items: seq<RrItem>, records: seq<DomainRecord>) {
    && p.guardrails.published == 0 && p.guardrails.emailsSent == 0
    && p.guardrails.deletes == 0 && p.guardrails.globalMutations == 0
    && (readbackPending ==> p.blocker == Some(UncertainMutation))
    && (if p.status == Incomplete then p.blocker.Some? && p.blockerEvidence.Some?
        else p.blocker.None? && |items| > 0 && forall item <- items :: EvidenceOnFile(records, item.domain))
    && (p.status == DraftComplete ==> |p.unresolvedItems| == 0 && AllOnFileMatch(records, items))
  }

  /** Exactly those are accepted. */
  lemma AcceptedExactly(p: Params, readbackPending: bool, items: seq<RrItem>, records: seq<DomainRecord>)
    ensures Answer(p, readbackPending, items, records).None? <==> MayStand(p, readbackPending, items, records)
  {
    AllMatchExactly(records, items);
    CoveredExactly(records, items);
  }

  /** What is wrong with a verdict, each fault by itself. */
  ghost predicate Fault(e: FinishError, p: Params, readbackPending: bool, items: seq<RrItem>, records: seq<DomainRecord>) {
    match e
    case ReadbackPending => readbackPending && p.blocker != Some(UncertainMutation)
    case BlockerUnfounded => p.blocker.Some? && !(p.status == Incomplete && p.blockerEvidence.Some?)
    case ProtectedActionDone =>
      p.guardrails.published + p.guardrails.emailsSent + p.guardrails.deletes + p.guardrails.globalMutations > 0
    case UnresolvedListed => p.status == DraftComplete && |p.unresolvedItems| > 0
    case PlanEmpty => p.blocker.None? && |items| == 0
    case DomainsOutstanding => p.blocker.None? && exists item <- items :: !EvidenceOnFile(records, item.domain)
    case BlockerNeeded => p.blocker.None? && p.status == Incomplete
    case NotAllMatch => p.status == DraftComplete && !AllOnFileMatch(records, items)
  }

  /** The order in which faults are reported. */
  function Rank(e: FinishError): nat {
    match e
    case ReadbackPending => 0
    case BlockerUnfounded => 1
    case ProtectedActionDone => 2
    case UnresolvedListed => 3
    case PlanEmpty => 4
    case DomainsOutstanding => 5
    case BlockerNeeded => 6
    case NotAllMatch => 7
  }

  ghost function First(fault: FinishError -> bool): Option<FinishError> {
    if fault(ReadbackPending) then Some(ReadbackPending)
    else if fault(BlockerUnfounded) then Some(BlockerUnfounded)
    else if fault(ProtectedActionDone) then Some(ProtectedActionDone)
    else if fault(UnresolvedListed) then Some(UnresolvedListed)
    else if fault(PlanEmpty) then Some(PlanEmpty)
    else if fault(DomainsOutstanding) then Some(DomainsOutstanding)
    else if fault(BlockerNeeded) then Some(BlockerNeeded)
    else if fault(NotAllMatch) then Some(NotAllMatch)
    else None
  }

  lemma FirstHasLowestRank(fault: FinishError -> bool, e: FinishError)
    ensures First(fault) == Some(e) <==> fault(e) && forall f | Rank(f) < Rank(e) :: !fault(f)
  {
    if fault(e) && forall f | Rank(f) < Rank(e) :: !fault(f) {
      assert forall f :: Rank(f) == Rank(e) ==> f == e;
      assert Rank(First(fault).value) <= Rank(e);
    }
  }

  /** The answer is the first fault in that order, if there is any. */
  lemma AnswerIsFirstFault(p: Params, readbackPending: bool, items: seq<RrItem>, records: seq<DomainRecord>, e: FinishError)
    ensures Answer(p, readbackPending, items, records) == Some(e) <==>
      && Fault(e, p, readbackPending, items, records)
      && forall f | Rank(f) < Rank(e) :: !Fault(f, p, readbackPending, items, records)
  {
    var fault := f => Fault(f, p, readbackPending, items, records);
    AnswerIsFirst(p, readbackPending, items, records, fault);
    FirstHasLowestRank(fault, e);
    assert forall f :: fault(f) == Fault(f, p, readbackPending, items, records);
  }

  /** The checks of the program find the faults. */
  lemma FaultsAreChecked(p: Params, readbackPending: bool, items: seq<RrItem>, records: seq<DomainRecord>)
    ensures Fault(BlockerUnfounded, p, readbackPending, items, records) <==>
      p.blocker.Some? && (p.status != Incomplete || p.blockerEvidence.None?)
    ensures Fault(ProtectedActionDone, p, readbackPending, items, records) <==> p.guardrails != Guardrails(0, 0, 0, 0)
    ensures Fault(PlanEmpty, p, readbackPending, items, records) <==> p.blocker.None? && items == []
    ensures Fault(DomainsOutstanding, p, readbackPending, items, records) <==>
      p.blocker.None? && exists item <- items :: !Assessed(records, item.domain)
    ensures Fault(NotAllMatch, p, readbackPending, items, records) <==>
      p.status == DraftComplete && !AllMatch(Recorded(records, items))
  {
    AllMatchExactly(records, items);
    CoveredExactly(records, items);
  }

  lemma AnswerIsFirst(p: Params, readbackPending: bool, items: seq<RrItem>, records: seq<DomainRecord>,
                      fault: FinishError -> bool)
    requires forall f :: fault(f) == Fault(f, p, readbackPending, items, records)
    ensures Answer(p, readbackPending, items, records) == First(fault)
  {
    FaultsAreChecked(p, readbackPending, items, records);
    var refusal := Refusal(p, readbackPending, items, records);
    if p.blocker.Some? {
      assert !fault(PlanEmpty) && !fault(DomainsOutstanding) && !fault(BlockerNeeded);
      assert refusal.None? ==> p.status == Incomplete;
    } else {
      assert refusal.None? ==> !fault(BlockerNeeded);
    }
  }

  datatype Report = Report(status: FinalStatus, accuracy: map<Outcome, nat>)

  /** The files of a job that the verdict reads and writes. */
  class JobFiles {
    var validation: Option<seq<RrItem>>
    var records: seq<DomainRecord>       // in the insertion order of the JSON object
    var finalItems: Option<Table>
    var report: Option<Report>

    constructor ()
      ensures Valid() && validation == None && records == [] && finalItems == None && report == None
    {
      validation, records, finalItems, report := None, [], None, None;
    }

    ghost predicate Valid()
      reads this
    {
      && RecordsBacked(records)
      && forall i, j | 0 <= i < j < |records| :: records[i].domain != records[j].domain
    }

    /** The validator rewrites its file; records are left alone. */
    method Prepare(items: seq<RrItem>)
      requires Valid()
      modifies this`validation
      ensures Valid() && validation == Some(items)
    {
      validation := Some(items);
    }

    method VerifyDomain(domain: string, cventEvidence: seq<string>, matches: seq<MatchEntry>,
                        exceptions: seq<ExceptionEntry>, readbackPending: bool, writes: nat, saves: nat, readbacks: nat)
      returns (ok: bool)
      requires Valid()
      modifies this`records
      ensures Valid()
      ensures ok == (validation.Some? && Accountable(DomainItems(validation.value, domain), matches, exceptions)
                     && !readbackPending && (writes > 0 ==> saves >= 1 && readbacks >= 1))
      ensures !ok ==> records == old(records)
      ensures ok ==> exists rows :: AccountsAll(DomainItems(validation.value, domain), matches, exceptions, rows)
                                    && records == Store(old(records), DomainRecord(domain, cventEvidence, rows))
    {
      if validation.None? {
        return false;
      }
      var mine := DomainItems(validation.value, domain);
      var r := VerificationItemResults(mine, matches, exceptions);
      if r.Err? || readbackPending || (writes > 0 && (saves < 1 || readbacks < 1)) {
        return false;
      }
      forall row <- r.value ensures MatchIsBacked(row) {
        var i :| 0 <= i < |r.value| && r.value[i] == row;
        RowsAreBacked(mine, matches, exceptions, mine[i], row);
      }
      var record := DomainRecord(domain, cventEvidence, r.value);
      StoreKeeps(records, record);
      records := Store(records, record);
      return true;
    }

    method Refuse(p: Params, readbackPending: bool, items: seq<RrItem>) returns (error: Option<FinishError>)
      ensures error == Refusal(p, readbackPending, items, records)
    {
      if readbackPending && p.blocker != Some(UncertainMutation) {
        return Some(ReadbackPending);
      }
      if p.blocker.Some? && (p.status != Incomplete || p.blockerEvidence.None?) {
        return Some(BlockerUnfounded);
      }
      if p.guardrails.published != 0 || p.guardrails.emailsSent != 0 || p.guardrails.deletes != 0
         || p.guardrails.globalMutations != 0 {
        return Some(ProtectedActionDone);
      }
      if p.status == DraftComplete && p.unresolvedItems != [] {
        return Some(UnresolvedListed);
      }
      if p.blocker.None? {
        if items == [] {
          return Some(PlanEmpty);
        }
        if exists item <- items :: !Assessed(records, item.domain) {
          return Some(DomainsOutstanding);
        }
        if p.status == Incomplete {
          return Some(BlockerNeeded);
        }
      }
      return None;
    }

    /** The controlled-mode verdict; the final items are written even when the verdict is then refused. */
    method Finish(p: Params, readbackPending: bool) returns (error: Option<FinishError>)
      requires Valid()
      modifies this`finalItems, this`report
      ensures Valid()
      ensures var items := if validation.Some? then validation.value else [];
        var refusal, t := Refusal(p, readbackPending, items, records), Recorded(records, items);
        && (forall id <- t.order :: id in t.rows)
        && error == Answer(p, readbackPending, items, records)
        && (error.None? <==> MayStand(p, readbackPending, items, records))
        && finalItems == (if refusal.Some? then old(finalItems) else Some(t))
        && report == (if error.Some? then old(report) else Some(Report(p.status, Accuracy(t))))
    {
      var items := if validation.Some? then validation.value else [];
      AcceptedExactly(p, readbackPending, items, records);
      var refusal := Refuse(p, readbackPending, items);
      if refusal.Some? {
        RecordedKeeps(records, items);
        return refusal;
      }
      RecordedKeeps(records, items);
      var recorded := Collect(items);
      var accuracy := Tally(recorded);
      finalItems := Some(recorded);
      AllMatchCounts(recorded);
      if p.status == DraftComplete
         && (accuracy[NotConfigured] > 0 || accuracy[Ambiguous] > 0 || accuracy[Prohibited] > 0) {
        return Some(NotAllMatch);
      }
      report := Some(Report(p.status, accuracy));
      return None;
    }

    /** The recorded rows: later domains overwrite earlier ones, then items nobody recorded are filled in. */
    method Collect(items: seq<RrItem>) returns (t: Table)
      ensures t == Recorded(records, items)
    {
      t := EMPTY;
      for i := 0 to |records|
        invariant t == FromDomains(records[..i])
      {
        var rows := records[i].rows;
        ghost var before := t;
        for k := 0 to |rows|
          invariant t == PutAll(before, rows[..k])
        {
          assert rows[..k + 1][..k] == rows[..k];
          t := Put(t, rows[k]);
        }
        assert rows[..|rows|] == rows && records[..i + 1][..i] == records[..i];
      }
      assert records[..|records|] == records;
      for i := 0 to |items|
        invariant t == FillIn(FromDomains(records), items[..i])
      {
        assert items[..i + 1][..i] == items[..i];
        if items[i].itemId !in t.rows {
          t := Put(t, Missing(items[i]));
        }
      }
      assert items[..|items|] == items;
    }
  }

  lemma AllMatchCounts(t: Table)
    requires Consistent(t)
    ensures var accuracy := Accuracy(t);
      AllMatch(t) <==> accuracy[NotConfigured] == 0 && accuracy[Ambiguous] == 0 && accuracy[Prohibited] == 0
  {
    CountVanishes(t, t.order, NotConfigured);
    CountVanishes(t, t.order, Ambiguous);
    CountVanishes(t, t.order, Prohibited);
  }

  method Tally(t: Table) returns (accuracy: map<Outcome, nat>)
    requires Consistent(t)
    ensures accuracy == Accuracy(t)
  {
    accuracy := map[Match := 0, NotConfigured := 0, Ambiguous := 0, Prohibited := 0];
    for i := 0 to |t.order|
      invariant accuracy.Keys == {Match, NotConfigured, Ambiguous, Prohibited}
      invariant forall o <- accuracy :: accuracy[o] == CountOf(t, t.order[..i], o)
    {
      assert t.order[..i + 1][..i] == t.order[..i];
      var o := t.rows[t.order[i]].status;
      assert o == Match || o == NotConfigured || o == Ambiguous || o == Prohibited;
      accuracy := accuracy[o := accuracy[o] + 1];
    }
    assert t.order[..|t.order|] == t.order;
  }

  function DomainItems(items: seq<RrItem>, domain: string): seq<RrItem> {
    if items == [] then []
    else DomainItems(items[..|items| - 1], domain)
           + if items[|items| - 1].domain == domain then [items[|items| - 1]] else []
  }

  /** Assigning a property of the JSON object: in place if the domain is there, else at the end. */
  function Store(records: seq<DomainRecord>, record: DomainRecord): seq<DomainRecord> {
    if records == [] then [record]
    else if records[0].domain == record.domain then [record] + records[1..]
    else [records[0]] + Store(records[1..], record)
  }

  lemma OneDomainItem(item: RrItem, domain: string)
    ensures DomainItems([item], domain) == if item.domain == domain then [item] else []
  {
    assert [item][..0] == [];
  }

  /** The items of a domain keep their order. */
  lemma {:induction false} DomainItemsInOrder(a: seq<RrItem>, b: seq<RrItem>, domain: string)
    ensures DomainItems(a + b, domain) == DomainItems(a, domain) + DomainItems(b, domain)
  {
    if b == [] {
      assert a + b == a;
    } else {
      var front, last := b[..|b| - 1], b[|b| - 1];
      DomainItemsInOrder(a, front, domain);
      assert (a + b)[..|a + b| - 1] == a + front && (a + b)[|a + b| - 1] == last;
      var mine := if last.domain == domain then [last] else [];
      assert DomainItems(a + b, domain) == DomainItems(a + front, domain) + mine;
      assert DomainItems(b, domain) == DomainItems(front, domain) + mine;
    }
  }

  /** Recording a domain replaces its record where it stands, or adds it at the end. */
  lemma {:induction false} StoredInPlace(records: seq<DomainRecord>, record: DomainRecord)
    requires forall i, j | 0 <= i < j < |records| :: records[i].domain != records[j].domain
    ensures var s := Store(records, record);
      if exists r <- records :: r.domain == record.domain
      then |s| == |records| && forall i | 0 <= i < |records| ::
             s[i] == if records[i].domain == record.domain then record else records[i]
      else s == records + [record]
  {
    if records != [] {
      assert records == [records[0]] + records[1..];
      if records[0].domain != record.domain { StoredInPlace(records[1..], record); }
    }
  }

  lemma {:induction false} StoreKeeps(records: seq<DomainRecord>, record: DomainRecord)
    requires RecordsBacked(records) && forall row <- record.rows :: MatchIsBacked(row)
    requires forall i, j | 0 <= i < j < |records| :: records[i].domain != records[j].domain
    ensures var s := Store(records, record);
      && RecordsBacked(s) && record in s
      && (forall i, j | 0 <= i < j < |s| :: s[i].domain != s[j].domain)
      && (forall other: DomainRecord :: other.domain != record.domain ==> (other in s <==> other in records))
  {
    if records != [] && records[0].domain != record.domain {
      assert forall r <- records[1..] :: r in records;
      StoreKeeps(records[1..], record);
    }
  }

  // ---- verdict soundness ---------------------------------------------------------

  /**
   An accepted DRAFT_COMPLETE: the plan is not empty, every domain of it was assessed
   with evidence, and every item was recorded as a MATCH when its source evidence was
   VERIFIED, with non-empty readback evidence.
   */
  lemma DraftCompleteIsSound(p: Params, readbackPending: bool, items: seq<RrItem>, records: seq<DomainRecord>)
    requires RecordsBacked(records)
    requires Refusal(p, readbackPending, items, records).None? && p.status == DraftComplete
    requires AllMatch(Recorded(records, items))
    ensures items != [] && !readbackPending && forall item <- items :: Assessed(records, item.domain)
    ensures p.guardrails == Guardrails(0, 0, 0, 0) && p.blocker == None && p.unresolvedItems == []
    ensures forall item <- items ::
      var t := FromDomains(records);
      && item.itemId in t.rows
      && t.rows[item.itemId].status == Match && t.rows[item.itemId].rrStatus == Plan.Verified
      && t.rows[item.itemId].cventEvidence.Some? && t.rows[item.itemId].cventEvidence.value != []
  {
    RecordedKeeps(records, items);
    FromDomainsKeeps(records);
    FillInKeeps(FromDomains(records), items);
    forall item <- items ensures item.itemId in FromDomains(records).rows {
      assert Recorded(records, items).rows[item.itemId].status == Match;
    }
  }
}
