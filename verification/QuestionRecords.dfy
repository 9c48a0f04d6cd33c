/**
 Segmentation of the questions sheet (`question_records` and `row_fields` in
 `rr_compiler.py`): definition rows open a question, the rows up to the next
 definition supply its choices and the continuation of its text.
 */
module QuestionRecords {
  import opened Wrappers

  /** Cleaned cell values by row and column. */
  type Sheet = (nat, nat) -> Option<string>

  /** Resolved columns; `metadata` are all but the displayed text, the answers and the notes. */
  datatype Columns = Columns(
    text: Option<nat>, answerCode: Option<nat>, answerText: Option<nat>, notes: Option<nat>,
    internalName: Option<nat>, metadata: seq<(string, Option<nat>)>)

  datatype Range = Range(fromRow: nat, fromColumn: nat, toRow: nat, toColumn: nat)

  datatype Field = Field(value: string, source: Range)

  datatype Choice = Choice(code: Option<string>, text: Option<string>, source: Range)

  datatype Answers = Answers(choices: seq<Choice>, source: Range)

  datatype Question = Question(
    sourceRow: nat, reference: Option<string>, fields: map<string, Field>, displayedText: Field,
    answers: Option<Answers>, notes: Option<string>)

  datatype SheetError = UnresolvedAnswerColumn

  function Cell(ws: Sheet, row: nat, column: Option<nat>): Option<string> {
    if column.Some? then ws(row, column.value) else None
  }

  function Or(a: Option<nat>, b: Option<nat>): Option<nat> { if a.Some? then a else b }

  predicate IsDefinition(ws: Sheet, cols: Columns, row: nat) {
    Cell(ws, row, cols.text).Some? && exists m <- cols.metadata :: Cell(ws, row, m.1).Some?
  }

  // ---- row_fields ------------------------------------------------------------

  function FieldsOf(ws: Sheet, row: nat, named: seq<(string, Option<nat>)>): map<string, Field> {
    if named == [] then map[]
    else
      var before, (name, column) := FieldsOf(ws, row, named[..|named| - 1]), named[|named| - 1];
      if Cell(ws, row, column).Some?
      then before[name := Field(Cell(ws, row, column).value, Range(row, column.value, row, column.value))]
      else before
  }

  method RowFields(ws: Sheet, row: nat, named: seq<(string, Option<nat>)>) returns (fields: map<string, Field>)
    ensures fields == FieldsOf(ws, row, named)
  {
    fields := map[];
    for i := 0 to |named|
      invariant fields == FieldsOf(ws, row, named[..i])
    {
      assert named[..i + 1][..i] == named[..i];
      var (name, column) := named[i];
      if column.Some? {
        var value := ws(row, column.value);
        if value.Some? {
          fields := fields[name := Field(value.value, Range(row, column.value, row, column.value))];
        }
      }
    }
    assert named[..|named|] == named;
  }

  /** Under distinct names a field is present exactly for a resolved column with a value, from that cell. */
  lemma {:induction false} FieldPresent(ws: Sheet, row: nat, named: seq<(string, Option<nat>)>, i: nat)
    requires i < |named| && forall a, b | 0 <= a < b < |named| :: named[a].0 != named[b].0
    ensures named[i].0 in FieldsOf(ws, row, named) <==> Cell(ws, row, named[i].1).Some?
    ensures Cell(ws, row, named[i].1).Some? ==>
      var cell := Range(row, named[i].1.value, row, named[i].1.value);
      FieldsOf(ws, row, named)[named[i].0] == Field(Cell(ws, row, named[i].1).value, cell)
    decreases |named|
  {
    if i == |named| - 1 {
      NamesOnly(ws, row, named[..|named| - 1]);
    } else {
      FieldPresent(ws, row, named[..|named| - 1], i);
    }
  }

  lemma {:induction false} NamesOnly(ws: Sheet, row: nat, named: seq<(string, Option<nat>)>)
    ensures forall name <- FieldsOf(ws, row, named) :: exists c <- named :: c.0 == name
  {
    if named != [] {
      NamesOnly(ws, row, named[..|named| - 1]);
      assert named == named[..|named| - 1] + [named[|named| - 1]];
    }
  }

  // ---- rows of a segment -------------------------------------------------------

  /** Definition rows in [from, upto). */
  function Definitions(ws: Sheet, cols: Columns, from: nat, upto: nat): seq<nat> {
    if from >= upto then []
    else Definitions(ws, cols, from, upto - 1) + if IsDefinition(ws, cols, upto - 1) then [upto - 1] else []
  }

  predicate HasAnswer(ws: Sheet, cols: Columns, row: nat) {
    Cell(ws, row, cols.answerCode).Some? || Cell(ws, row, cols.answerText).Some?
  }

  function ChoiceAt(ws: Sheet, cols: Columns, row: nat): Choice
    requires HasAnswer(ws, cols, row)
  {
    Choice(Cell(ws, row, cols.answerCode), Cell(ws, row, cols.answerText),
           Range(row, Or(cols.answerCode, cols.answerText).value, row, Or(cols.answerText, cols.answerCode).value))
  }

  /** The choices of the non-definition rows in [from, upto). */
  function Choices(ws: Sheet, cols: Columns, from: nat, upto: nat): seq<Choice> {
    if from >= upto then []
    else Choices(ws, cols, from, upto - 1)
           + if !IsDefinition(ws, cols, upto - 1) && HasAnswer(ws, cols, upto - 1) then [ChoiceAt(ws, cols, upto - 1)] else []
  }

  /** The texts of all rows in [from, upto). */
  function Texts(ws: Sheet, cols: Columns, from: nat, upto: nat): seq<string> {
    if from >= upto then []
    else Texts(ws, cols, from, upto - 1)
           + if Cell(ws, upto - 1, cols.text).Some? then [Cell(ws, upto - 1, cols.text).value] else []
  }

  /** `"\n\n".join(parts)`. */
  function Joined(parts: seq<string>): string {
    if parts == [] then "" else if |parts| == 1 then parts[0] else Joined(parts[..|parts| - 1]) + "\n\n" + parts[|parts| - 1]
  }

  predicate BothResolved(cols: Columns) { cols.answerCode.Some? && cols.answerText.Some? }

  function LastRow(from: nat, next: nat): nat
    requires from < next
  {
    next - 1
  }

  /** The question opened by the definition `row` when the next one is at `next`. */
  function QuestionAt(ws: Sheet, cols: Columns, row: nat, next: nat): Question
    requires row < next && IsDefinition(ws, cols, row)
    requires Choices(ws, cols, row + 1, next) != [] ==> BothResolved(cols)
  {
    var choices := Choices(ws, cols, row + 1, next);
    var parts := Texts(ws, cols, row, next);
    Question(
      row, Cell(ws, row, cols.internalName), FieldsOf(ws, row, cols.metadata),
      Field(Joined(parts), Range(row, cols.text.value, if |parts| > 1 then LastRow(row, next) else row, cols.text.value)),
      if choices == [] then None
      else Some(Answers(choices, Range(row + 1, cols.answerCode.value, LastRow(row, next), cols.answerText.value))),
      Cell(ws, row, cols.notes))
  }

  function Next(definitions: seq<nat>, k: nat, end: nat): nat
    requires k < |definitions|
  {
    if k + 1 < |definitions| then definitions[k + 1] else end
  }

  /** The definition rows of [start, end) in ascending order. */
  ghost predicate IsList(ws: Sheet, cols: Columns, start: nat, end: nat, ds: seq<nat>) {
    && (forall row :: row in ds <==> start <= row < end && IsDefinition(ws, cols, row))
    && (forall i, j | 0 <= i < j < |ds| :: ds[i] < ds[j])
  }

  lemma {:induction false} DefinitionsAre(ws: Sheet, cols: Columns, from: nat, upto: nat)
    ensures IsList(ws, cols, from, upto, Definitions(ws, cols, from, upto))
    decreases upto
  {
    if upto > from {
      DefinitionsAre(ws, cols, from, upto - 1);
      var before := Definitions(ws, cols, from, upto - 1);
      assert forall i | 0 <= i < |before| :: before[i] in before;
    }
  }

  /** Nothing between a definition and the next one is a definition. */
  lemma SegmentFacts(ws: Sheet, cols: Columns, start: nat, end: nat, ds: seq<nat>, k: nat)
    requires IsList(ws, cols, start, end, ds) && k < |ds|
    ensures start <= ds[k] < Next(ds, k, end) <= end && IsDefinition(ws, cols, ds[k])
    ensures forall row | ds[k] < row < Next(ds, k, end) :: !IsDefinition(ws, cols, row)
  {
    assert ds[k] in ds && (k + 1 < |ds| ==> ds[k + 1] in ds);
    forall row | ds[k] < row < Next(ds, k, end) ensures !IsDefinition(ws, cols, row) {
      assert forall i | 0 <= i < |ds| :: ds[i] <= ds[k] || Next(ds, k, end) <= ds[i];
      assert row !in ds;
    }
  }

  // ---- the nested loops --------------------------------------------------------

  /** Choices and continuation texts of one segment, in one pass. */
  method ScanSegment(ws: Sheet, cols: Columns, row: nat, next: nat)
    returns (choices: seq<Choice>, continuation: seq<string>)
    requires row < next && forall r | row < r < next :: !IsDefinition(ws, cols, r)
    ensures choices == Choices(ws, cols, row + 1, next)
    ensures continuation == Texts(ws, cols, row + 1, next)
  {
    choices, continuation := [], [];
    for r := row + 1 to next
      invariant choices == Choices(ws, cols, row + 1, r)
      invariant continuation == Texts(ws, cols, row + 1, r)
    {
      var code, text := Cell(ws, r, cols.answerCode), Cell(ws, r, cols.answerText);
      if code.Some? || text.Some? {
        choices := choices + [Choice(code, text, Range(r, Or(cols.answerCode, cols.answerText).value,
                                                       r, Or(cols.answerText, cols.answerCode).value))];
      }
      var extra := Cell(ws, r, cols.text);
      if extra.Some? {
        continuation := continuation + [extra.value];
      }
    }
  }

  lemma {:induction false} TextsFromFront(ws: Sheet, cols: Columns, from: nat, upto: nat)
    requires from < upto && Cell(ws, from, cols.text).Some?
    ensures Texts(ws, cols, from, upto) == [Cell(ws, from, cols.text).value] + Texts(ws, cols, from + 1, upto)
    decreases upto
  {
    if upto > from + 1 { TextsFromFront(ws, cols, from, upto - 1); }
  }

  /** One question; the answers' range needs both answer columns. */
  method ReadQuestion(ws: Sheet, cols: Columns, row: nat, next: nat) returns (q: Option<Question>)
    requires row < next && IsDefinition(ws, cols, row) && forall r | row < r < next :: !IsDefinition(ws, cols, r)
    ensures q.None? <==> Choices(ws, cols, row + 1, next) != [] && !BothResolved(cols)
    ensures q.Some? ==> q.value == QuestionAt(ws, cols, row, next)
  {
    var fields := RowFields(ws, row, cols.metadata);
    var choices, continuation := ScanSegment(ws, cols, row, next);
    var answers := None;
    if choices != [] {
      if !BothResolved(cols) {
        return None;
      }
      answers := Some(Answers(choices, Range(row + 1, cols.answerCode.value, next - 1, cols.answerText.value)));
    }
    var first := ws(row, cols.text.value).value;
    var text := Field(first, Range(row, cols.text.value, row, cols.text.value));
    TextsFromFront(ws, cols, row, next);
    if continuation != [] {
      text := Field(Joined([first] + continuation), Range(row, cols.text.value, next - 1, cols.text.value));
    } else {
      assert [first] + continuation == [first];
    }
    q := Some(Question(row, Cell(ws, row, cols.internalName), fields, text, answers, Cell(ws, row, cols.notes)));
  }

  /** The k-th question is the one its definition opens, up to the next definition. */
  ghost predicate Reads(ws: Sheet, cols: Columns, ds: seq<nat>, k: nat, end: nat, q: Question)
    requires k < |ds|
  {
    && ds[k] < Next(ds, k, end) && IsDefinition(ws, cols, ds[k])
    && (Choices(ws, cols, ds[k] + 1, Next(ds, k, end)) != [] ==> BothResolved(cols))
    && q == QuestionAt(ws, cols, ds[k], Next(ds, k, end))
  }

  ghost predicate Segmented(ws: Sheet, cols: Columns, ds: seq<nat>, end: nat, questions: seq<Question>) {
    |questions| <= |ds| && forall k: nat | k < |questions| :: Reads(ws, cols, ds, k, end, questions[k])
  }

  function SegmentChoices(ws: Sheet, cols: Columns, ds: seq<nat>, k: nat, end: nat): seq<Choice>
    requires k < |ds|
  {
    Choices(ws, cols, ds[k] + 1, Next(ds, k, end))
  }

  /** Some question has choices although an answer column is unresolved. */
  ghost predicate Unreadable(ws: Sheet, cols: Columns, ds: seq<nat>, end: nat) {
    !BothResolved(cols) && exists k: nat :: k < |ds| && SegmentChoices(ws, cols, ds, k, end) != []
  }

  /** The first loop: rows `start` to `end - 1` are those below the header. */
  method FindDefinitions(ws: Sheet, cols: Columns, start: nat, end: nat) returns (ds: seq<nat>)
    ensures ds == Definitions(ws, cols, start, end) && IsList(ws, cols, start, end, ds)
  {
    ds := [];
    if start < end {
      for row := start to end
        invariant ds == Definitions(ws, cols, start, row)
      {
        if Cell(ws, row, cols.text).Some? && exists m <- cols.metadata :: Cell(ws, row, m.1).Some? {
          ds := ds + [row];
        }
      }
    }
    DefinitionsAre(ws, cols, start, end);
  }

  /** The second loop: one question per definition. */
  method ReadAll(ws: Sheet, cols: Columns, ghost start: nat, end: nat, ds: seq<nat>)
    returns (r: Result<seq<Question>, SheetError>)
    requires IsList(ws, cols, start, end, ds)
    ensures r.Err? <==> Unreadable(ws, cols, ds, end)
    ensures r.Ok? ==> |r.value| == |ds| && Segmented(ws, cols, ds, end, r.value)
  {
    var questions := [];
    for k := 0 to |ds|
      invariant |questions| == k && Segmented(ws, cols, ds, end, questions)
      invariant !BothResolved(cols) ==> forall i: nat | i < k :: SegmentChoices(ws, cols, ds, i, end) == []
    {
      SegmentFacts(ws, cols, start, end, ds, k);
      var q := ReadQuestion(ws, cols, ds[k], Next(ds, k, end));
      if q.None? {
        assert SegmentChoices(ws, cols, ds, k, end) != [];
        return Err(UnresolvedAnswerColumn);
      }
      assert Reads(ws, cols, ds, k, end, q.value);
      questions := questions + [q.value];
    }
    r := Ok(questions);
  }

  method QuestionRecords(ws: Sheet, cols: Columns, start: nat, end: nat)
    returns (r: Result<seq<Question>, SheetError>)
    ensures r.Err? <==> Unreadable(ws, cols, Definitions(ws, cols, start, end), end)
    ensures r.Ok? ==> |r.value| == |Definitions(ws, cols, start, end)|
    ensures r.Ok? ==> Segmented(ws, cols, Definitions(ws, cols, start, end), end, r.value)
  {
    var ds := FindDefinitions(ws, cols, start, end);
    r := ReadAll(ws, cols, start, end, ds);
  }

  // ---- what a question shows -----------------------------------------------------

  /** A row between two definitions with an answer in one of its columns. */
  ghost predicate AnswerRow(ws: Sheet, cols: Columns, row: nat) {
    !IsDefinition(ws, cols, row) && (Cell(ws, row, cols.answerCode).Some? || Cell(ws, row, cols.answerText).Some?)
  }

  /** The choice shows the row: code and text from their columns, and as its source the cells from the one to the other. */
  ghost predicate Shows(ws: Sheet, cols: Columns, choice: Choice, row: nat) {
    && choice.code == Cell(ws, row, cols.answerCode) && choice.text == Cell(ws, row, cols.answerText)
    && choice.source.fromRow == row && choice.source.toRow == row
    && match (cols.answerCode, cols.answerText)
       case (Some(code), Some(text)) => choice.source.fromColumn == code && choice.source.toColumn == text
       case (Some(code), None) => choice.source.fromColumn == code && choice.source.toColumn == code
       case (None, Some(text)) => choice.source.fromColumn == text && choice.source.toColumn == text
       case (None, None) => false
  }

  /** The choices are the answer rows, each once and in order. */
  lemma {:induction false} ChoicesExactly(ws: Sheet, cols: Columns, from: nat, upto: nat) returns (rows: seq<nat>)
    ensures |rows| == |Choices(ws, cols, from, upto)| && forall i, j | 0 <= i < j < |rows| :: rows[i] < rows[j]
    ensures forall row :: row in rows <==> from <= row < upto && AnswerRow(ws, cols, row)
    ensures forall i | 0 <= i < |rows| :: Shows(ws, cols, Choices(ws, cols, from, upto)[i], rows[i])
    decreases upto
  {
    rows := [];
    if from < upto {
      rows := ChoicesExactly(ws, cols, from, upto - 1);
      var before := Choices(ws, cols, from, upto - 1);
      assert forall i | 0 <= i < |rows| :: rows[i] in rows;
      if AnswerRow(ws, cols, upto - 1) {
        assert Shows(ws, cols, ChoiceAt(ws, cols, upto - 1), upto - 1);
        assert Choices(ws, cols, from, upto) == before + [ChoiceAt(ws, cols, upto - 1)];
        rows := rows + [upto - 1];
      } else {
        assert Choices(ws, cols, from, upto) == before;
      }
    }
  }

  lemma {:induction false} SomeText(ws: Sheet, cols: Columns, from: nat, upto: nat)
    ensures Texts(ws, cols, from, upto) != [] <==> exists row | from <= row < upto :: Cell(ws, row, cols.text).Some?
    decreases upto
  {
    if from < upto { SomeText(ws, cols, from, upto - 1); }
  }

  /** The text of a question goes on in a later row of its segment. */
  ghost predicate Continues(ws: Sheet, cols: Columns, row: nat, next: nat) {
    exists r | row + 1 <= r < next :: Cell(ws, r, cols.text).Some?
  }

  /** What a question shows of its definition row and of the rows up to the next definition. */
  lemma QuestionMeaning(ws: Sheet, cols: Columns, row: nat, next: nat)
    requires row < next && IsDefinition(ws, cols, row)
    requires Choices(ws, cols, row + 1, next) != [] ==> BothResolved(cols)
    ensures var q, column := QuestionAt(ws, cols, row, next), cols.text.value;
      && q.sourceRow == row && q.reference == Cell(ws, row, cols.internalName) && q.notes == Cell(ws, row, cols.notes)
      && (q.answers.Some? <==> exists r | row + 1 <= r < next :: AnswerRow(ws, cols, r))
      && (q.answers.Some? ==>
            q.answers.value.source == Range(row + 1, cols.answerCode.value, next - 1, cols.answerText.value))
      && q.displayedText.source == Range(row, column, if Continues(ws, cols, row, next) then next - 1 else row, column)
      && (!Continues(ws, cols, row, next) ==> Some(q.displayedText.value) == Cell(ws, row, cols.text))
  {
    var rows := ChoicesExactly(ws, cols, row + 1, next);
    var choices := Choices(ws, cols, row + 1, next);
    assert choices != [] ==> rows[0] in rows;
    TextsFromFront(ws, cols, row, next);
    SomeText(ws, cols, row + 1, next);
  }

  // ---- nothing is lost -----------------------------------------------------------

  /** The row belongs to the k-th question: below its definition and above the next. */
  predicate Belongs(row: nat, ds: seq<nat>, k: nat, end: nat)
    requires k < |ds|
  {
    ds[k] < row < Next(ds, k, end)
  }

  /** Every non-definition row after the first definition belongs to exactly its nearest preceding definition. */
  lemma NearestDefinition(ws: Sheet, cols: Columns, start: nat, end: nat, ds: seq<nat>, row: nat) returns (k: nat)
    requires IsList(ws, cols, start, end, ds)
    requires ds != [] && ds[0] < row < end && !IsDefinition(ws, cols, row)
    ensures k < |ds| && Belongs(row, ds, k, end)
    ensures forall j: nat | j < |ds| && Belongs(row, ds, j, end) :: j == k
    ensures forall d <- ds :: d < row ==> d <= ds[k]
  {
    assert row !in ds;
    k := 0;
    while k + 1 < |ds| && ds[k + 1] < row
      invariant k < |ds| && ds[k] < row
    {
      k := k + 1;
    }
    assert k + 1 < |ds| ==> ds[k + 1] in ds;
    assert forall j: nat | j < k :: Next(ds, j, end) <= ds[k];
    assert forall j: nat | k < j < |ds| :: ds[k + 1] <= ds[j];
  }

  lemma {:induction false} ChoicesSplit(ws: Sheet, cols: Columns, from: nat, mid: nat, upto: nat)
    requires from <= mid <= upto
    ensures Choices(ws, cols, from, upto) == Choices(ws, cols, from, mid) + Choices(ws, cols, mid, upto)
    decreases upto
  {
    if upto > mid { ChoicesSplit(ws, cols, from, mid, upto - 1); }
  }

  lemma {:induction false} TextsSplit(ws: Sheet, cols: Columns, from: nat, mid: nat, upto: nat)
    requires from <= mid <= upto
    ensures Texts(ws, cols, from, upto) == Texts(ws, cols, from, mid) + Texts(ws, cols, mid, upto)
    decreases upto
  {
    if upto > mid { TextsSplit(ws, cols, from, mid, upto - 1); }
  }

  function ChoicesOf(q: Question): seq<Choice> { if q.answers.Some? then q.answers.value.choices else [] }

  function AllChoices(questions: seq<Question>): seq<Choice> {
    if questions == [] then []
    else AllChoices(questions[..|questions| - 1]) + ChoicesOf(questions[|questions| - 1])
  }

  function TextsOf(questions: seq<Question>): seq<string> {
    if questions == [] then []
    else TextsOf(questions[..|questions| - 1]) + [questions[|questions| - 1].displayedText.value]
  }

  lemma JoinAppend(parts: seq<string>, part: string)
    requires parts != []
    ensures Joined(parts + [part]) == Joined(parts) + "\n\n" + part
  {
    assert (parts + [part])[..|parts|] == parts;
  }

  lemma {:induction false} JoinedConcat(a: seq<string>, b: seq<string>)
    requires a != [] && b != []
    ensures Joined(a + b) == Joined(a) + "\n\n" + Joined(b)
  {
    if |b| == 1 {
      assert b == [b[0]];
      JoinAppend(a, b[0]);
    } else {
      var front, last := b[..|b| - 1], b[|b| - 1];
      JoinedConcat(a, front);
      assert b == front + [last] && a + b == (a + front) + [last];
      JoinAppend(a + front, last);
      JoinAppend(front, last);
    }
  }

  /** A definition row itself offers no choice. */
  lemma SegmentHoldsChoices(ws: Sheet, cols: Columns, row: nat, next: nat)
    requires row < next && IsDefinition(ws, cols, row)
    ensures Choices(ws, cols, row, next) == Choices(ws, cols, row + 1, next)
  {
    ChoicesSplit(ws, cols, row, row + 1, next);
    assert Choices(ws, cols, row, row) == [];
    assert Choices(ws, cols, row, row + 1) == [];
  }

  lemma ReadChoices(ws: Sheet, cols: Columns, start: nat, end: nat, ds: seq<nat>, k: nat, q: Question)
    requires IsList(ws, cols, start, end, ds) && k < |ds| && Reads(ws, cols, ds, k, end, q)
    ensures ChoicesOf(q) == Choices(ws, cols, ds[k], Next(ds, k, end))
  {
    SegmentHoldsChoices(ws, cols, ds[k], Next(ds, k, end));
  }

  lemma SegmentedFront(ws: Sheet, cols: Columns, ds: seq<nat>, end: nat, questions: seq<Question>, k: nat)
    requires Segmented(ws, cols, ds, end, questions) && k <= |questions|
    ensures Segmented(ws, cols, ds, end, questions[..k])
  {
    assert forall i: nat | i < k :: Reads(ws, cols, ds, i, end, questions[i]);
  }

  /** The first k segments hold the choices of the rows before the next definition. */
  lemma {:induction false} PrefixKeepsChoices(ws: Sheet, cols: Columns, start: nat, end: nat, ds: seq<nat>,
                                              questions: seq<Question>)
    requires IsList(ws, cols, start, end, ds) && Segmented(ws, cols, ds, end, questions) && questions != []
    ensures ds[0] < Next(ds, |questions| - 1, end)
    ensures AllChoices(questions) == Choices(ws, cols, ds[0], Next(ds, |questions| - 1, end))
    decreases |questions|
  {
    var k := |questions| - 1;
    var front, next := questions[..k], Next(ds, k, end);
    assert Reads(ws, cols, ds, k, end, questions[k]);
    SegmentFacts(ws, cols, start, end, ds, k);
    ReadChoices(ws, cols, start, end, ds, k, questions[k]);
    assert AllChoices(questions) == AllChoices(front) + Choices(ws, cols, ds[k], next);
    if k == 0 {
      assert AllChoices(front) == [];
    } else {
      SegmentedFront(ws, cols, ds, end, questions, k);
      PrefixKeepsChoices(ws, cols, start, end, ds, front);
      assert ds[0] < ds[k] == Next(ds, k - 1, end);
      ChoicesSplit(ws, cols, ds[0], ds[k], next);
    }
  }

  lemma {:induction false} PrefixKeepsTexts(ws: Sheet, cols: Columns, start: nat, end: nat, ds: seq<nat>,
                                            questions: seq<Question>)
    requires IsList(ws, cols, start, end, ds) && Segmented(ws, cols, ds, end, questions) && questions != []
    ensures ds[0] < Next(ds, |questions| - 1, end)
    ensures Joined(TextsOf(questions)) == Joined(Texts(ws, cols, ds[0], Next(ds, |questions| - 1, end)))
    decreases |questions|
  {
    var k := |questions| - 1;
    var row, next := ds[k], Next(ds, k, end);
    assert Reads(ws, cols, ds, k, end, questions[k]);
    SegmentFacts(ws, cols, start, end, ds, k);
    TextsFromFront(ws, cols, row, next);
    if k == 0 {
      assert TextsOf(questions[..0]) == [];
      assert TextsOf(questions) == [questions[0].displayedText.value];
    } else {
      var front := questions[..k];
      SegmentedFront(ws, cols, ds, end, questions, k);
      PrefixKeepsTexts(ws, cols, start, end, ds, front);
      SegmentFacts(ws, cols, start, end, ds, 0);
      TextsFromFront(ws, cols, ds[0], row);
      TextsSplit(ws, cols, ds[0], row, next);
      JoinedConcat(Texts(ws, cols, ds[0], row), Texts(ws, cols, row, next));
      JoinAppend(TextsOf(front), questions[k].displayedText.value);
    }
  }

  /**
   From the first definition on nothing is lost and nothing repeated: the choice
   lists in order are the choices of all non-definition rows, and the displayed
   texts in order are the texts of all rows.
   */
  lemma SegmentationLosesNothing(ws: Sheet, cols: Columns, start: nat, end: nat, ds: seq<nat>,
                                 questions: seq<Question>)
    requires IsList(ws, cols, start, end, ds)
    requires |questions| == |ds| && Segmented(ws, cols, ds, end, questions) && ds != []
    ensures AllChoices(questions) == Choices(ws, cols, ds[0], end)
    ensures Joined(TextsOf(questions)) == Joined(Texts(ws, cols, ds[0], end))
  {
    PrefixKeepsChoices(ws, cols, start, end, ds, questions);
    PrefixKeepsTexts(ws, cols, start, end, ds, questions);
  }

  /** The sheet is unreadable exactly when an answer column is missing and some choice would be recorded. */
  lemma UnreadableExactly(ws: Sheet, cols: Columns, start: nat, end: nat, ds: seq<nat>)
    requires IsList(ws, cols, start, end, ds) && ds != [] && !BothResolved(cols)
    ensures Unreadable(ws, cols, ds, end) <==> Choices(ws, cols, ds[0], end) != []
  {
    if Unreadable(ws, cols, ds, end) {
      var k: nat :| k < |ds| && SegmentChoices(ws, cols, ds, k, end) != [];
      SegmentFacts(ws, cols, start, end, ds, k);
      ChoicesSplit(ws, cols, ds[0], ds[k] + 1, end);
      ChoicesSplit(ws, cols, ds[k] + 1, Next(ds, k, end), end);
    } else {
      NoSegmentNoChoice(ws, cols, start, end, ds, |ds|);
    }
  }

  lemma {:induction false} NoSegmentNoChoice(ws: Sheet, cols: Columns, start: nat, end: nat, ds: seq<nat>, k: nat)
    requires IsList(ws, cols, start, end, ds) && 0 < k <= |ds|
    requires forall i: nat | i < k :: SegmentChoices(ws, cols, ds, i, end) == []
    ensures Choices(ws, cols, ds[0], Next(ds, k - 1, end)) == []
    decreases k
  {
    SegmentFacts(ws, cols, start, end, ds, k - 1);
    SegmentHoldsChoices(ws, cols, ds[k - 1], Next(ds, k - 1, end));
    assert SegmentChoices(ws, cols, ds, k - 1, end) == [];
    if k > 1 {
      NoSegmentNoChoice(ws, cols, start, end, ds, k - 1);
      ChoicesSplit(ws, cols, ds[0], ds[k - 1], Next(ds, k - 1, end));
    }
  }
}
