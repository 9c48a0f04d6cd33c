/**
 The audit log as text: the router writes each record as one JSON text and a line
 feed, without escaping non-ASCII characters; the readers cut the file with
 Python's `splitlines`, which also cuts at three characters that JSON leaves as
 they are.
 */
module AuditText {
  import opened Wrappers
  import opened MutationOutcome
  import Router = WriteRouter
  import Audit = AuditConservation

  // ---- writing: `json.dumps(record, ensure_ascii=False)` -------------------------

  const NEXT_LINE := '\U{85}'
  const LINE_SEPARATOR := '\U{2028}'
  const PARAGRAPH_SEPARATOR := '\U{2029}'

  function Hex(d: nat): char
    requires d < 16
  {
    "0123456789abcdef"[d]
  }

  function Escaped(c: char): (e: string)
    ensures e != ""
  {
    if c == '"' then "\\\""
    else if c == '\\' then "\\\\"
    else if c == '\n' then "\\n"
    else if c == '\r' then "\\r"
    else if c == '\t' then "\\t"
    else if c == '\U{8}' then "\\b"
    else if c == '\U{C}' then "\\f"
    else if c < ' ' then "\\u00" + [Hex(c as int / 16), Hex(c as int % 16)]
    else [c]
  }

  function EscapeAll(s: string): string { if s == "" then "" else Escaped(s[0]) + EscapeAll(s[1..]) }

  /** A member of the object: a text, or null. */
  datatype Value = Text(text: string) | Null

  function Show(v: Value): string { if v.Null? then "null" else "\"" + (EscapeAll(v.text) + "\"") }

  const LABELS := ["{\"at\": ", ", \"operation\": ", ", \"rrSource\": ", ", \"eventKey\": ", ", \"url\": ",
                   ", \"result\": ", ", \"error\": "]

  /** The members from position i on, and the closing brace. */
  function Members(labels: seq<string>, vs: seq<Value>, i: nat): string
    requires i <= |vs| <= |labels|
    decreases |vs| - i
  {
    if i == |vs| then "}" else labels[i] + (Show(vs[i]) + Members(labels, vs, i + 1))
  }

  /** The fields of `audit_scope_write`; the error is there only for a failure. */
  datatype Written = Written(at: string, operation: string, rrSource: string, eventKey: string, url: Option<string>,
                             result: string, error: Option<string>)

  function Values(w: Written): (vs: seq<Value>)
    ensures 6 <= |vs| <= 7 == |LABELS|
  {
    [Text(w.at), Text(w.operation), Text(w.rrSource), Text(w.eventKey),
     if w.url.Some? then Text(w.url.value) else Null, Text(w.result)]
    + if w.error.Some? then [Text(w.error.value)] else []
  }

  function Render(w: Written): string { Members(LABELS, Values(w), 0) }

  function File(ws: seq<Written>): string { if ws == [] then "" else Render(ws[0]) + ("\n" + File(ws[1..])) }

  function VerdictOf(result: string): Verdict {
    if result == "attempted" then Attempted
    else if result == "succeeded" then Succeeded
    else if result == "rejected_prewrite" then RejectedPrewrite
    else if result == "failed" then Failed
    else if result == "uncertain" then Uncertain
    else if result == "ui_action_attempted" then UiActionAttempted
    else if result == "ui_action_completed" then UiActionCompleted
    else OtherVerdict
  }

  /** What the reader makes of the record. */
  function LineOf(w: Written): Line { Entry(VerdictOf(w.result), At(w.at), Key(w.operation, w.rrSource), false) }

  // ---- a record's text is no proper beginning of another's ---------------------------

  /** The escape of one character is recognised by its beginning. */
  lemma EscapeCut(a: char, b: char, x: string, y: string)
    requires Escaped(a) + x == Escaped(b) + y
    ensures a == b && x == y
  {
    var t := Escaped(a) + x;
    assert t[0] == Escaped(a)[0] && t[0] == Escaped(b)[0];
    if |Escaped(a)| > 1 && |Escaped(b)| > 1 {
      assert t[1] == Escaped(a)[1] && t[1] == Escaped(b)[1];
      if |Escaped(a)| == 6 && |Escaped(b)| == 6 {
        assert t[4] == Escaped(a)[4] && t[4] == Escaped(b)[4];
        assert t[5] == Escaped(a)[5] && t[5] == Escaped(b)[5];
        HexInjective(a as int / 16, b as int / 16);
        HexInjective(a as int % 16, b as int % 16);
      }
    }
    assert |Escaped(a)| == |Escaped(b)|;
    assert x == t[|Escaped(a)|..] && y == t[|Escaped(b)|..];
  }

  lemma HexInjective(m: nat, n: nat)
    requires m < 16 && n < 16
    ensures Hex(m) == Hex(n) <==> m == n
  {
    var digits := "0123456789abcdef";
    assert forall i, j | 0 <= i < j < 16 :: digits[i] < digits[j];
  }

  lemma EscapeOpens(text: string)
    requires text != ""
    ensures EscapeAll(text) != "" && EscapeAll(text)[0] != '"'
  {
    assert EscapeAll(text)[0] == Escaped(text[0])[0];
  }

  lemma EndsHere(b: string, x: string, y: string)
    requires "\"" + x == EscapeAll(b) + ("\"" + y)
    ensures b == "" && x == y
  {
    var t := "\"" + x;
    assert t[0] == '"' && t[1..] == x;
    if b == "" {
      assert EscapeAll(b) + ("\"" + y) == "\"" + y;
      assert ("\"" + y)[1..] == y;
    } else {
      EscapeOpens(b);
    }
  }

  lemma EscapeAllFirst(a: string, x: string)
    requires a != ""
    ensures EscapeAll(a) + x == Escaped(a[0]) + (EscapeAll(a[1..]) + x)
  {}

  /** A quoted text ends where its closing quote says. */
  lemma {:induction false} TextCut(a: string, b: string, x: string, y: string)
    requires EscapeAll(a) + ("\"" + x) == EscapeAll(b) + ("\"" + y)
    ensures a == b && x == y
  {
    if a == "" {
      assert EscapeAll(a) + ("\"" + x) == "\"" + x;
      EndsHere(b, x, y);
    } else if b == "" {
      assert EscapeAll(b) + ("\"" + y) == "\"" + y;
      EndsHere(a, y, x);
    } else {
      EscapeAllFirst(a, "\"" + x);
      EscapeAllFirst(b, "\"" + y);
      EscapeCut(a[0], b[0], EscapeAll(a[1..]) + ("\"" + x), EscapeAll(b[1..]) + ("\"" + y));
      TextCut(a[1..], b[1..], x, y);
      assert a == [a[0]] + a[1..] && b == [b[0]] + b[1..];
    }
  }

  lemma ShownText(text: string, x: string)
    ensures (Show(Text(text)) + x)[0] == '"' && (Show(Text(text)) + x)[1..] == EscapeAll(text) + ("\"" + x)
  {}

  lemma ShownNull(x: string)
    ensures (Show(Null) + x)[0] == 'n' && (Show(Null) + x)[4..] == x
  {}

  lemma ValueCut(v: Value, u: Value, x: string, y: string)
    requires Show(v) + x == Show(u) + y
    ensures v == u && x == y
  {
    if v.Text? { ShownText(v.text, x); } else { ShownNull(x); }
    if u.Text? { ShownText(u.text, y); } else { ShownNull(y); }
    if v.Text? && u.Text? { TextCut(v.text, u.text, x, y); }
  }

  /** No label begins with a closing brace. */
  predicate Opening(labels: seq<string>) { forall l <- labels :: l != "" && l[0] != '}' }

  /** The closing brace comes first exactly when no member is left. */
  lemma MembersOpen(labels: seq<string>, vs: seq<Value>, i: nat)
    requires i <= |vs| <= |labels| && Opening(labels)
    ensures var m := Members(labels, vs, i); m != "" && (m[0] == '}' <==> i == |vs|)
  {
    assert i < |vs| ==> labels[i] in labels && Members(labels, vs, i)[0] == labels[i][0];
  }

  lemma Peel(tag: string, shown: string, members: string, rest: string)
    ensures |tag| <= |(tag + (shown + members)) + rest|
    ensures ((tag + (shown + members)) + rest)[|tag|..] == shown + (members + rest)
  {
    assert (tag + (shown + members)) + rest == tag + ((shown + members) + rest);
    assert (shown + members) + rest == shown + (members + rest);
  }

  lemma MembersPeel(labels: seq<string>, vs: seq<Value>, i: nat, rest: string)
    requires i < |vs| <= |labels|
    ensures |labels[i]| <= |Members(labels, vs, i) + rest|
    ensures (Members(labels, vs, i) + rest)[|labels[i]|..] == Show(vs[i]) + (Members(labels, vs, i + 1) + rest)
  {
    Peel(labels[i], Show(vs[i]), Members(labels, vs, i + 1), rest);
  }

  lemma {:induction false} MembersCut(labels: seq<string>, vs: seq<Value>, us: seq<Value>, i: nat, rest: string)
    requires i <= |vs| <= |labels| && i <= |us| <= |labels| && Opening(labels)
    requires Members(labels, vs, i) + rest == Members(labels, us, i)
    ensures vs[i..] == us[i..] && rest == ""
    decreases |vs| - i
  {
    MembersOpen(labels, vs, i);
    MembersOpen(labels, us, i);
    assert (Members(labels, vs, i) + rest)[0] == Members(labels, vs, i)[0];
    if i == |vs| {
      assert |Members(labels, vs, i) + rest| == 1 + |rest|;
    } else {
      MembersPeel(labels, vs, i, rest);
      MembersPeel(labels, us, i, "");
      assert Members(labels, us, i) + "" == Members(labels, us, i);
      assert Members(labels, us, i + 1) + "" == Members(labels, us, i + 1);
      ValueCut(vs[i], us[i], Members(labels, vs, i + 1) + rest, Members(labels, us, i + 1));
      MembersCut(labels, vs, us, i + 1, rest);
      assert vs[i..] == [vs[i]] + vs[i + 1..] && us[i..] == [us[i]] + us[i + 1..];
    }
  }

  lemma LabelsOpen()
    ensures Opening(LABELS)
  {
    assert LABELS[0][0] == '{' && LABELS[1][0] == ',' && LABELS[2][0] == ',' && LABELS[3][0] == ',';
    assert LABELS[4][0] == ',' && LABELS[5][0] == ',' && LABELS[6][0] == ',';
  }

  lemma Remainder(begun: string, text: string) returns (rest: string)
    requires begun <= text
    ensures begun + rest == text
  {
    rest := text[|begun|..];
  }

  lemma FromTheFirst(vs: seq<Value>)
    ensures vs[0..] == vs
  {}

  lemma MembersPrefixFree(labels: seq<string>, vs: seq<Value>, us: seq<Value>)
    requires |vs| <= |labels| && |us| <= |labels| && Opening(labels)
    requires Members(labels, vs, 0) <= Members(labels, us, 0)
    ensures vs == us
  {
    var rest := Remainder(Members(labels, vs, 0), Members(labels, us, 0));
    MembersCut(labels, vs, us, 0, rest);
    FromTheFirst(vs);
    FromTheFirst(us);
  }

  /** Equal texts are equal records, and none is a proper beginning of another. */
  lemma RenderPrefixFree(v: Written, w: Written)
    requires Render(v) <= Render(w)
    ensures v == w
  {
    LabelsOpen();
    MembersPrefixFree(LABELS, Values(v), Values(w));
    ValuesInjective(v, w);
  }

  lemma ValuesInjective(v: Written, w: Written)
    requires Values(v) == Values(w)
    ensures v == w
  {
    var a, b := Values(v), Values(w);
    assert a[0] == b[0] && a[1] == b[1] && a[2] == b[2] && a[3] == b[3] && a[4] == b[4] && a[5] == b[5];
    assert v.error.Some? <==> |a| == 7;
    if |a| == 7 { assert a[6] == b[6]; }
  }

  // ---- reading: `text.splitlines()` and `json.loads` --------------------------------

  /** The characters that end a line for `str.splitlines`. */
  predicate Breaks(c: char) {
    ('\n' <= c <= '\r') || ('\U{1C}' <= c <= '\U{1E}')
      || c == NEXT_LINE || c == LINE_SEPARATOR || c == PARAGRAPH_SEPARATOR
  }

  /** `splitlines`, with the line read so far. */
  function SplitFrom(current: string, text: string): seq<string>
    decreases |text|
  {
    if text == "" then (if current == "" then [] else [current])
    else if text[0] == '\r' && |text| > 1 && text[1] == '\n' then [current] + SplitFrom("", text[2..])
    else if Breaks(text[0]) then [current] + SplitFrom("", text[1..])
    else SplitFrom(current + [text[0]], text[1..])
  }

  function Parsed(parse: string -> Line, lines: seq<string>): seq<Line> {
    if lines == [] then [] else [parse(lines[0])] + Parsed(parse, lines[1..])
  }

  function ReadLines(parse: string -> Line, text: string): seq<Line> { Parsed(parse, SplitFrom("", text)) }

  /** What is used of `json.loads`: it reads a record back, and the beginning of an object alone is not JSON. */
  ghost predicate ReadsJson(parse: string -> Line) {
    && (forall w: Written :: parse(Render(w)) == LineOf(w))
    && (forall w: Written, k: nat | k < |Render(w)| :: parse(Render(w)[..k]) == Garbage)
  }

  ghost function Recognise(text: string): Line {
    if exists w: Written :: Render(w) == text then (var w: Written :| Render(w) == text; LineOf(w)) else Garbage
  }

  /** A reader with these two properties exists, because texts of records are prefix-free. */
  lemma SomeReaderReadsJson()
    ensures forall w: Written :: Recognise(Render(w)) == LineOf(w)
    ensures forall w: Written, k: nat | k < |Render(w)| :: Recognise(Render(w)[..k]) == Garbage
  {
    forall w: Written ensures Recognise(Render(w)) == LineOf(w) {
      var v: Written :| Render(v) == Render(w) && Recognise(Render(w)) == LineOf(v);
      RenderPrefixFree(v, w);
    }
    forall w: Written, k: nat | k < |Render(w)| ensures Recognise(Render(w)[..k]) == Garbage {
      forall v: Written ensures Render(v) != Render(w)[..k] {
        if Render(v) == Render(w)[..k] { RenderPrefixFree(v, w); }
      }
    }
  }

  // ---- which records are cut ----------------------------------------------------------

  predicate Separator(c: char) { c == NEXT_LINE || c == LINE_SEPARATOR || c == PARAGRAPH_SEPARATOR }

  predicate HasSeparator(s: string) { exists c <- s :: Separator(c) }

  predicate HasBreak(s: string) { exists c <- s :: Breaks(c) }

  /** Some text field holds one of the three characters. */
  predicate Broken(w: Written) {
    HasSeparator(w.at) || HasSeparator(w.operation) || HasSeparator(w.rrSource) || HasSeparator(w.eventKey)
      || (w.url.Some? && HasSeparator(w.url.value)) || HasSeparator(w.result)
      || (w.error.Some? && HasSeparator(w.error.value))
  }

  lemma HasBreakAppend(a: string, b: string)
    ensures HasBreak(a + b) <==> HasBreak(a) || HasBreak(b)
  {
    assert forall c <- a :: c in a + b;
    assert forall c <- b :: c in a + b;
  }

  lemma EscapedBreaks(c: char)
    ensures HasBreak(Escaped(c)) <==> Separator(c)
  {
    if |Escaped(c)| == 1 {
      assert Escaped(c) == [c] && c in [c];
    } else if |Escaped(c)| == 6 {
      assert Escaped(c)[0] == '\\' && Escaped(c)[1] == 'u' && Escaped(c)[2] == '0' && Escaped(c)[3] == '0';
      HexIsPlain(c as int / 16);
      HexIsPlain(c as int % 16);
    }
  }

  lemma HexIsPlain(d: nat)
    requires d < 16
    ensures '0' <= Hex(d) <= 'f'
  {}

  /** Escaping lets exactly the three separators through. */
  lemma {:induction false} EscapingKeepsSeparators(s: string)
    ensures HasBreak(EscapeAll(s)) <==> HasSeparator(s)
  {
    if s != "" {
      EscapedBreaks(s[0]);
      EscapingKeepsSeparators(s[1..]);
      HasBreakAppend(Escaped(s[0]), EscapeAll(s[1..]));
      assert s == [s[0]] + s[1..];
    }
  }

  predicate Cuts(v: Value) { v.Text? && HasSeparator(v.text) }

  lemma ShownBreaks(v: Value)
    ensures HasBreak(Show(v)) <==> Cuts(v)
  {
    if v.Text? {
      EscapingKeepsSeparators(v.text);
      HasBreakAppend(EscapeAll(v.text), "\"");
      HasBreakAppend("\"", EscapeAll(v.text) + "\"");
    }
  }

  lemma LabelsPlain(i: nat)
    requires i < |LABELS|
    ensures !HasBreak(LABELS[i])
  {}

  lemma {:induction false} MembersBreak(labels: seq<string>, vs: seq<Value>, i: nat)
    requires i <= |vs| <= |labels| && forall l <- labels :: !HasBreak(l)
    ensures HasBreak(Members(labels, vs, i)) <==> exists v <- vs[i..] :: Cuts(v)
    decreases |vs| - i
  {
    if i < |vs| {
      assert labels[i] in labels;
      ShownBreaks(vs[i]);
      MembersBreak(labels, vs, i + 1);
      HasBreakAppend(Show(vs[i]), Members(labels, vs, i + 1));
      HasBreakAppend(labels[i], Show(vs[i]) + Members(labels, vs, i + 1));
      CutsFromHere(vs, i);
    }
  }

  lemma CutsFromHere(vs: seq<Value>, i: nat)
    requires i < |vs|
    ensures (exists v <- vs[i..] :: Cuts(v)) <==> Cuts(vs[i]) || exists v <- vs[i + 1..] :: Cuts(v)
  {
    assert vs[i..] == [vs[i]] + vs[i + 1..];
  }

  /** The text of a record is cut exactly when one of its text fields holds a separator. */
  lemma RecordIsCut(w: Written)
    ensures HasBreak(Render(w)) <==> Broken(w)
  {
    forall l <- LABELS ensures !HasBreak(l) {
      var i :| 0 <= i < |LABELS| && LABELS[i] == l;
      LabelsPlain(i);
    }
    MembersBreak(LABELS, Values(w), 0);
    assert Values(w)[0..] == Values(w);
    CutValues(w);
  }

  lemma CutValues(w: Written)
    ensures (exists v <- Values(w) :: Cuts(v)) <==> Broken(w)
  {
    var vs := Values(w);
    assert vs[0] == Text(w.at) && vs[1] == Text(w.operation) && vs[2] == Text(w.rrSource) && vs[3] == Text(w.eventKey);
    assert vs[4] == (if w.url.Some? then Text(w.url.value) else Null) && vs[5] == Text(w.result);
    assert w.error.Some? ==> vs[6] == Text(w.error.value);
    if Broken(w) {
      assert exists i | 0 <= i < |vs| :: Cuts(vs[i]);
    }
  }

  // ---- the log as the reader sees it ---------------------------------------------------

  /** An unbroken text followed by a line feed is one line. */
  lemma {:induction false} WholeLine(current: string, text: string, rest: string)
    requires !HasBreak(text)
    ensures SplitFrom(current, text + ("\n" + rest)) == [current + text] + SplitFrom("", rest)
    decreases |text|
  {
    var all := text + ("\n" + rest);
    if text == "" {
      assert all == "\n" + rest && all[1..] == rest && current + text == current;
    } else {
      assert text[0] in text && all[0] == text[0];
      assert all[1..] == text[1..] + ("\n" + rest);
      assert forall c <- text[1..] :: c in text;
      WholeLine(current + [text[0]], text[1..], rest);
      assert current + [text[0]] + text[1..] == current + text;
    }
  }

  /** The first line of a cut text is a proper beginning of it. */
  lemma {:induction false} CutLine(current: string, text: string, rest: string) returns (k: nat)
    requires HasBreak(text)
    ensures k < |text| && SplitFrom(current, text + rest) != []
    ensures SplitFrom(current, text + rest)[0] == current + text[..k]
    decreases |text|
  {
    var all := text + rest;
    if Breaks(text[0]) {
      k := 0;
      assert current + text[..0] == current;
    } else {
      assert all[1..] == text[1..] + rest;
      assert HasBreak(text[1..]) by { assert text == [text[0]] + text[1..]; }
      k := CutLine(current + [text[0]], text[1..], rest);
      assert current + [text[0]] + text[1..][..k] == current + text[..k + 1];
      k := k + 1;
    }
  }

  function LinesOf(ws: seq<Written>): seq<Line> { if ws == [] then [] else [LineOf(ws[0])] + LinesOf(ws[1..]) }

  lemma WholeFirst(parse: string -> Line, w: Written, rest: string)
    requires ReadsJson(parse) && !Broken(w)
    ensures ReadLines(parse, Render(w) + ("\n" + rest)) == [LineOf(w)] + ReadLines(parse, rest)
  {
    RecordIsCut(w);
    WholeLine("", Render(w), rest);
    assert "" + Render(w) == Render(w);
    var lines := SplitFrom("", Render(w) + ("\n" + rest));
    assert lines[0] == Render(w) && lines[1..] == SplitFrom("", rest);
  }

  lemma BrokenFirst(parse: string -> Line, w: Written, rest: string)
    requires ReadsJson(parse) && Broken(w)
    ensures Garbage in ReadLines(parse, Render(w) + ("\n" + rest))
  {
    RecordIsCut(w);
    var k := CutLine("", Render(w), "\n" + rest);
    assert "" + Render(w)[..k] == Render(w)[..k];
    assert parse(Render(w)[..k]) == Garbage;
    assert ReadLines(parse, Render(w) + ("\n" + rest))[0] == Garbage;
  }

  /** The file of unbroken records is read back record by record; a broken record leaves garbage. */
  lemma {:induction false} FileIsRead(parse: string -> Line, ws: seq<Written>)
    requires ReadsJson(parse)
    ensures (forall w <- ws :: !Broken(w)) ==> ReadLines(parse, File(ws)) == LinesOf(ws)
    ensures (exists w <- ws :: Broken(w)) ==> Garbage in ReadLines(parse, File(ws))
  {
    if ws != [] {
      FileIsRead(parse, ws[1..]);
      assert ws == [ws[0]] + ws[1..];
      if Broken(ws[0]) {
        BrokenFirst(parse, ws[0], File(ws[1..]));
      } else {
        WholeFirst(parse, ws[0], File(ws[1..]));
      }
    }
  }

  /** The file in a job directory holds these records, and they say what the router logged. */
  ghost predicate HoldsText(parse: string -> Line, ws: seq<Written>, s: Router.Sys, d: Directory) {
    && LinesOf(ws) == s.log && d.uncertainMarker == s.marker
    && d.audit == Some(ReadLines(parse, File(ws)))
  }

  /**
   Over every run of the router and for any texts in its records: the evidence is
   malformed exactly by the resolutions file or by a record that holds one of the
   three separators.  Without such a record the reader sees the router's log, and
   everything proved of the log holds of the file; with one the job is unresolved.
   */
  lemma TextOutcome(parse: string -> Line, ws: seq<Written>, steps: seq<Router.Step>, s: Router.Sys, d: Directory)
    requires ReadsJson(parse) && Router.After(steps) == Some(s) && HoldsText(parse, ws, s, d)
    ensures OutcomeOf(d).malformedAudit <==> !ResolutionsOk(d.resolutions) || exists w <- ws :: Broken(w)
    ensures (forall w <- ws :: !Broken(w)) ==> Audit.LeftBy(s, d)
    ensures (exists w <- ws :: Broken(w)) ==> OutcomeOf(d).unresolved
  {
    FileIsRead(parse, ws);
    if forall w <- ws :: !Broken(w) {
      Audit.OutcomeExactly(steps, s, d);
    } else {
      assert Bad(Garbage);
    }
  }
}
