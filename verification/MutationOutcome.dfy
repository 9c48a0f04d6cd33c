/**
 The reader of durable mutation evidence (`mutation_outcome`) and the runner's
 independent, coarser reader of the same log (`_mutation_attempted`).

 The log is a sequence of lines; the outcome reduces it to per-key counters and
 decides whether every write attempt has a known outcome.
 */
module MutationOutcome {
  import opened Wrappers

  // ---- the evidence in a job directory -------------------------------------

  datatype Key = Key(operation: string, rrSource: string)

  /** The `at` of a record; a list or object there cannot be looked up in a dictionary. */
  datatype Stamp = Missing | At(text: string) | Unhashable

  datatype Verdict =
    | Attempted | Succeeded | RejectedPrewrite | Failed | Uncertain
    | UiActionAttempted | UiActionCompleted
    | OtherVerdict

  /** `harmless`: the flags dataChange, isSave and potentiallyPersisted are all literally false. */
  datatype Line =
    | Garbage
    | Entry(verdict: Verdict, at: Stamp, key: Key, harmless: bool)

  /** The operator's word on an attempt; anything else that stands there is no ruling. */
  datatype Ruling = WasPersisted | WasNotPersisted | NoRuling

  /** The evidence file an entry names, and the digest it states for it. */
  datatype Exhibit = Unreadable | Elsewhere | OnFile(digest: nat, stated: nat)

  /** One entry of the resolutions file; an entry that lacks a field has no ruling. */
  datatype Resolution = Resolution(at: Stamp, key: Key, ruling: Ruling, byOperator: bool, exhibit: Exhibit)

  datatype ResolutionFile = NoFile | Unparsable | Listing(entries: seq<Resolution>)

  datatype Directory = Directory(
    uncertainMarker: bool, pendingMarker: bool, audit: Option<seq<Line>>, resolutions: ResolutionFile)

  datatype Outcome = Outcome(
    attempted: nat, rejectedPrewrite: nat, succeeded: nat, unmatchedAttempts: nat,
    notPersisted: nat, persistedResolved: nat, hasAttempts: bool, uncertainMarker: bool,
    pendingReadback: bool, malformedAudit: bool, unresolved: bool)

  // ---- counters ------------------------------------------------------------

  /** Python's `Counter`: the keys in insertion order, each with its count. */
  datatype Counter = Counter(order: seq<Key>, counts: map<Key, nat>)

  const NoCounts := Counter([], map[])

  function Get(c: Counter, k: Key): nat { if k in c.counts then c.counts[k] else 0 }

  function Bump(c: Counter, k: Key): Counter {
    Counter(if k in c.counts then c.order else c.order + [k], c.counts[k := Get(c, k) + 1])
  }

  function Sum(f: Key -> nat, ks: seq<Key>): nat {
    if ks == [] then 0 else Sum(f, ks[..|ks| - 1]) + f(ks[|ks| - 1])
  }

  function CountOf(c: Counter): Key -> nat { k => Get(c, k) }

  /** `sum(counter.values())`. */
  function Total(c: Counter): nat { Sum(CountOf(c), c.order) }

  // ---- reading the resolutions ---------------------------------------------

  type Resolved = map<(Stamp, Key), bool>

  /** An allowed outcome, the operator as actor, evidence inside the job directory with the stated digest. */
  predicate Acceptable(r: Resolution) {
    && r.ruling != NoRuling && r.byOperator
    && r.exhibit.OnFile? && r.exhibit.digest == r.exhibit.stated
    && r.at != Unhashable
  }

  /** Entries are taken in order; the first bad one stops the reading. */
  function ReadResolutions(entries: seq<Resolution>): (Resolved, bool) {
    if entries == [] then (map[], true)
    else
      var (known, ok) := ReadResolutions(entries[..|entries| - 1]);
      var r := entries[|entries| - 1];
      if ok && Acceptable(r) then (known[(r.at, r.key) := r.ruling == WasPersisted], true) else (known, false)
  }

  function ResolvedBy(f: ResolutionFile): Resolved {
    if f.Listing? then ReadResolutions(f.entries).0 else map[]
  }

  predicate ResolutionsOk(f: ResolutionFile) {
    f.NoFile? || (f.Listing? && ReadResolutions(f.entries).1)
  }

  // ---- classifying a line --------------------------------------------------

  datatype Kind = Attempt | Success | Rejection | NotPersisted | Persisted

  predicate Is(kind: Kind, l: Line, known: Resolved) {
    && l.Entry?
    && match kind
       case Attempt => l.verdict in {Attempted, Failed, Uncertain}
       case Success => l.verdict == Succeeded
       case Rejection => l.verdict == RejectedPrewrite
       case NotPersisted => l.verdict == Attempted && (l.at, l.key) in known && !known[(l.at, l.key)]
       case Persisted => l.verdict == Attempted && (l.at, l.key) in known && known[(l.at, l.key)]
  }

  predicate Bad(l: Line) { l.Garbage? || (l.verdict == Attempted && l.at == Unhashable) }

  /** The counter of one kind after the log. */
  function Tally(kind: Kind, lines: seq<Line>, known: Resolved): Counter {
    if lines == [] then NoCounts
    else
      var before, l := Tally(kind, lines[..|lines| - 1], known), lines[|lines| - 1];
      if Is(kind, l, known) then Bump(before, l.key) else before
  }

  function Monus(a: nat, b: nat): nat { if a < b then 0 else a - b }

  datatype Counters = Counters(
    attempted: Counter, succeeded: Counter, rejected: Counter, notPersisted: Counter, persisted: Counter)

  function Effective(c: Counters, k: Key): nat { Monus(Get(c.attempted, k), Get(c.rejected, k)) }

  function Unmatched(c: Counters, k: Key): nat {
    Monus(Effective(c, k), Get(c.succeeded, k) + Get(c.notPersisted, k) + Get(c.persisted, k))
  }

  function EffectiveOf(c: Counters): Key -> nat { k => Effective(c, k) }

  function UnmatchedOf(c: Counters): Key -> nat { k => Unmatched(c, k) }

  function CountersOf(lines: seq<Line>, known: Resolved): Counters {
    Counters(Tally(Attempt, lines, known), Tally(Success, lines, known), Tally(Rejection, lines, known),
             Tally(NotPersisted, lines, known), Tally(Persisted, lines, known))
  }

  function Lines(d: Directory): seq<Line> { if d.audit.Some? then d.audit.value else [] }

  /** What the log and the files of a job directory say. */
  function OutcomeOf(d: Directory): Outcome {
    var lines, known := Lines(d), ResolvedBy(d.resolutions);
    var c := CountersOf(lines, known);
    var effective := Sum(EffectiveOf(c), c.attempted.order);
    var unmatched := Sum(UnmatchedOf(c), c.attempted.order);
    var malformed := !ResolutionsOk(d.resolutions) || exists l <- lines :: Bad(l);
    Outcome(effective, Total(c.rejected), Total(c.succeeded), unmatched,
            Total(c.notPersisted), Total(c.persisted), effective > 0, d.uncertainMarker,
            d.pendingMarker, malformed, d.uncertainMarker || d.pendingMarker || malformed || unmatched > 0)
  }

  // ---- the program ---------------------------------------------------------

  method LoadResolutions(f: ResolutionFile) returns (known: Resolved, ok: bool)
    ensures known == ResolvedBy(f) && ok == ResolutionsOk(f)
  {
    known, ok := map[], true;
    match f
    case NoFile =>
    case Unparsable => ok := false;
    case Listing(entries) =>
      for i := 0 to |entries|
        invariant (known, ok) == ReadResolutions(entries[..i]) && ok
      {
        var r := entries[i];
        assert entries[..i + 1][..i] == entries[..i];
        if !Acceptable(r) {
          StopsAtBadEntry(entries, i);
          return known, false;
        }
        known := known[(r.at, r.key) := r.ruling == WasPersisted];
      }
      assert entries[..|entries|] == entries;
  }

  lemma {:induction false} StopsAtBadEntry(entries: seq<Resolution>, i: nat)
    requires i < |entries| && ReadResolutions(entries[..i]).1 && !Acceptable(entries[i])
    ensures ReadResolutions(entries) == (ReadResolutions(entries[..i]).0, false)
  {
    var front := entries[..|entries| - 1];
    if i < |front| {
      assert front[..i] == entries[..i];
      StopsAtBadEntry(front, i);
    }
  }

  /** What one line does to the counters. */
  function AddLine(c: Counters, l: Line, known: Resolved): Counters {
    if l.Garbage? then c
    else
      match l.verdict
      case Attempted =>
        var counted := c.(attempted := Bump(c.attempted, l.key));
        if (l.at, l.key) !in known then counted
        else if known[(l.at, l.key)] then counted.(persisted := Bump(c.persisted, l.key))
        else counted.(notPersisted := Bump(c.notPersisted, l.key))
      case Succeeded => c.(succeeded := Bump(c.succeeded, l.key))
      case RejectedPrewrite => c.(rejected := Bump(c.rejected, l.key))
      case Failed => c.(attempted := Bump(c.attempted, l.key))
      case Uncertain => c.(attempted := Bump(c.attempted, l.key))
      case _ => c
  }

  lemma CountersNext(lines: seq<Line>, l: Line, known: Resolved)
    ensures CountersOf(lines + [l], known) == AddLine(CountersOf(lines, known), l, known)
  {
    assert (lines + [l])[..|lines|] == lines;
  }

  lemma BadNext(lines: seq<Line>, l: Line)
    ensures (exists x <- lines + [l] :: Bad(x)) <==> (exists x <- lines :: Bad(x)) || Bad(l)
  {
    assert l in lines + [l];
    assert forall x <- lines :: x in lines + [l];
  }

  method CountLines(lines: seq<Line>, known: Resolved) returns (c: Counters, malformed: bool)
    ensures c == CountersOf(lines, known)
    ensures malformed <==> exists l <- lines :: Bad(l)
  {
    c, malformed := Counters(NoCounts, NoCounts, NoCounts, NoCounts, NoCounts), false;
    for i := 0 to |lines|
      invariant c == CountersOf(lines[..i], known)
      invariant malformed <==> exists l <- lines[..i] :: Bad(l)
    {
      var l := lines[i];
      ghost var before := c;
      assert lines[..i + 1] == lines[..i] + [l];
      CountersNext(lines[..i], l, known);
      BadNext(lines[..i], l);
      match l
      case Garbage => malformed := true;
      case Entry(verdict, at, key, _) =>
        if verdict == Attempted {
          c := c.(attempted := Bump(c.attempted, key));
          if at == Unhashable {
            malformed := true;
          }
          if (at, key) in known {
            if known[(at, key)] {
              c := c.(persisted := Bump(c.persisted, key));
            } else {
              c := c.(notPersisted := Bump(c.notPersisted, key));
            }
          }
        } else if verdict == Succeeded {
          c := c.(succeeded := Bump(c.succeeded, key));
        } else if verdict == RejectedPrewrite {
          c := c.(rejected := Bump(c.rejected, key));
        } else if verdict == Failed || verdict == Uncertain {
          c := c.(attempted := Bump(c.attempted, key));
        }
      assert c == AddLine(before, l, known);
    }
    assert lines[..|lines|] == lines;
  }

  method Evaluate(d: Directory) returns (o: Outcome)
    ensures o == OutcomeOf(d)
  {
    var known, ok := LoadResolutions(d.resolutions);
    var c, garbled := CountLines(Lines(d), known);
    var malformed := !ok || garbled;
    var order := c.attempted.order;
    var effective, unmatched := 0, 0;
    for i := 0 to |order|
      invariant effective == Sum(EffectiveOf(c), order[..i])
      invariant unmatched == Sum(UnmatchedOf(c), order[..i])
    {
      assert order[..i + 1][..i] == order[..i];
      effective := effective + Effective(c, order[i]);
      unmatched := unmatched + Unmatched(c, order[i]);
    }
    assert order[..|order|] == order;
    o := Outcome(effective, Total(c.rejected), Total(c.succeeded), unmatched,
                 Total(c.notPersisted), Total(c.persisted), effective > 0, d.uncertainMarker, d.pendingMarker,
                 malformed, d.uncertainMarker || d.pendingMarker || malformed || unmatched > 0);
  }

  // ---- counters are counts -------------------------------------------------

  /** How many lines of this kind carry the key. */
  function Count(kind: Kind, lines: seq<Line>, known: Resolved, k: Key): nat {
    if lines == [] then 0
    else
      Count(kind, lines[..|lines| - 1], known, k)
        + if Is(kind, lines[|lines| - 1], known) && lines[|lines| - 1].key == k then 1 else 0
  }

  ghost predicate WellFormed(c: Counter) {
    && (forall k :: k in c.order <==> k in c.counts)
    && (forall k <- c.counts :: c.counts[k] > 0)
    && (forall i, j | 0 <= i < j < |c.order| :: c.order[i] != c.order[j])
  }

  lemma {:induction false} TallyCounts(kind: Kind, lines: seq<Line>, known: Resolved)
    ensures WellFormed(Tally(kind, lines, known))
    ensures forall k :: Get(Tally(kind, lines, known), k) == Count(kind, lines, known, k)
  {
    if lines != [] { TallyCounts(kind, lines[..|lines| - 1], known); }
  }

  lemma {:induction false} SumVanishes(f: Key -> nat, ks: seq<Key>)
    ensures Sum(f, ks) == 0 <==> forall k <- ks :: f(k) == 0
  {
    if ks != [] {
      SumVanishes(f, ks[..|ks| - 1]);
      assert ks == ks[..|ks| - 1] + [ks[|ks| - 1]];
    }
  }

  /** Attempts of a key that no rejection, success or operator resolution of that key answers. */
  function Shortfall(lines: seq<Line>, known: Resolved, k: Key): nat {
    Monus(Count(Attempt, lines, known, k),
          Count(Rejection, lines, known, k) + Count(Success, lines, known, k)
            + Count(NotPersisted, lines, known, k) + Count(Persisted, lines, known, k))
  }

  lemma UnmatchedIsShortfall(lines: seq<Line>, known: Resolved, k: Key)
    ensures Unmatched(CountersOf(lines, known), k) == Shortfall(lines, known, k)
  {
    TallyCounts(Attempt, lines, known);
    TallyCounts(Success, lines, known);
    TallyCounts(Rejection, lines, known);
    TallyCounts(NotPersisted, lines, known);
    TallyCounts(Persisted, lines, known);
  }

  /** The two-step clamping of the program loses nothing: no unmatched attempt exactly when no key falls short. */
  lemma NothingUnmatched(d: Directory)
    ensures OutcomeOf(d).unmatchedAttempts == 0 <==>
      forall k :: Shortfall(Lines(d), ResolvedBy(d.resolutions), k) == 0
  {
    var lines, known := Lines(d), ResolvedBy(d.resolutions);
    var c := CountersOf(lines, known);
    SumVanishes(UnmatchedOf(c), c.attempted.order);
    TallyCounts(Attempt, lines, known);
    forall k ensures Unmatched(c, k) == Shortfall(lines, known, k)
      ensures k !in c.attempted.order ==> Shortfall(lines, known, k) == 0
    {
      UnmatchedIsShortfall(lines, known, k);
      assert k !in c.attempted.order ==> Get(c.attempted, k) == 0;
    }
  }

  // ---- the order of the records does not matter ----------------------------

  function Without<T>(s: seq<T>, i: nat): seq<T>
    requires i < |s|
  {
    s[..i] + s[i + 1..]
  }

  lemma {:induction false} CountWithout(kind: Kind, lines: seq<Line>, known: Resolved, k: Key, i: nat)
    requires i < |lines|
    ensures Count(kind, lines, known, k) == Count(kind, Without(lines, i), known, k)
      + if Is(kind, lines[i], known) && lines[i].key == k then 1 else 0
  {
    if i == |lines| - 1 {
      assert Without(lines, i) == lines[..|lines| - 1];
    } else {
      CountWithout(kind, lines[..|lines| - 1], known, k, i);
      assert Without(lines, i)[..|lines| - 2] == Without(lines[..|lines| - 1], i);
    }
  }

  lemma WithoutMultiset<T>(s: seq<T>, i: nat)
    requires i < |s|
    ensures multiset(s) == multiset(Without(s, i)) + multiset{s[i]}
  {
    assert s == s[..i] + [s[i]] + s[i + 1..];
  }

  /** Two permutations of a bag stay permutations when one element is removed from both. */
  lemma RemoveFromBoth<T(!new)>(a: seq<T>, b: seq<T>) returns (i: nat)
    requires multiset(a) == multiset(b) && a != []
    ensures i < |b| && b[i] == a[|a| - 1] && multiset(a[..|a| - 1]) == multiset(Without(b, i))
  {
    var last := a[|a| - 1];
    assert last in multiset(b);
    i :| i < |b| && b[i] == last;
    WithoutMultiset(b, i);
    assert a == a[..|a| - 1] + [last];
    assert multiset(a) == multiset(a[..|a| - 1]) + multiset{last};
    forall x ensures multiset(a[..|a| - 1])[x] == multiset(Without(b, i))[x] {
      assert multiset(a)[x] == multiset(b)[x];
    }
  }

  lemma EmptyBag<T>(a: seq<T>, b: seq<T>)
    requires multiset(a) == multiset(b) && a == []
    ensures b == []
  {
    assert |multiset(b)| == |b|;
  }

  lemma {:induction false} CountIgnoresOrder(kind: Kind, a: seq<Line>, b: seq<Line>, known: Resolved, k: Key)
    requires multiset(a) == multiset(b)
    ensures Count(kind, a, known, k) == Count(kind, b, known, k)
    decreases |a|
  {
    if a == [] {
      EmptyBag(a, b);
    } else {
      var i := RemoveFromBoth(a, b);
      CountWithout(kind, b, known, k, i);
      CountIgnoresOrder(kind, a[..|a| - 1], Without(b, i), known, k);
    }
  }

  /** Sums over two enumerations of the same keys agree. */
  lemma {:induction false} SumIgnoresOrder(f: Key -> nat, g: Key -> nat, p: seq<Key>, q: seq<Key>)
    requires multiset(p) == multiset(q) && forall k <- p :: f(k) == g(k)
    ensures Sum(f, p) == Sum(g, q)
    decreases |p|
  {
    if p == [] {
      EmptyBag(p, q);
    } else {
      var i := RemoveFromBoth(p, q);
      SumWithout(g, q, i);
      SumIgnoresOrder(f, g, p[..|p| - 1], Without(q, i));
    }
  }

  lemma {:induction false} SumWithout(f: Key -> nat, q: seq<Key>, i: nat)
    requires i < |q|
    ensures Sum(f, q) == Sum(f, Without(q, i)) + f(q[i])
  {
    if i == |q| - 1 {
      assert Without(q, i) == q[..|q| - 1];
    } else {
      SumWithout(f, q[..|q| - 1], i);
      assert Without(q, i)[..|q| - 2] == Without(q[..|q| - 1], i);
    }
  }

  /** Enumerations without repetition of the same elements are permutations of each other. */
  lemma SameKeysSameMultiset(p: seq<Key>, q: seq<Key>)
    requires forall i, j | 0 <= i < j < |p| :: p[i] != p[j]
    requires forall i, j | 0 <= i < j < |q| :: q[i] != q[j]
    requires forall k :: k in p <==> k in q
    ensures multiset(p) == multiset(q)
  {
    forall k ensures multiset(p)[k] == multiset(q)[k] {
      OnceEach(p, k);
      OnceEach(q, k);
    }
  }

  lemma {:induction false} OnceEach(p: seq<Key>, k: Key)
    requires forall i, j | 0 <= i < j < |p| :: p[i] != p[j]
    ensures multiset(p)[k] == if k in p then 1 else 0
  {
    if p != [] {
      var front, last := p[..|p| - 1], p[|p| - 1];
      OnceEach(front, k);
      assert p == front + [last];
      assert last !in front;
    }
  }

  lemma TalliesAgree(kind: Kind, a: seq<Line>, b: seq<Line>, known: Resolved)
    requires multiset(a) == multiset(b)
    ensures var c, d := Tally(kind, a, known), Tally(kind, b, known);
      && (forall k :: Get(c, k) == Get(d, k))
      && multiset(c.order) == multiset(d.order) && Total(c) == Total(d)
  {
    var c, d := Tally(kind, a, known), Tally(kind, b, known);
    TallyCounts(kind, a, known);
    TallyCounts(kind, b, known);
    forall k ensures Get(c, k) == Get(d, k) && (k in c.order <==> k in d.order) {
      CountIgnoresOrder(kind, a, b, known, k);
      assert k in c.order <==> Get(c, k) > 0;
      assert k in d.order <==> Get(d, k) > 0;
    }
    SameKeysSameMultiset(c.order, d.order);
    SumIgnoresOrder(CountOf(c), CountOf(d), c.order, d.order);
  }

  /** The outcome is a function of the records as a bag. */
  lemma OutcomeIgnoresOrder(d: Directory, e: Directory)
    requires d.audit.Some? && e.audit.Some? && e == d.(audit := e.audit)
    requires multiset(d.audit.value) == multiset(e.audit.value)
    ensures OutcomeOf(d) == OutcomeOf(e)
  {
    var known := ResolvedBy(d.resolutions);
    var a, b := d.audit.value, e.audit.value;
    TalliesAgree(Attempt, a, b, known);
    TalliesAgree(Success, a, b, known);
    TalliesAgree(Rejection, a, b, known);
    TalliesAgree(NotPersisted, a, b, known);
    TalliesAgree(Persisted, a, b, known);
    var p, q := CountersOf(a, known), CountersOf(b, known);
    SumIgnoresOrder(EffectiveOf(p), EffectiveOf(q), p.attempted.order, q.attempted.order);
    SumIgnoresOrder(UnmatchedOf(p), UnmatchedOf(q), p.attempted.order, q.attempted.order);
    assert forall l :: l in a <==> l in multiset(a);
    assert forall l :: l in b <==> l in multiset(b);
  }

  // ---- unmatched is zero exactly when a pairing exists ----------------------

  predicate Answers(l: Line, known: Resolved) {
    Is(Rejection, l, known) || Is(Success, l, known) || Is(NotPersisted, l, known) || Is(Persisted, l, known)
  }

  /** Lines before n that are attempts on key k, and lines that answer one (a resolved attempt answers). */
  function AttemptsOn(lines: seq<Line>, known: Resolved, k: Key): set<nat> {
    set i: nat | i < |lines| && Is(Attempt, lines[i], known) && lines[i].key == k
  }

  function AnswersOn(lines: seq<Line>, known: Resolved, k: Key): set<nat> {
    set i: nat | i < |lines| && Answers(lines[i], known) && lines[i].key == k
  }

  lemma OneMorePosition(after: set<nat>, before: set<nat>, n: nat, here: bool)
    requires n !in before && forall i: nat :: i in after <==> i in before || (here && i == n)
    ensures |after| == |before| + if here then 1 else 0
  {
    assert after == if here then before + {n} else before;
  }

  lemma {:induction false} AttemptsCounted(lines: seq<Line>, known: Resolved, k: Key)
    ensures |AttemptsOn(lines, known, k)| == Count(Attempt, lines, known, k)
  {
    if lines == [] {
      assert AttemptsOn(lines, known, k) == {};
    } else {
      var front, n := lines[..|lines| - 1], |lines| - 1;
      AttemptsCounted(front, known, k);
      forall i: nat | i < n ensures i in AttemptsOn(lines, known, k) <==> i in AttemptsOn(front, known, k) {
        assert lines[i] == front[i];
      }
      OneMorePosition(AttemptsOn(lines, known, k), AttemptsOn(front, known, k), n, n in AttemptsOn(lines, known, k));
    }
  }

  function CountAnswers(lines: seq<Line>, known: Resolved, k: Key): nat {
    Count(Rejection, lines, known, k) + Count(Success, lines, known, k)
      + Count(NotPersisted, lines, known, k) + Count(Persisted, lines, known, k)
  }

  lemma AnswersOfOneLine(lines: seq<Line>, known: Resolved, k: Key)
    requires lines != []
    ensures CountAnswers(lines, known, k) == CountAnswers(lines[..|lines| - 1], known, k)
      + if Answers(lines[|lines| - 1], known) && lines[|lines| - 1].key == k then 1 else 0
  {}

  lemma {:induction false} AnswersCounted(lines: seq<Line>, known: Resolved, k: Key)
    ensures |AnswersOn(lines, known, k)| == CountAnswers(lines, known, k)
  {
    if lines == [] {
      assert AnswersOn(lines, known, k) == {};
    } else {
      var front, n := lines[..|lines| - 1], |lines| - 1;
      AnswersCounted(front, known, k);
      AnswersOfOneLine(lines, known, k);
      forall i: nat | i < n ensures i in AnswersOn(lines, known, k) <==> i in AnswersOn(front, known, k) {
        assert lines[i] == front[i];
      }
      OneMorePosition(AnswersOn(lines, known, k), AnswersOn(front, known, k), n, n in AnswersOn(lines, known, k));
    }
  }

  lemma CardinalitiesAreCounts(lines: seq<Line>, known: Resolved, k: Key)
    ensures Shortfall(lines, known, k) == Monus(|AttemptsOn(lines, known, k)|, |AnswersOn(lines, known, k)|)
  {
    AttemptsCounted(lines, known, k);
    AnswersCounted(lines, known, k);
  }

  /** Every attempt is paired, one to one, with a line that answers an attempt on the same key. */
  ghost predicate Pairing(m: map<nat, nat>, lines: seq<Line>, known: Resolved) {
    && (forall i: nat | i < |lines| && Is(Attempt, lines[i], known) :: i in m)
    && (forall i <- m :: i < |lines| && m[i] < |lines|
          && Answers(lines[m[i]], known) && lines[i].Entry? && lines[m[i]].key == lines[i].key)
    && (forall i, j | i in m && j in m && i != j :: m[i] != m[j])
  }

  lemma {:induction false} InjectionBound(m: map<nat, nat>, a: set<nat>, b: set<nat>)
    requires forall i <- a :: i in m && m[i] in b
    requires forall i, j | i in a && j in a && i != j :: m[i] != m[j]
    ensures |a| <= |b|
  {
    if a != {} {
      var i :| i in a;
      InjectionBound(m, a - {i}, b - {m[i]});
    }
  }

  lemma PairingMatches(m: map<nat, nat>, lines: seq<Line>, known: Resolved, k: Key)
    requires Pairing(m, lines, known)
    ensures Shortfall(lines, known, k) == 0
  {
    CardinalitiesAreCounts(lines, known, k);
    InjectionBound(m, AttemptsOn(lines, known, k), AnswersOn(lines, known, k));
  }

  function Of(s: set<nat>, lines: seq<Line>, k: Key): set<nat>
    requires forall i <- s :: i < |lines| && lines[i].Entry?
  {
    set i | i in s && lines[i].key == k
  }

  lemma OfWithout(a: set<nat>, lines: seq<Line>, i: nat, h: Key)
    requires (forall x <- a :: x < |lines| && lines[x].Entry?) && i in a
    ensures |Of(a - {i}, lines, h)| == |Of(a, lines, h)| - if lines[i].key == h then 1 else 0
  {
    if lines[i].key == h {
      assert Of(a, lines, h) == Of(a - {i}, lines, h) + {i};
    } else {
      assert Of(a, lines, h) == Of(a - {i}, lines, h);
    }
  }

  /** If no key has more attempts than answers, attempts can be paired off one by one. */
  lemma {:induction false} PairOff(lines: seq<Line>, a: set<nat>, b: set<nat>) returns (m: map<nat, nat>)
    requires forall i <- a :: i < |lines| && lines[i].Entry?
    requires forall i <- b :: i < |lines| && lines[i].Entry?
    requires forall k :: |Of(a, lines, k)| <= |Of(b, lines, k)|
    ensures m.Keys == a && m.Values <= b
    ensures forall i <- m :: i in a && m[i] in b && lines[m[i]].key == lines[i].key
    ensures forall i, j | i in m && j in m && i != j :: m[i] != m[j]
  {
    if a == {} {
      m := map[];
    } else {
      var i :| i in a;
      var k := lines[i].key;
      assert i in Of(a, lines, k);
      assert Of(b, lines, k) != {};
      var j :| j in Of(b, lines, k);
      forall h ensures |Of(a - {i}, lines, h)| <= |Of(b - {j}, lines, h)| {
        OfWithout(a, lines, i, h);
        OfWithout(b, lines, j, h);
        assert |Of(a, lines, h)| <= |Of(b, lines, h)|;
      }
      var rest := PairOff(lines, a - {i}, b - {j});
      m := rest[i := j];
      assert forall x <- rest :: rest[x] in rest.Values;
    }
  }

  lemma NoShortfallGivesPairing(lines: seq<Line>, known: Resolved) returns (m: map<nat, nat>)
    requires forall k :: Shortfall(lines, known, k) == 0
    ensures Pairing(m, lines, known)
  {
    var a := set i: nat | i < |lines| && Is(Attempt, lines[i], known);
    var b := set i: nat | i < |lines| && Answers(lines[i], known);
    forall k ensures |Of(a, lines, k)| <= |Of(b, lines, k)| {
      assert Shortfall(lines, known, k) == 0;
      CardinalitiesAreCounts(lines, known, k);
      assert Of(a, lines, k) == AttemptsOn(lines, known, k);
      assert Of(b, lines, k) == AnswersOn(lines, known, k);
    }
    m := PairOff(lines, a, b);
    assert forall i <- m :: m[i] in m.Values;
  }

  /**
   No attempt is unmatched exactly when every attempt can be paired one to one with
   a rejection, a success or an operator-resolved attempt of the same key.
   */
  lemma OutcomeAsMatching(d: Directory)
    ensures OutcomeOf(d).unmatchedAttempts == 0 <==>
      exists m :: Pairing(m, Lines(d), ResolvedBy(d.resolutions))
  {
    NothingUnmatched(d);
    var lines, known := Lines(d), ResolvedBy(d.resolutions);
    if m :| Pairing(m, lines, known) {
      forall k ensures Shortfall(lines, known, k) == 0 {
        PairingMatches(m, lines, known, k);
      }
    }
    if forall k :: Shortfall(lines, known, k) == 0 {
      var m := NoShortfallGivesPairing(lines, known);
    }
  }

  // ---- what an operator's file can and cannot do ----------------------------

  /** Whatever makes an entry no proof. */
  predicate Flawed(r: Resolution) {
    || !(r.ruling == WasPersisted || r.ruling == WasNotPersisted)
    || !r.byOperator
    || r.exhibit == Unreadable || r.exhibit == Elsewhere
    || (r.exhibit.OnFile? && r.exhibit.digest != r.exhibit.stated)
    || r.at == Unhashable
  }

  lemma {:induction false} ListingOkExactly(entries: seq<Resolution>)
    ensures ReadResolutions(entries).1 <==> forall r <- entries :: !Flawed(r)
  {
    if entries != [] {
      var front, last := entries[..|entries| - 1], entries[|entries| - 1];
      ListingOkExactly(front);
      assert Flawed(last) <==> !Acceptable(last);
      assert forall r :: r in entries <==> r in front || r == last;
    }
  }

  /** A single flawed entry makes the evidence malformed and the job unresolved, whatever else is on file. */
  lemma FlawedEntryHoldsJob(d: Directory, r: Resolution)
    requires d.resolutions.Listing? && r in d.resolutions.entries && Flawed(r)
    ensures OutcomeOf(d).malformedAudit && OutcomeOf(d).unresolved
  {
    ListingOkExactly(d.resolutions.entries);
  }

  /** Exactly what makes the evidence malformed. */
  lemma MalformedExactly(d: Directory)
    ensures OutcomeOf(d).malformedAudit <==>
      || d.resolutions == Unparsable
      || (d.resolutions.Listing? && exists r <- d.resolutions.entries :: Flawed(r))
      || exists l <- Lines(d) :: l == Garbage || (l.Entry? && l.verdict == Attempted && l.at == Unhashable)
  {
    if d.resolutions.Listing? { ListingOkExactly(d.resolutions.entries); }
    assert forall l :: Bad(l) <==> l == Garbage || (l.Entry? && l.verdict == Attempted && l.at == Unhashable);
  }

  /** Entry i is before the first flawed one. */
  predicate Stands(entries: seq<Resolution>, i: nat) {
    i < |entries| && forall j | 0 <= j <= i :: !Flawed(entries[j])
  }

  predicate Names(r: Resolution, at: Stamp, key: Key) { r.at == at && r.key == key }

  lemma StandsInFront(entries: seq<Resolution>, i: nat)
    requires i + 1 < |entries|
    ensures Stands(entries[..|entries| - 1], i) <==> Stands(entries, i)
  {}

  lemma LastStands(entries: seq<Resolution>)
    requires entries != []
    ensures var n := |entries| - 1;
      Stands(entries, n) <==> ReadResolutions(entries[..n]).1 && Acceptable(entries[n])
  {
    var n := |entries| - 1;
    ListingOkExactly(entries[..n]);
    assert forall r <- entries[..n] :: exists j | 0 <= j < n :: entries[j] == r;
    assert forall j | 0 <= j < n :: entries[j] in entries[..n];
    assert Flawed(entries[n]) <==> !Acceptable(entries[n]);
  }

  /** An attempt counts as resolved exactly when a standing entry names it. */
  lemma {:induction false} ResolvedExactly(entries: seq<Resolution>, at: Stamp, key: Key)
    ensures (at, key) in ReadResolutions(entries).0 <==>
      exists i | 0 <= i < |entries| :: Stands(entries, i) && Names(entries[i], at, key)
  {
    if entries != [] {
      var front, n := entries[..|entries| - 1], |entries| - 1;
      ResolvedExactly(front, at, key);
      LastStands(entries);
      forall i | 0 <= i < n ensures Stands(front, i) <==> Stands(entries, i) {
        StandsInFront(entries, i);
      }
      assert forall i | 0 <= i < n :: front[i] == entries[i];
    }
  }

  /** It then has the ruling of the last such entry. */
  lemma {:induction false} LastRulingCounts(entries: seq<Resolution>, i: nat)
    requires Stands(entries, i)
    requires forall j | i < j < |entries| && Stands(entries, j) :: !Names(entries[j], entries[i].at, entries[i].key)
    ensures var known, attempt := ReadResolutions(entries).0, (entries[i].at, entries[i].key);
      attempt in known && known[attempt] == (entries[i].ruling == WasPersisted)
  {
    var front, n := entries[..|entries| - 1], |entries| - 1;
    LastStands(entries);
    if i < n {
      StandsInFront(entries, i);
      forall j | i < j < n && Stands(front, j) ensures !Names(front[j], front[i].at, front[i].key) {
        StandsInFront(entries, j);
      }
      LastRulingCounts(front, i);
    }
  }

  lemma {:induction false} UncountedKind(kind: Kind, lines: seq<Line>, known: Resolved, k: Key)
    requires forall l <- lines :: Is(kind, l, known) ==> l.key != k
    ensures Count(kind, lines, known, k) == 0
  {
    if lines != [] {
      assert lines[|lines| - 1] in lines && forall l <- lines[..|lines| - 1] :: l in lines;
      UncountedKind(kind, lines[..|lines| - 1], known, k);
    }
  }

  lemma {:induction false} CountedLine(kind: Kind, lines: seq<Line>, known: Resolved, l: Line)
    requires l in lines && Is(kind, l, known)
    ensures Count(kind, lines, known, l.key) > 0
  {
    if l != lines[|lines| - 1] {
      assert lines == lines[..|lines| - 1] + [lines[|lines| - 1]];
      CountedLine(kind, lines[..|lines| - 1], known, l);
    }
  }

  /**
   A record of an attempt, whatever it is called, holds the job when nothing answers its
   key: no success, no rejection, and no attempt of the key that the operator resolved.
   */
  lemma UnansweredLineHoldsJob(d: Directory, l: Line)
    requires l in Lines(d) && l.Entry?
    requires l.verdict == Attempted || l.verdict == Failed || l.verdict == Uncertain
    requires forall m <- Lines(d) :: m.Entry? && m.key == l.key ==>
      && m.verdict != Succeeded && m.verdict != RejectedPrewrite
      && (m.verdict == Attempted ==> (m.at, m.key) !in ResolvedBy(d.resolutions))
    ensures OutcomeOf(d).unmatchedAttempts > 0 && OutcomeOf(d).unresolved
  {
    var lines, known, k := Lines(d), ResolvedBy(d.resolutions), l.key;
    CountedLine(Attempt, lines, known, l);
    UncountedKind(Rejection, lines, known, k);
    UncountedKind(Success, lines, known, k);
    UncountedKind(NotPersisted, lines, known, k);
    UncountedKind(Persisted, lines, known, k);
    NothingUnmatched(d);
    assert Shortfall(lines, known, k) > 0;
  }

  // ---- the coarser reader --------------------------------------------------

  /** A record the runner exempts: a user-interface action that explicitly persists nothing. */
  predicate Exempt(l: Line) {
    l.Entry? && (l.verdict == UiActionAttempted || l.verdict == UiActionCompleted) && l.harmless
  }

  /** The loop of `JobRunner._mutation_attempted`. */
  method MutationAttempted(d: Directory) returns (seen: bool)
    ensures seen <==> d.uncertainMarker || d.pendingMarker || exists l <- Lines(d) :: !Exempt(l)
  {
    if d.uncertainMarker || d.pendingMarker {
      return true;
    }
    if d.audit.None? {
      return false;
    }
    var lines := d.audit.value;
    for i := 0 to |lines|
      invariant forall l <- lines[..i] :: Exempt(l)
    {
      assert lines[..i + 1] == lines[..i] + [lines[i]];
      if !Exempt(lines[i]) {
        return true;
      }
    }
    assert lines[..|lines|] == lines;
    return false;
  }

  lemma {:induction false} NothingToCount(kind: Kind, lines: seq<Line>, known: Resolved)
    requires forall l <- lines :: Exempt(l)
    ensures Tally(kind, lines, known) == NoCounts
  {
    if lines != [] {
      assert lines[|lines| - 1] in lines;
      NothingToCount(kind, lines[..|lines| - 1], known);
    }
  }

  /**
   When the coarse reader sees nothing, the precise one reports no attempt, and its
   only remaining ground for "unresolved" is a malformed resolutions file.
   */
  lemma ReadersAgree(d: Directory)
    requires !d.uncertainMarker && !d.pendingMarker && forall l <- Lines(d) :: Exempt(l)
    ensures var o := OutcomeOf(d);
      && !o.hasAttempts && o.attempted == 0 && o.unmatchedAttempts == 0
      && (o.unresolved <==> !ResolutionsOk(d.resolutions))
  {
    NothingToCount(Attempt, Lines(d), ResolvedBy(d.resolutions));
  }

  /** Any other record counts for it: a write, an unreadable line, or an interface action that may persist something. */
  lemma HarmfulLineIsSeen(d: Directory, l: Line)
    requires l in Lines(d)
    requires l.Garbage? || !l.harmless || !(l.verdict == UiActionAttempted || l.verdict == UiActionCompleted)
    ensures d.uncertainMarker || d.pendingMarker || exists m <- Lines(d) :: !Exempt(m)
  {
    assert !Exempt(l);
  }
}
