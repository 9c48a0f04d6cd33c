/** Whole runs of the control store under arbitrary callers, and its tokens over time. */
module LeaseRuns {
  import opened Wrappers
  import opened ControlStore
  import opened LeasePairing

  // ---- whole runs of arbitrary callers -------------------------------------

  datatype Op =
    | Create(job: JobId, event: EventId, key: nat, preferred: Option<Slot>)
    | Reserve(job: JobId, now: int, token: Token, evidence: JobId -> Evidence)
    | Beat(job: JobId, token: Token, now: int)
    | Mark(job: JobId, token: Token, pid: int)
    | Finishing(job: JobId, held: Option<Token>, state: JobState, uncertain: bool)
    | Cancelling
    | Recovering(evidence: JobId -> Evidence)
    | Borrowing(job: JobId, key: nat, token: Token, now: int, expires: int)
    | Returning(job: JobId, token: Token)

  datatype World = World(store: Store, issued: Issued)

  ghost predicate Allowed(w: World, op: Op) {
    match op
    case Reserve(_, _, token, _) => token !in w.issued.reserved + w.issued.readers
    case Borrowing(_, _, token, _, _) => token !in w.issued.reserved + w.issued.readers
    case Mark(_, token, _) => token !in w.issued.readers
    case Returning(_, token) => token in w.issued.readers
    case _ => true
  }

  ghost function Apply(w: World, c: Config, op: Op): World {
    var s := w.store;
    match op
    case Create(job, event, key, preferred) => w.(store := CreateJob(s, c, job, event, key, preferred))
    case Reserve(job, now, token, evidence) =>
      var (t, r) := ReserveNow(s, c, job, now, token, evidence);
      World(t, if r.Ok? then w.issued.(reserved := w.issued.reserved + {token}) else w.issued)
    case Beat(job, token, now) => w.(store := Heartbeat(s, c, job, token, now).0)
    case Mark(job, token, pid) => w.(store := MarkRunning(s, job, token, pid).0)
    case Finishing(job, held, state, uncertain) => w.(store := Finish(s, job, held, state, uncertain).0)
    case Cancelling => w.(store := CancelQueued(s))
    case Recovering(evidence) => w.(store := Recovered(s, evidence))
    case Borrowing(job, key, token, now, expires) =>
      var (t, ok) := Borrow(s, job, key, token, now, expires);
      World(t, if ok then w.issued.(readers := w.issued.readers + {token}) else w.issued)
    case Returning(job, token) => w.(store := Return(s, job, token))
  }

  lemma ApplyKeepsPairs(w: World, c: Config, op: Op)
    requires Paired(w.store, c, w.issued) && Allowed(w, op)
    ensures Paired(Apply(w, c, op).store, c, Apply(w, c, op).issued)
  {
    match op
    case Create(job, event, key, preferred) => CreateKeepsPairs(w.store, c, w.issued, job, event, key, preferred);
    case Reserve(job, now, token, evidence) => ReserveKeepsPairs(w.store, c, w.issued, job, now, token, evidence);
    case Beat(job, token, now) => HeartbeatKeepsPairs(w.store, c, w.issued, job, token, now);
    case Mark(job, token, pid) => MarkRunningKeepsPairs(w.store, c, w.issued, job, token, pid);
    case Finishing(job, held, state, uncertain) => FinishKeepsPairs(w.store, c, w.issued, job, held, state, uncertain);
    case Cancelling => CancelKeepsPairs(w.store, c, w.issued);
    case Recovering(evidence) => RecoveryEstablishesPairs(w.store, c, w.issued, evidence);
    case Borrowing(job, key, token, now, expires) =>
      BorrowKeepsPairs(w.store, c, w.issued, job, key, token, now, expires);
    case Returning(job, token) => ReturnKeepsPairs(w.store, c, w.issued, job, token);
  }

  /** A run, oldest operation first, every one allowed when it is made. */
  ghost function After(start: World, c: Config, ops: seq<Op>): Option<World>
    decreases |ops|
  {
    if ops == [] then Some(start)
    else
      var before := After(start, c, ops[..|ops| - 1]);
      if before.Some? && Allowed(before.value, ops[|ops| - 1])
      then Some(Apply(before.value, c, ops[|ops| - 1])) else None
  }

  /** Start-up on any old database: the controller recovers before it serves anything. */
  ghost function StartUp(database: Store, evidence: JobId -> Evidence): World {
    World(Recovered(database, evidence), Issued({}, {}))
  }

  /** Leases are paired in every state of every run after start-up. */
  lemma {:induction false} PairingOverRuns(database: Store, evidence: JobId -> Evidence, c: Config, ops: seq<Op>)
    requires c.slots >= 1
    ensures var w := After(StartUp(database, evidence), c, ops);
      w.Some? ==> Paired(w.value.store, c, w.value.issued)
    decreases |ops|
  {
    if ops == [] {
      RecoveryEstablishesPairs(database, c, Issued({}, {}), evidence);
    } else {
      PairingOverRuns(database, evidence, c, ops[..|ops| - 1]);
      var before := After(StartUp(database, evidence), c, ops[..|ops| - 1]);
      if before.Some? && Allowed(before.value, ops[|ops| - 1]) {
        ApplyKeepsPairs(before.value, c, ops[|ops| - 1]);
      }
    }
  }

  // ---- tokens over time ----------------------------------------------------

  ghost predicate Spent(w: World, t: Token) {
    && t in w.issued.reserved + w.issued.readers
    && (forall e <- w.store.events :: w.store.events[e].token != t)
    && (forall v <- w.store.workers :: w.store.workers[v].token != t)
  }

  lemma SpentStaysSpent(w: World, c: Config, op: Op, t: Token)
    requires Spent(w, t) && Allowed(w, op)
    ensures Spent(Apply(w, c, op), t)
  {
    match op
    case Reserve(job, now, token, evidence) =>
      var s := Swept(w.store, now, evidence);
      assert forall e <- s.events :: s.events[e].token != t;
      assert forall v <- s.workers :: s.workers[v].token != t;
    case _ =>
  }

  /** A spent token never validates and never heartbeats again, whatever happens next. */
  lemma {:induction false} SpentForEver(w: World, c: Config, ops: seq<Op>, t: Token, job: JobId, event: EventId, now: int)
    requires Spent(w, t) && After(w, c, ops).Some?
    ensures var u := After(w, c, ops).value;
      && Spent(u, t)
      && !ValidEventLease(u.store, job, t, event, now)
      && !Heartbeat(u.store, c, job, t, now).1
    decreases |ops|
  {
    if ops != [] {
      var front := ops[..|ops| - 1];
      SpentForEver(w, c, front, t, job, event, now);
      SpentStaysSpent(After(w, c, front).value, c, ops[|ops| - 1], t);
    }
    var u := After(w, c, ops).value;
    assert EventRows(u.store, job, t) == {};
  }

  /** The operations that end a lease: its own finish or a finish without a token, its return, recovery, or expiry. */
  ghost predicate EndsLease(w: World, op: Op, job: JobId, t: Token)
    requires Holds(w.store, job, t)
  {
    match op
    case Finishing(j, held, state, _) => j == job && FinishState(state) && (held == None || held == Some(t))
    case Returning(j, token) => j == job && token == t
    case Recovering(_) => true
    case Reserve(_, now, _, _) => w.store.events[w.store.jobs[job].event].expires <= now
    case _ => false
  }

  /** A held pair goes with one of those operations, and with no other operation of any caller. */
  lemma LeaseEnds(w: World, c: Config, op: Op, job: JobId, t: Token)
    requires Paired(w.store, c, w.issued) && Allowed(w, op) && Holds(w.store, job, t)
    ensures Holds(Apply(w, c, op).store, job, t) <==> !EndsLease(w, op, job, t)
  {
    match op
    case Create(j, event, key, preferred) => CreateKeepsPairs(w.store, c, w.issued, j, event, key, preferred);
    case Reserve(j, now, token, evidence) =>
      assert w.store.events[w.store.jobs[job].event].token != token by {
        assert EventRowPaired(w.store, w.issued, w.store.jobs[job].event);
      }
      ReserveKeepsPairs(w.store, c, w.issued, j, now, token, evidence);
    case Beat(j, token, now) => HeartbeatKeepsPairs(w.store, c, w.issued, j, token, now);
    case Mark(j, token, pid) => MarkRunningKeepsPairs(w.store, c, w.issued, j, token, pid);
    case Finishing(j, held, state, uncertain) => FinishKeepsPairs(w.store, c, w.issued, j, held, state, uncertain);
    case Cancelling => CancelKeepsPairs(w.store, c, w.issued);
    case Recovering(evidence) => RecoveryEstablishesPairs(w.store, c, w.issued, evidence);
    case Borrowing(j, key, token, now, expires) => BorrowKeepsPairs(w.store, c, w.issued, j, key, token, now, expires);
    case Returning(j, token) => ReturnKeepsPairs(w.store, c, w.issued, j, token);
  }

  /** Operation `i` of a run finds this lease held and ends it. */
  ghost predicate EndedAt(w: World, c: Config, ops: seq<Op>, i: nat, job: JobId, t: Token)
    requires i < |ops|
  {
    var before := After(w, c, ops[..i]);
    before.Some? && Holds(before.value.store, job, t) && EndsLease(before.value, ops[i], job, t)
  }

  lemma {:induction false} RunKeepsPairs(w: World, c: Config, ops: seq<Op>)
    requires Paired(w.store, c, w.issued) && After(w, c, ops).Some?
    ensures var v := After(w, c, ops).value; Paired(v.store, c, v.issued)
    decreases |ops|
  {
    if ops != [] {
      RunKeepsPairs(w, c, ops[..|ops| - 1]);
      ApplyKeepsPairs(After(w, c, ops[..|ops| - 1]).value, c, ops[|ops| - 1]);
    }
  }

  lemma {:induction false} LeaseLasts(w: World, c: Config, ops: seq<Op>, job: JobId, t: Token)
    requires Paired(w.store, c, w.issued) && After(w, c, ops).Some? && Holds(w.store, job, t)
    ensures Holds(After(w, c, ops).value.store, job, t) || exists i | 0 <= i < |ops| :: EndedAt(w, c, ops, i, job, t)
    decreases |ops|
  {
    if ops != [] {
      var front := ops[..|ops| - 1];
      LeaseLasts(w, c, front, job, t);
      RunKeepsPairs(w, c, front);
      var v := After(w, c, front).value;
      if Holds(v.store, job, t) {
        LeaseEnds(v, c, ops[|front|], job, t);
        assert EndsLease(v, ops[|front|], job, t) ==> EndedAt(w, c, ops, |front|, job, t);
      } else {
        var i :| 0 <= i < |front| && EndedAt(w, c, front, i, job, t);
        assert front[..i] == ops[..i];
        assert EndedAt(w, c, ops, i, job, t);
      }
    }
  }

  /**
   One writer: when the guard admits two writes on one event, at different moments of
   a run and by whatever clock each reads, they are under one job and one token, or
   the first lease was ended in between.
   */
  lemma SingleWriter(w: World, c: Config, ops: seq<Op>, event: EventId,
                     j: JobId, t: Token, first: int, k: JobId, u: Token, second: int)
    requires Paired(w.store, c, w.issued) && After(w, c, ops).Some?
    requires ValidEventLease(w.store, j, t, event, first)
    requires ValidEventLease(After(w, c, ops).value.store, k, u, event, second)
    ensures (j == k && t == u) || exists i | 0 <= i < |ops| :: EndedAt(w, c, ops, i, j, t)
  {
    var v := After(w, c, ops).value;
    assert EventRowPaired(w.store, w.issued, event);
    LeaseLasts(w, c, ops, j, t);
    RunKeepsPairs(w, c, ops);
    if Holds(v.store, j, t) {
      EventStays(w, c, ops, j);
    }
  }

  /** A job keeps its event. */
  lemma {:induction false} EventStays(w: World, c: Config, ops: seq<Op>, j: JobId)
    requires After(w, c, ops).Some? && j in w.store.jobs
    ensures var v := After(w, c, ops).value; j in v.store.jobs && v.store.jobs[j].event == w.store.jobs[j].event
    decreases |ops|
  {
    if ops != [] {
      EventStays(w, c, ops[..|ops| - 1], j);
      OpKeepsEvent(After(w, c, ops[..|ops| - 1]).value, c, ops[|ops| - 1], j);
    }
  }

  lemma OpKeepsEvent(w: World, c: Config, op: Op, j: JobId)
    requires j in w.store.jobs
    ensures var jobs := Apply(w, c, op).store.jobs; j in jobs && jobs[j].event == w.store.jobs[j].event
  {}

  /** Releasing, returning, clearing or sweeping a lease spends its token. */
  lemma EndOfLeaseSpendsToken(w: World, c: Config, op: Op, job: JobId, t: Token)
    requires Paired(w.store, c, w.issued) && Allowed(w, op) && Holds(w.store, job, t)
    requires EndsLease(w, op, job, t)
    ensures Spent(Apply(w, c, op), t)
  {
    assert EventRowPaired(w.store, w.issued, w.store.jobs[job].event);
    LeaseEnds(w, c, op, job, t);
    NobodyElseHolds(w, c, op, job, t);
  }

  /** A row under a token issued earlier was there before. */
  lemma OldRows(w: World, c: Config, op: Op, e: EventId)
    requires Allowed(w, op)
    requires e in Apply(w, c, op).store.events
    requires Apply(w, c, op).store.events[e].token in w.issued.reserved + w.issued.readers
    ensures e in w.store.events
    ensures var l, m := w.store.events[e], Apply(w, c, op).store.events[e]; l.token == m.token && l.holder == m.holder
  {
    match op
    case Reserve(job, now, token, evidence) =>
      if ReserveNow(w.store, c, job, now, token, evidence).1 != Err(IntegrityError) {
        ReserveShape(w.store, c, job, now, token, evidence);
      }
    case _ =>
  }

  lemma NobodyElseHolds(w: World, c: Config, op: Op, job: JobId, t: Token)
    requires Paired(w.store, c, w.issued) && Allowed(w, op) && Holds(w.store, job, t)
    requires !op.Create? && !op.Borrowing? && !Holds(Apply(w, c, op).store, job, t)
    ensures forall e <- Apply(w, c, op).store.events :: Apply(w, c, op).store.events[e].token != t
    ensures forall v <- Apply(w, c, op).store.workers :: Apply(w, c, op).store.workers[v].token != t
  {
    var u := Apply(w, c, op);
    ApplyKeepsPairs(w, c, op);
    assert t in w.issued.reserved + w.issued.readers by {
      assert EventRowPaired(w.store, w.issued, w.store.jobs[job].event);
    }
    forall e <- u.store.events ensures u.store.events[e].token != t {
      assert EventRowPaired(u.store, u.issued, e);
      if u.store.events[e].token == t {
        OldRows(w, c, op, e);
      }
    }
    forall v <- u.store.workers ensures u.store.workers[v].token != t {
      assert WorkerRowPaired(u.store, c, v);
    }
  }
}
