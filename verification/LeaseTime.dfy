/**
 How long leases last (`lease_seconds` of `control_store.py`): from a reservation or a
 heartbeat for the length of the lease, over whole runs of arbitrary callers.
 */
module LeaseTime {
  import opened Wrappers
  import opened ControlStore
  import opened LeasePairing
  import opened LeaseRuns

  /** The pair is held, and both its rows run out at this instant. */
  ghost predicate RunsOutAt(s: Store, j: JobId, t: Token, expires: int) {
    && Holds(s, j, t) && s.events[s.jobs[j].event].expires == expires
    && SlotOf(s.jobs[j]) in s.workers && s.workers[SlotOf(s.jobs[j])] == s.events[s.jobs[j].event]
  }

  lemma HeldPairRunsOut(s: Store, c: Config, issued: Issued, j: JobId, t: Token)
    requires Paired(s, c, issued) && Holds(s, j, t)
    ensures RunsOutAt(s, j, t, s.events[s.jobs[j].event].expires)
  {
    assert EventRowPaired(s, issued, s.jobs[j].event);
  }

  /** What the guard asks of such a lease: it is valid before that instant and not from it on. */
  lemma ValidUntil(s: Store, j: JobId, t: Token, expires: int, at: int)
    requires RunsOutAt(s, j, t, expires)
    ensures ValidEventLease(s, j, t, s.jobs[j].event, at) <==> at < expires
  {}

  /** A holder's heartbeat makes its lease valid for one length of the lease, in both tables. */
  lemma BeatLasts(s: Store, c: Config, issued: Issued, j: JobId, t: Token, now: int)
    requires Paired(s, c, issued) && Holds(s, j, t)
    ensures var (u, ok) := Heartbeat(s, c, j, t, now);
      && ok && RunsOutAt(u, j, t, now + c.leaseTime)
      && u.events[s.jobs[j].event].heartbeat == now
      && u.events[s.jobs[j].event].acquired == s.events[s.jobs[j].event].acquired
      && forall at :: ValidEventLease(u, j, t, s.jobs[j].event, at) <==> at < now + c.leaseTime
  {
    HeartbeatKeepsPairs(s, c, issued, j, t, now);
    HeldPairRunsOut(Heartbeat(s, c, j, t, now).0, c, issued, j, t);
  }

  /** So does a reservation, and its answer names that instant. */
  lemma ReservationLasts(s: Store, c: Config, issued: Issued, job: JobId, now: int, token: Token, evidence: JobId -> Evidence)
    requires Paired(s, c, issued) && token !in issued.reserved + issued.readers
    requires ReserveNow(s, c, job, now, token, evidence).1.Ok?
    ensures var (u, r) := ReserveNow(s, c, job, now, token, evidence);
      && RunsOutAt(u, job, token, now + c.leaseTime) && r.value.expires == now + c.leaseTime
      && r.value.token == token && r.value.event == u.jobs[job].event && u.jobs[job].slot == Some(r.value.slot)
      && forall at :: ValidEventLease(u, job, token, r.value.event, at) <==> at < now + c.leaseTime
  {
    ReserveKeepsPairs(s, c, issued, job, now, token, evidence);
    ReserveShape(s, c, job, now, token, evidence);
  }

  // ---- over whole runs -------------------------------------------------------

  /** When the holder last renewed its lease, if it did so in these operations. */
  function LastBeat(ops: seq<Op>, j: JobId, t: Token, since: int): int
    decreases |ops|
  {
    if ops == [] then since
    else
      var last := ops[|ops| - 1];
      if last.Beat? && last.job == j && last.token == t then last.now else LastBeat(ops[..|ops| - 1], j, t, since)
  }

  /** Operations that end a lease whatever the time. */
  predicate Releases(op: Op, j: JobId, t: Token) {
    || (op.Finishing? && op.job == j && FinishState(op.state) && (op.held == None || op.held == Some(t)))
    || (op.Returning? && op.job == j && op.token == t)
    || op.Recovering?
  }

  /** Every reservation comes less than one length of the lease after the last renewal. */
  predicate InTime(c: Config, ops: seq<Op>, j: JobId, t: Token, since: int) {
    forall i | 0 <= i < |ops| && ops[i].Reserve? :: ops[i].now < LastBeat(ops[..i], j, t, since) + c.leaseTime
  }

  lemma LaterInTime(c: Config, ops: seq<Op>, j: JobId, t: Token, since: int)
    requires ops != []
    ensures var front, last := ops[..|ops| - 1], ops[|ops| - 1];
      InTime(c, ops, j, t, since) <==>
        InTime(c, front, j, t, since) && (last.Reserve? ==> last.now < LastBeat(front, j, t, since) + c.leaseTime)
  {
    var front := ops[..|ops| - 1];
    assert forall i | 0 <= i < |front| :: ops[i] == front[i] && ops[..i] == front[..i];
    assert ops[..|front|] == front;
  }

  /** An operation that leaves a lease held moves its end only when it is the holder's heartbeat. */
  lemma ExpiryMoves(w: World, c: Config, op: Op, j: JobId, t: Token)
    requires Paired(w.store, c, w.issued) && Allowed(w, op) && Holds(w.store, j, t) && Holds(Apply(w, c, op).store, j, t)
    ensures var s, u := w.store, Apply(w, c, op).store;
      u.events[u.jobs[j].event].expires ==
        if op.Beat? && op.job == j && op.token == t then op.now + c.leaseTime else s.events[s.jobs[j].event].expires
  {
    OpKeepsEvent(w, c, op, j);
    assert EventRowPaired(w.store, w.issued, w.store.jobs[j].event);
    if op.Reserve? {
      NoConstraintViolation(w.store, c, w.issued, op.job, op.now, op.token, op.evidence, 0, 0);
      ReserveShape(w.store, c, op.job, op.now, op.token, op.evidence);
    }
  }

  /**
   Over every run: a lease that nobody releases is held exactly as long as every
   reservation, of whatever job, comes less than one length of the lease after the
   holder's last heartbeat; it then ends one length after that heartbeat.  The first
   reservation that comes later ends it for good.
   */
  lemma {:induction false} HeldWhileBeaten(w: World, c: Config, ops: seq<Op>, j: JobId, t: Token, since: int)
    requires Paired(w.store, c, w.issued) && After(w, c, ops).Some?
    requires RunsOutAt(w.store, j, t, since + c.leaseTime) && forall op <- ops :: !Releases(op, j, t)
    ensures var v := After(w, c, ops).value;
      if InTime(c, ops, j, t, since) then RunsOutAt(v.store, j, t, LastBeat(ops, j, t, since) + c.leaseTime)
      else Spent(v, t)
    decreases |ops|
  {
    if ops != [] {
      var front, last := ops[..|ops| - 1], ops[|ops| - 1];
      assert last in ops && forall op <- front :: op in ops;
      HeldWhileBeaten(w, c, front, j, t, since);
      RunKeepsPairs(w, c, front);
      LaterInTime(c, ops, j, t, since);
      var v := After(w, c, front).value;
      if InTime(c, front, j, t, since) {
        NextOperation(v, c, last, j, t, LastBeat(front, j, t, since) + c.leaseTime);
      } else {
        SpentStaysSpent(v, c, last, t);
      }
    }
  }

  lemma NextOperation(v: World, c: Config, op: Op, j: JobId, t: Token, expires: int)
    requires Paired(v.store, c, v.issued) && Allowed(v, op) && RunsOutAt(v.store, j, t, expires) && !Releases(op, j, t)
    ensures var u := Apply(v, c, op);
      if op.Reserve? && expires <= op.now then Spent(u, t)
      else RunsOutAt(u.store, j, t, if op.Beat? && op.job == j && op.token == t then op.now + c.leaseTime else expires)
  {
    LeaseEnds(v, c, op, j, t);
    if op.Reserve? && expires <= op.now {
      EndOfLeaseSpendsToken(v, c, op, j, t);
    } else {
      ApplyKeepsPairs(v, c, op);
      HeldPairRunsOut(Apply(v, c, op).store, c, Apply(v, c, op).issued, j, t);
      ExpiryMoves(v, c, op, j, t);
    }
  }

  /** The reservation that finds a lease run out ends the work under it by the evidence. */
  lemma ExpiryEndsWork(w: World, c: Config, op: Op, j: JobId, t: Token)
    requires Paired(w.store, c, w.issued) && Allowed(w, op) && Holds(w.store, j, t) && Working(w.store.jobs[j].state)
    requires op.Reserve? && op.job != j && w.store.events[w.store.jobs[j].event].expires <= op.now
    ensures j in Apply(w, c, op).store.jobs
    ensures var row := Apply(w, c, op).store.jobs[j];
      && row.state == InterruptedState(op.evidence(j)) && row.uncertain == op.evidence(j).unresolved
      && row.token.None? && row.slot.None? && row.pid.None?
  {
    NoConstraintViolation(w.store, c, w.issued, op.job, op.now, op.token, op.evidence, 0, 0);
    ReserveShape(w.store, c, op.job, op.now, op.token, op.evidence);
    StaleExactly(w.store, c, w.issued, op.now);
  }
}
