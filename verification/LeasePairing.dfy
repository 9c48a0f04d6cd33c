/**
 What every transaction of the control store keeps: leases come in pairs, one
 event lease and one worker lease, and every working job holds such a pair.
 */
module LeasePairing {
  import opened Wrappers
  import opened ControlStore

  /** The tokens handed out so far: by `reserve_now`, and by the read-only borrower. */
  datatype Issued = Issued(reserved: set<Token>, readers: set<Token>)

  // ---- the invariant -------------------------------------------------------

  predicate Working(st: JobState) { st == Starting || st == Running }

  /** Who may hold a lease: a working job under its own token, or a retained uncertain job under a read token. */
  ghost predicate MayHold(job: Job, l: Lease, issued: Issued) {
    if job.state == FailedUncertain
    then job.uncertain && job.slot.None? && l.token in issued.readers
    else Working(job.state) && job.slot.Some? && job.token == Some(l.token) && l.token in issued.reserved
  }

  function SlotOf(job: Job): Slot {
    if job.state == FailedUncertain then READ_SLOT else if job.slot.Some? then job.slot.value else 0
  }

  ghost predicate EventRowPaired(s: Store, issued: Issued, e: EventId)
    requires e in s.events
  {
    var l := s.events[e];
    && l.holder in s.jobs
    && var job := s.jobs[l.holder];
    && job.event == e && MayHold(job, l, issued)
    && SlotOf(job) in s.workers && s.workers[SlotOf(job)] == l
  }

  ghost predicate WorkerRowPaired(s: Store, c: Config, w: Slot)
    requires w in s.workers
  {
    var l := s.workers[w];
    && 1 <= w <= c.slots
    && l.holder in s.jobs
    && var job := s.jobs[l.holder];
    && SlotOf(job) == w
    && job.event in s.events && s.events[job.event] == l
  }

  /** A working job points at a worker row of its own. */
  ghost predicate WorkerRowOf(s: Store, j: JobId)
    requires j in s.jobs
  {
    Working(s.jobs[j].state) ==>
      && s.jobs[j].slot.Some? && s.jobs[j].slot.value in s.workers
      && s.workers[s.jobs[j].slot.value].holder == j
  }

  ghost predicate EventsPaired(s: Store, issued: Issued) { forall e <- s.events :: EventRowPaired(s, issued, e) }

  ghost predicate WorkersPaired(s: Store, c: Config) { forall w <- s.workers :: WorkerRowPaired(s, c, w) }

  ghost predicate WorkersHold(s: Store) { forall j <- s.jobs :: WorkerRowOf(s, j) }

  ghost predicate TokensDistinct(s: Store) {
    forall e, f | e in s.events && f in s.events && s.events[e].token == s.events[f].token :: e == f
  }

  ghost predicate Paired(s: Store, c: Config, issued: Issued) {
    && c.slots >= 1
    && issued.reserved !! issued.readers
    && EventsPaired(s, issued) && WorkersPaired(s, c) && WorkersHold(s) && TokensDistinct(s)
  }

  /** The pair of a job, read off its event. */
  ghost predicate Holds(s: Store, job: JobId, token: Token) {
    && job in s.jobs && s.jobs[job].event in s.events
    && s.events[s.jobs[job].event].holder == job && s.events[s.jobs[job].event].token == token
  }

  // ---- consequences --------------------------------------------------------

  /**
   The invariant in words: a lease row has exactly one partner in the other table,
   with the same holder, token and expiry; it is on the holder's own event and on a
   slot in 1..N; and the holder is working there or is a retained uncertain job.
   */
  lemma PairingMeaning(s: Store, c: Config, issued: Issued, e: EventId)
    requires Paired(s, c, issued) && e in s.events
    ensures var l := s.events[e];
      && (exists w <- s.workers :: s.workers[w] == l)
      && (forall w, v | w in s.workers && v in s.workers
            && s.workers[w].holder == l.holder && s.workers[v].holder == l.holder :: w == v && 1 <= w <= c.slots)
      && (forall f <- s.events | s.events[f].holder == l.holder :: f == e)
      && l.holder in s.jobs && s.jobs[l.holder].event == e
      && (var job := s.jobs[l.holder];
          || (Working(job.state) && job.token == Some(l.token) && job.slot.Some?
              && job.slot.value in s.workers && s.workers[job.slot.value] == l)
          || (job.state == FailedUncertain && job.uncertain && l.token in issued.readers))
  {
    var l := s.events[e];
    assert s.workers[SlotOf(s.jobs[l.holder])] == l;
  }

  lemma WorkingJobHoldsPair(s: Store, c: Config, issued: Issued, j: JobId)
    requires Paired(s, c, issued) && j in s.jobs && Working(s.jobs[j].state)
    ensures s.jobs[j].token.Some? && Holds(s, j, s.jobs[j].token.value)
    ensures s.jobs[j].token.value in issued.reserved
  {
    assert WorkerRowOf(s, j);
    assert WorkerRowPaired(s, c, s.jobs[j].slot.value);
    assert EventRowPaired(s, issued, s.jobs[j].event);
  }

  /** Rows of a holder exist in one table exactly when they do in the other, and under one token. */
  lemma RowsOfHolder(s: Store, c: Config, issued: Issued, j: JobId, t: Token)
    requires Paired(s, c, issued)
    ensures EventRows(s, j, t) == if Holds(s, j, t) then {s.jobs[j].event} else {}
    ensures WorkerRows(s, j, t) == if Holds(s, j, t) then {SlotOf(s.jobs[j])} else {}
  {
    forall e <- s.events ensures s.events[e].holder == j ==> j in s.jobs && s.jobs[j].event == e {
      assert EventRowPaired(s, issued, e);
    }
    forall w <- s.workers
      ensures s.workers[w].holder == j ==>
        (j in s.jobs && SlotOf(s.jobs[j]) == w && s.jobs[j].event in s.events && s.events[s.jobs[j].event] == s.workers[w])
    {
      assert WorkerRowPaired(s, c, w);
    }
    if Holds(s, j, t) {
      assert EventRowPaired(s, issued, s.jobs[j].event);
    }
  }

  lemma HolderRows(s: Store, c: Config, issued: Issued, j: JobId)
    requires Paired(s, c, issued)
    ensures HoldsSomeLease(s, j) <==>
      j in s.jobs && s.jobs[j].event in s.events && s.events[s.jobs[j].event].holder == j
  {
    forall w <- s.workers | s.workers[w].holder == j
      ensures j in s.jobs && s.jobs[j].event in s.events && s.events[s.jobs[j].event].holder == j
    {
      assert WorkerRowPaired(s, c, w);
    }
  }

  /** A job that holds leases cannot be started, so the UNIQUE constraints never fire. */
  lemma NoConstraintViolation(s: Store, c: Config, issued: Issued, job: JobId, now: int, token: Token,
                              evidence: JobId -> Evidence, key: nat, expires: int)
    requires Paired(s, c, issued)
    ensures ReserveNow(s, c, job, now, token, evidence).1 != Err(IntegrityError)
    ensures Borrow(s, job, key, token, now, expires).1 <==> MayBorrow(s, job, key)
  {
    SweepKeepsPairs(s, c, issued, now, evidence);
    HolderRows(Swept(s, now, evidence), c, issued, job);
    HolderRows(s, c, issued, job);
  }

  // ---- every transaction keeps it ------------------------------------------

  /** Both halves of a pair expire together, and the holder is swept exactly when they do. */
  lemma StaleExactly(s: Store, c: Config, issued: Issued, now: int)
    requires Paired(s, c, issued)
    ensures forall e <- s.events :: s.events[e].holder in StaleHolders(s, now) <==> s.events[e].expires <= now
    ensures forall w <- s.workers :: s.workers[w].holder in StaleHolders(s, now) <==> s.workers[w].expires <= now
  {
    forall e <- s.events
      ensures s.events[e].holder in StaleHolders(s, now) <==> s.events[e].expires <= now
    {
      var l := s.events[e];
      assert EventRowPaired(s, issued, e);
      assert forall f <- s.events | s.events[f].holder == l.holder :: EventRowPaired(s, issued, f) && f == e;
      assert forall w <- s.workers | s.workers[w].holder == l.holder :: WorkerRowPaired(s, c, w) && s.workers[w] == l;
    }
    forall w <- s.workers
      ensures s.workers[w].holder in StaleHolders(s, now) <==> s.workers[w].expires <= now
    {
      assert WorkerRowPaired(s, c, w);
    }
  }

  lemma SweepKeepsPairs(s: Store, c: Config, issued: Issued, now: int, evidence: JobId -> Evidence)
    requires Paired(s, c, issued)
    ensures Paired(Swept(s, now, evidence), c, issued)
    ensures forall j, t :: Holds(Swept(s, now, evidence), j, t) <==>
      Holds(s, j, t) && s.events[s.jobs[j].event].expires > now
  {
    StaleExactly(s, c, issued, now);
    var t := Swept(s, now, evidence);
    forall e <- t.events ensures EventRowPaired(t, issued, e) {
      assert EventRowPaired(s, issued, e);
      assert s.events[e].holder !in StaleHolders(s, now);
    }
    forall w <- t.workers ensures WorkerRowPaired(t, c, w) {
      assert WorkerRowPaired(s, c, w);
      assert s.workers[w].holder !in StaleHolders(s, now);
    }
    forall j <- t.jobs ensures WorkerRowOf(t, j) {
      assert WorkerRowOf(s, j);
      if Working(t.jobs[j].state) {
        var w := s.jobs[j].slot.value;
        assert s.workers[w].holder == j && j !in StaleHolders(s, now);
      }
    }
  }

  lemma ReservedKeepsPairs(s: Store, c: Config, issued: Issued, job: JobId, slot: Slot, l: Lease)
    requires Paired(s, c, issued) && job in s.jobs && Startable(s.jobs[job].state)
    requires s.jobs[job].event !in s.events && slot !in s.workers && 1 <= slot <= c.slots
    requires l.holder == job && l.token !in issued.reserved + issued.readers
    ensures Paired(Reserved(s, job, slot, l), c, issued.(reserved := issued.reserved + {l.token}))
    ensures forall j, t :: Holds(Reserved(s, job, slot, l), j, t) <==> Holds(s, j, t) || (j == job && t == l.token)
  {
    var t := Reserved(s, job, slot, l);
    var more := issued.(reserved := issued.reserved + {l.token});
    forall e <- s.events ensures s.events[e].holder != job {
      assert EventRowPaired(s, issued, e);
    }
    forall w <- s.workers ensures s.workers[w].holder != job {
      assert WorkerRowPaired(s, c, w);
    }
    forall e <- t.events ensures EventRowPaired(t, more, e) {
      assert e in s.events ==> EventRowPaired(s, issued, e);
    }
    forall w <- t.workers ensures WorkerRowPaired(t, c, w) {
      assert w in s.workers ==> WorkerRowPaired(s, c, w);
    }
    forall j <- t.jobs ensures WorkerRowOf(t, j) {
      assert WorkerRowOf(s, j);
    }
    forall e <- s.events ensures s.events[e].token != l.token {
      assert EventRowPaired(s, issued, e);
    }
  }

  /** `reserve_now` is a sweep, followed by at most one insertion of a fresh pair. */
  lemma ReserveShape(s: Store, c: Config, job: JobId, now: int, token: Token, evidence: JobId -> Evidence)
    requires ReserveNow(s, c, job, now, token, evidence).1 != Err(IntegrityError)
    ensures var (u, r), t := ReserveNow(s, c, job, now, token, evidence), Swept(s, now, evidence);
      && (r.Err? ==> u == t)
      && (r.Ok? ==>
            && job in t.jobs && Startable(t.jobs[job].state)
            && t.jobs[job].event !in t.events && r.value.slot !in t.workers && 1 <= r.value.slot <= c.slots
            && u == Reserved(t, job, r.value.slot, Lease(job, token, now, now, now + c.leaseTime)))
  {
    var t := Swept(s, now, evidence);
    if job in t.jobs {
      var choice := ChooseSlot(t.jobs[job].preferred, c.slots, t.workers.Keys);
      if choice.Some? {
        SlotChoice(t.jobs[job].preferred, c.slots, t.workers.Keys, choice.value);
      }
    }
  }

  lemma ReserveKeepsPairs(s: Store, c: Config, issued: Issued, job: JobId, now: int, token: Token,
                          evidence: JobId -> Evidence)
    requires Paired(s, c, issued) && token !in issued.reserved + issued.readers
    ensures var (t, r) := ReserveNow(s, c, job, now, token, evidence);
      && Paired(t, c, if r.Ok? then issued.(reserved := issued.reserved + {token}) else issued)
      && forall j, k :: Holds(t, j, k) <==>
           || (Holds(s, j, k) && s.events[s.jobs[j].event].expires > now)
           || (r.Ok? && j == job && k == token)
  {
    SweepKeepsPairs(s, c, issued, now, evidence);
    NoConstraintViolation(s, c, issued, job, now, token, evidence, 0, 0);
    ReserveShape(s, c, job, now, token, evidence);
    var r := ReserveNow(s, c, job, now, token, evidence).1;
    if r.Ok? {
      ReservedKeepsPairs(Swept(s, now, evidence), c, issued, job, r.value.slot,
                         Lease(job, token, now, now, now + c.leaseTime));
    }
  }

  /** Renewing rows, partners alike, changes neither who holds what nor the pairing. */
  lemma RenewedKeepsPairs(s: Store, t: Store, c: Config, issued: Issued)
    requires Paired(s, c, issued) && t.jobs == s.jobs
    requires t.events.Keys == s.events.Keys && t.workers.Keys == s.workers.Keys
    requires forall e <- s.events :: t.events[e].holder == s.events[e].holder && t.events[e].token == s.events[e].token
    requires forall e, w | e in s.events && w in s.workers && s.events[e] == s.workers[w] :: t.events[e] == t.workers[w]
    ensures Paired(t, c, issued)
    ensures forall j, k :: Holds(t, j, k) <==> Holds(s, j, k)
  {
    forall e <- t.events ensures EventRowPaired(t, issued, e) {
      assert EventRowPaired(s, issued, e);
    }
    forall w <- t.workers ensures WorkerRowPaired(t, c, w) {
      assert WorkerRowPaired(s, c, w);
    }
    forall j <- t.jobs ensures WorkerRowOf(t, j) {
      assert WorkerRowOf(s, j);
      if Working(s.jobs[j].state) { assert WorkerRowPaired(s, c, s.jobs[j].slot.value); }
    }
  }

  /** A heartbeat treats equal rows alike and changes no holder. */
  lemma BeatRenews(s: Store, c: Config, job: JobId, token: Token, now: int)
    ensures var t := Heartbeat(s, c, job, token, now).0;
      && t.jobs == s.jobs && t.events.Keys == s.events.Keys && t.workers.Keys == s.workers.Keys
      && (forall e <- s.events ::
            t.events[e].holder == s.events[e].holder && t.events[e].token == s.events[e].token)
      && (forall e, w | e in s.events && w in s.workers && s.events[e] == s.workers[w] :: t.events[e] == t.workers[w])
  {}

  lemma HeartbeatKeepsPairs(s: Store, c: Config, issued: Issued, job: JobId, token: Token, now: int)
    requires Paired(s, c, issued)
    ensures var (t, ok) := Heartbeat(s, c, job, token, now);
      && Paired(t, c, issued) && t.jobs == s.jobs && (ok <==> Holds(s, job, token))
      && forall j, k :: Holds(t, j, k) <==> Holds(s, j, k)
  {
    RowsOfHolder(s, c, issued, job, token);
    BeatRenews(s, c, job, token, now);
    RenewedKeepsPairs(s, Heartbeat(s, c, job, token, now).0, c, issued);
  }

  /** A working job may be set to running. */
  lemma RunningKeepsPairs(s: Store, c: Config, issued: Issued, job: JobId, pid: int)
    requires Paired(s, c, issued) && job in s.jobs && Working(s.jobs[job].state)
    ensures var t := s.(jobs := s.jobs[job := s.jobs[job].(state := Running, pid := Some(pid))]);
      Paired(t, c, issued) && forall j, k :: Holds(t, j, k) <==> Holds(s, j, k)
  {
    var t := s.(jobs := s.jobs[job := s.jobs[job].(state := Running, pid := Some(pid))]);
    forall e <- t.events ensures EventRowPaired(t, issued, e) {
      assert EventRowPaired(s, issued, e);
    }
    forall w <- t.workers ensures WorkerRowPaired(t, c, w) {
      assert WorkerRowPaired(s, c, w);
    }
    forall j <- t.jobs ensures WorkerRowOf(t, j) {
      assert WorkerRowOf(s, j);
    }
  }

  /** Only a reservation token may mark a job running; see `ReadTokenMustNotMarkRunning`. */
  lemma MarkRunningKeepsPairs(s: Store, c: Config, issued: Issued, job: JobId, token: Token, pid: int)
    requires Paired(s, c, issued) && token !in issued.readers
    ensures var (t, ok) := MarkRunning(s, job, token, pid);
      && Paired(t, c, issued) && (ok <==> Holds(s, job, token))
      && (ok ==> Working(s.jobs[job].state))
      && forall j, k :: Holds(t, j, k) <==> Holds(s, j, k)
  {
    RowsOfHolder(s, c, issued, job, token);
    if Holds(s, job, token) {
      assert EventRowPaired(s, issued, s.jobs[job].event);
      RunningKeepsPairs(s, c, issued, job, pid);
    }
  }

  /** Once both its rows are gone, the state of a job may be set to any finish state. */
  lemma EndedKeepsPairs(s: Store, c: Config, issued: Issued, job: JobId, state: JobState, uncertain: bool)
    requires c.slots >= 1 && issued.reserved !! issued.readers
    requires EventsPaired(s, issued) && WorkersPaired(s, c) && TokensDistinct(s)
    requires forall j <- s.jobs | j != job :: WorkerRowOf(s, j)
    requires forall e <- s.events :: s.events[e].holder != job
    requires FinishState(state)
    ensures Paired(Ended(s, job, state, uncertain), c, issued)
    ensures forall j, k :: Holds(Ended(s, job, state, uncertain), j, k) <==> Holds(s, j, k)
  {
    var t := Ended(s, job, state, uncertain);
    forall e <- t.events ensures EventRowPaired(t, issued, e) {
      assert EventRowPaired(s, issued, e);
    }
    forall w <- t.workers ensures WorkerRowPaired(t, c, w) {
      assert WorkerRowPaired(s, c, w);
    }
    forall j <- t.jobs ensures WorkerRowOf(t, j) {
      assert j != job ==> WorkerRowOf(s, j);
    }
  }

  /** Releasing a holder removes both its rows and nothing else. */
  lemma ReleasedKeepsPairs(s: Store, c: Config, issued: Issued, job: JobId, token: Option<Token>)
    requires Paired(s, c, issued) && (token.Some? ==> Holds(s, job, token.value))
    ensures var t := Released(s, job, token);
      && EventsPaired(t, issued) && WorkersPaired(t, c) && TokensDistinct(t)
      && (forall j <- t.jobs | j != job :: WorkerRowOf(t, j))
      && (forall e <- t.events :: t.events[e].holder != job)
      && (forall j, k :: Holds(t, j, k) <==> Holds(s, j, k) && j != job)
  {
    var t := Released(s, job, token);
    forall e <- s.events ensures e in t.events <==> s.events[e].holder != job {
      assert EventRowPaired(s, issued, e);
    }
    forall w <- s.workers ensures w in t.workers <==> s.workers[w].holder != job {
      assert WorkerRowPaired(s, c, w);
    }
    forall e <- t.events ensures EventRowPaired(t, issued, e) {
      assert EventRowPaired(s, issued, e);
    }
    forall w <- t.workers ensures WorkerRowPaired(t, c, w) {
      assert WorkerRowPaired(s, c, w);
    }
    forall j <- t.jobs | j != job ensures WorkerRowOf(t, j) {
      assert WorkerRowOf(s, j);
    }
  }

  lemma FinishKeepsPairs(s: Store, c: Config, issued: Issued, job: JobId, token: Option<Token>,
                         state: JobState, uncertain: bool)
    requires Paired(s, c, issued)
    ensures var (t, r) := Finish(s, job, token, state, uncertain);
      && Paired(t, c, issued)
      && (r.Ok? <==> FinishState(state) && (token.Some? ==> Holds(s, job, token.value)))
      && (r.Err? ==> t == s)
      && (r.Ok? ==> forall j, k :: Holds(t, j, k) <==> Holds(s, j, k) && j != job)
  {
    if token.Some? { RowsOfHolder(s, c, issued, job, token.value); }
    if Finish(s, job, token, state, uncertain).1.Ok? {
      ReleasedKeepsPairs(s, c, issued, job, token);
      EndedKeepsPairs(Released(s, job, token), c, issued, job, state, uncertain);
    }
  }

  lemma CancelKeepsPairs(s: Store, c: Config, issued: Issued)
    requires Paired(s, c, issued)
    ensures Paired(CancelQueued(s), c, issued)
    ensures forall j, k :: Holds(CancelQueued(s), j, k) <==> Holds(s, j, k)
  {
    var t := CancelQueued(s);
    assert EventsPaired(t, issued);
    assert WorkersPaired(t, c);
    assert WorkersHold(t);
  }

  /** Controller recovery establishes the invariant from any database whatsoever. */
  lemma RecoveryEstablishesPairs(s: Store, c: Config, issued: Issued, evidence: JobId -> Evidence)
    requires c.slots >= 1 && issued.reserved !! issued.readers
    ensures Paired(Recovered(s, evidence), c, issued)
    ensures forall j, k :: !Holds(Recovered(s, evidence), j, k)
  {}

  lemma CreateKeepsPairs(s: Store, c: Config, issued: Issued, job: JobId, event: EventId, key: nat, preferred: Option<Slot>)
    requires Paired(s, c, issued)
    ensures Paired(CreateJob(s, c, job, event, key, preferred), c, issued)
    ensures forall j, k :: Holds(CreateJob(s, c, job, event, key, preferred), j, k) <==> Holds(s, j, k)
  {
    var t := CreateJob(s, c, job, event, key, preferred);
    assert EventsPaired(t, issued);
    assert WorkersPaired(t, c);
    assert WorkersHold(t);
  }

  lemma BorrowKeepsPairs(s: Store, c: Config, issued: Issued, job: JobId, key: nat, token: Token, now: int, expires: int)
    requires Paired(s, c, issued) && token !in issued.reserved + issued.readers
    ensures var (t, ok) := Borrow(s, job, key, token, now, expires);
      && Paired(t, c, if ok then issued.(readers := issued.readers + {token}) else issued) && t.jobs == s.jobs
      && forall j, k :: Holds(t, j, k) <==> Holds(s, j, k) || (ok && j == job && k == token)
  {
    var (t, ok) := Borrow(s, job, key, token, now, expires);
    if ok {
      var more := issued.(readers := issued.readers + {token});
      assert EventsPaired(t, more);
      assert WorkersPaired(t, c);
      assert WorkersHold(t);
      assert TokensDistinct(t);
    }
  }

  lemma ReturnKeepsPairs(s: Store, c: Config, issued: Issued, job: JobId, token: Token)
    requires Paired(s, c, issued) && token in issued.readers
    ensures Paired(Return(s, job, token), c, issued)
    ensures forall j, k :: Holds(Return(s, job, token), j, k) <==> Holds(s, j, k) && !(j == job && k == token)
  {
    var t := Return(s, job, token);
    if Holds(s, job, token) {
      ReleasedKeepsPairs(s, c, issued, job, Some(token));
      assert EventRowPaired(s, issued, s.jobs[job].event);
      assert s.jobs[job].state == FailedUncertain;
      assert WorkersHold(t);
    } else {
      RowsOfHolder(s, c, issued, job, token);
      NothingReleased(s, job, token);
    }
  }

  lemma NothingReleased(s: Store, job: JobId, token: Token)
    requires EventRows(s, job, token) == {} && WorkerRows(s, job, token) == {}
    ensures Released(s, job, Some(token)) == s
  {
    var t := Released(s, job, Some(token));
    assert forall e <- s.events :: e !in EventRows(s, job, token);
    assert forall w <- s.workers :: w !in WorkerRows(s, job, token);
    assert t.events == s.events && t.workers == s.workers;
  }

  /** For one event at most one (job, token) pair validates, and one token validates for one event only. */
  lemma OneValidPair(s: Store, c: Config, issued: Issued, e: EventId, f: EventId,
                     j: JobId, k: JobId, t: Token, u: Token, now: int)
    requires Paired(s, c, issued)
    requires ValidEventLease(s, j, t, e, now) && ValidEventLease(s, k, u, f, now)
    ensures e == f ==> j == k && t == u
    ensures t == u ==> e == f && j == k
    ensures j == k ==> e == f && t == u
  {}

  /** An expired lease that nothing has swept is revived by its own heartbeat. */
  lemma ExpiredLeaseIsRevived(s: Store, c: Config, issued: Issued, j: JobId, t: Token, now: int)
    requires Paired(s, c, issued) && Holds(s, j, t) && c.leaseTime > 0
    requires s.events[s.jobs[j].event].expires <= now
    ensures !ValidEventLease(s, j, t, s.jobs[j].event, now)
    ensures var (u, ok) := Heartbeat(s, c, j, t, now); ok && ValidEventLease(u, j, t, s.jobs[j].event, now)
  {
    HeartbeatKeepsPairs(s, c, issued, j, t, now);
  }

  /** Marking a job running with a read token would break the pairing and the retained uncertainty. */
  lemma ReadTokenMustNotMarkRunning(c: Config)
    requires c.slots >= 1
    ensures exists s: Store, j: JobId, t: Token ::
      && Paired(s, c, Issued({}, {t})) && Holds(s, j, t)
      && s.jobs[j].state == FailedUncertain && s.jobs[j].uncertain
      && MarkRunning(s, j, t, 1).1 && !Paired(MarkRunning(s, j, t, 1).0, c, Issued({}, {t}))
  {
    var job := Job(7, 7, Some(READ_SLOT), FailedUncertain, None, None, None, true);
    var l := Lease(3, 9, 0, 0, 30);
    var s := Store(map[3 := job], map[7 := l], map[READ_SLOT := l]);
    assert Paired(s, c, Issued({}, {9}));
    assert READ_SLOT in WorkerRows(s, 3, 9);
    var t := MarkRunning(s, 3, 9, 1).0;
    assert Working(t.jobs[3].state) && t.jobs[3].slot.None?;
    assert !WorkersHold(t);
    assert Holds(s, 3, 9);
  }
}
