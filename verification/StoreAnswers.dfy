/**
 What each transaction of the control store answers and does to a job, told from the
 rows it found: the refusals of a start one by one, and the row a job is left with.
 */
module StoreAnswers {
  import opened Wrappers
  import opened ControlStore
  import opened LeasePairing

  // ---- starting a job --------------------------------------------------------

  /** A lease that has not run out is on the event. */
  predicate EventTaken(s: Store, e: EventId, now: int) { e in s.events && s.events[e].expires > now }

  predicate SlotTaken(s: Store, w: Slot, now: int) { w in s.workers && s.workers[w].expires > now }

  /** Waiting, being worked on, done, or of unknown outcome: not to be started. */
  predicate Barred(st: JobState) { st in {Queued, Starting, Running, Stopping, Completed, FailedUncertain} }

  /** The job as a start finds it, once leases that ran out are accounted for. */
  ghost predicate CanStart(s: Store, job: JobId, now: int, evidence: JobId -> Evidence) {
    job in s.jobs && !Barred(Swept(s, now, evidence).jobs[job].state)
  }

  /** The job asks for a slot that does not exist. */
  predicate AsksForNoSlot(row: Job, c: Config) { row.preferred.Some? && !(1 <= row.preferred.value <= c.slots) }

  /** The slot it asks for is taken, or all are. */
  ghost predicate NoSlotFree(s: Store, row: Job, c: Config, now: int) {
    match row.preferred
    case Some(p) => 1 <= p <= c.slots && SlotTaken(s, p, now)
    case None => forall w | 1 <= w <= c.slots :: SlotTaken(s, w, now)
  }

  lemma SweptRows(s: Store, now: int, evidence: JobId -> Evidence)
    ensures var t := Swept(s, now, evidence);
      && t.jobs.Keys == s.jobs.Keys
      && (forall j <- s.jobs :: t.jobs[j].event == s.jobs[j].event && t.jobs[j].preferred == s.jobs[j].preferred)
      && (forall e :: e in t.events <==> EventTaken(s, e, now))
      && (forall w :: w in t.workers <==> SlotTaken(s, w, now))
  {}

  /** The four refusals of a start, each exactly when; the event is looked at before the slots. */
  lemma StartAnswers(s: Store, c: Config, issued: Issued, job: JobId, now: int, token: Token, evidence: JobId -> Evidence)
    requires Paired(s, c, issued)
    ensures var r, can := ReserveNow(s, c, job, now, token, evidence).1, CanStart(s, job, now, evidence);
      && (r == Err(NotStartable) <==> !can)
      && (r == Err(EventBusy) <==> can && EventTaken(s, s.jobs[job].event, now))
      && (r == Err(InvalidSlot) <==>
            can && !EventTaken(s, s.jobs[job].event, now) && AsksForNoSlot(s.jobs[job], c))
      && (r == Err(WorkerBusy) <==>
            can && !EventTaken(s, s.jobs[job].event, now) && NoSlotFree(s, s.jobs[job], c, now))
      && r != Err(IntegrityError)
  {
    SweptRows(s, now, evidence);
    NoConstraintViolation(s, c, issued, job, now, token, evidence, 0, 0);
    if job in s.jobs { SlotAnswers(s, c, issued, s.jobs[job], now, evidence); }
  }

  /** When no slot is chosen, and when there is somebody to name for it. */
  lemma SlotAnswers(s: Store, c: Config, issued: Issued, row: Job, now: int, evidence: JobId -> Evidence)
    requires Paired(s, c, issued)
    ensures var occupied := Swept(s, now, evidence).workers.Keys;
      && (ChooseSlot(row.preferred, c.slots, occupied).None? <==> AsksForNoSlot(row, c) || NoSlotFree(s, row, c, now))
      && (AsksForNoSlot(row, c) ==> !HasBlockers(row.preferred, occupied))
      && (NoSlotFree(s, row, c, now) ==> HasBlockers(row.preferred, occupied))
  {
    var occupied := Swept(s, now, evidence).workers.Keys;
    SweptRows(s, now, evidence);
    forall w <- occupied ensures 1 <= w <= c.slots {
      assert WorkerRowPaired(s, c, w);
    }
    LowestFreeIsLowest(1, c.slots, occupied);
    assert occupied == {} ==> 1 !in occupied;
  }

  /** A start that is refused leaves a job that was not being worked on as it was. */
  lemma RefusalLeavesJob(s: Store, c: Config, issued: Issued, job: JobId, now: int, token: Token,
                         evidence: JobId -> Evidence, j: JobId)
    requires Paired(s, c, issued) && ReserveNow(s, c, job, now, token, evidence).1.Err?
    requires j in s.jobs && !Working(s.jobs[j].state)
    ensures var jobs := ReserveNow(s, c, job, now, token, evidence).0.jobs; j in jobs && jobs[j] == s.jobs[j]
  {
    NoConstraintViolation(s, c, issued, job, now, token, evidence, 0, 0);
    forall e <- s.events ensures s.events[e].holder == j ==> s.jobs[j].state == FailedUncertain {
      assert EventRowPaired(s, issued, e);
    }
    forall w <- s.workers ensures s.workers[w].holder == j ==> s.jobs[j].state == FailedUncertain {
      assert WorkerRowPaired(s, c, w);
      assert EventRowPaired(s, issued, s.jobs[s.workers[w].holder].event);
    }
  }

  /** A start that succeeds: the job is starting under its token and slot, certain again, on a slot that was free. */
  lemma StartedRow(s: Store, c: Config, issued: Issued, job: JobId, now: int, token: Token, evidence: JobId -> Evidence)
    requires Paired(s, c, issued) && ReserveNow(s, c, job, now, token, evidence).1.Ok?
    ensures var (u, r) := ReserveNow(s, c, job, now, token, evidence);
      && job in s.jobs && job in u.jobs
      && u.jobs[job].state == Starting && !u.jobs[job].uncertain
      && u.jobs[job].token == Some(token) && u.jobs[job].slot == Some(r.value.slot)
      && u.jobs[job].event == s.jobs[job].event && u.jobs[job].preferred == s.jobs[job].preferred
      && u.jobs[job].eventKey == s.jobs[job].eventKey
      && r.value.token == token && r.value.event == s.jobs[job].event
      && 1 <= r.value.slot <= c.slots && !SlotTaken(s, r.value.slot, now) && !EventTaken(s, s.jobs[job].event, now)
      && (forall j <- s.jobs | j != job :: u.jobs[j] == Swept(s, now, evidence).jobs[j])
  {
    SweptRows(s, now, evidence);
    ReserveShape(s, c, job, now, token, evidence);
  }

  /** A start that runs into a constraint leaves even the expired rows as they were. */
  lemma ConflictRollsBack(s: Store, c: Config, job: JobId, now: int, token: Token, evidence: JobId -> Evidence)
    ensures var (u, r) := ReserveNow(s, c, job, now, token, evidence);
      && (r == Err(IntegrityError) ==> u == s && HoldsSomeLease(Swept(s, now, evidence), job))
      && (r.Err? && r != Err(IntegrityError) ==> u == Swept(s, now, evidence))
  {}

  // ---- the rows of the other transactions --------------------------------------

  ghost predicate OthersKept(s: Store, u: Store, job: JobId) {
    u.jobs.Keys == s.jobs.Keys && forall j <- s.jobs :: j != job ==> u.jobs[j] == s.jobs[j]
  }

  /** A job marked running shows its process, and nothing else of it changes. */
  lemma RunningRow(s: Store, job: JobId, token: Token, pid: int)
    requires job in s.jobs && MarkRunning(s, job, token, pid).1
    ensures var u := MarkRunning(s, job, token, pid).0;
      && OthersKept(s, u, job) && u.events == s.events && u.workers == s.workers
      && u.jobs[job].state == Running && u.jobs[job].pid == Some(pid)
      && u.jobs[job].slot == s.jobs[job].slot && u.jobs[job].token == s.jobs[job].token
      && u.jobs[job].uncertain == s.jobs[job].uncertain && u.jobs[job].event == s.jobs[job].event
  {}

  /** A finish answers by the state it is given and the token it holds; a finished job shows no process, slot or token. */
  lemma FinishedRow(s: Store, job: JobId, token: Option<Token>, state: JobState, uncertain: bool)
    requires job in s.jobs
    ensures var (u, r) := Finish(s, job, token, state, uncertain);
      && (r == Err(InvalidState) <==> state in {Draft, Queued, Starting, Running, Stopping})
      && (r == Err(PermissionError) <==>
            && state !in {Draft, Queued, Starting, Running, Stopping} && token.Some?
            && (EventRows(s, job, token.value) == {} || WorkerRows(s, job, token.value) == {}))
      && OthersKept(s, u, job)
      && (r.Err? ==> u == s)
      && (r.Ok? ==>
            && u.jobs[job].state == state && u.jobs[job].uncertain == uncertain
            && u.jobs[job].pid.None? && u.jobs[job].slot.None? && u.jobs[job].token.None?
            && u.jobs[job].event == s.jobs[job].event && u.jobs[job].preferred == s.jobs[job].preferred)
  {}

  /** Recovery ends exactly the jobs that were starting, running or stopping, each by its evidence. */
  lemma RecoveredRow(s: Store, evidence: JobId -> Evidence, j: JobId)
    requires j in s.jobs
    ensures j in Recovered(s, evidence).jobs
    ensures var row, e := Recovered(s, evidence).jobs[j], evidence(j);
      if s.jobs[j].state in {Starting, Running, Stopping} then
        && row.state == (if e.unresolved then FailedUncertain else if e.hasAttempts then FailedRecoverable else FailedPrewrite)
        && row.uncertain == e.unresolved && row.pid.None? && row.slot.None? && row.token.None?
        && row.event == s.jobs[j].event && row.preferred == s.jobs[j].preferred
      else row == s.jobs[j]
  {}

  /** A new job is a draft that can be started; a known id or a slot that does not exist changes nothing. */
  lemma CreatedRow(s: Store, c: Config, job: JobId, event: EventId, key: nat, preferred: Option<Slot>)
    ensures var u := CreateJob(s, c, job, event, key, preferred);
      && u.events == s.events && u.workers == s.workers
      && (forall j <- s.jobs :: j in u.jobs && u.jobs[j] == s.jobs[j])
      && (u != s <==> job !in s.jobs && (preferred.None? || 1 <= preferred.value <= c.slots))
      && (u != s ==>
            && job in u.jobs && !Barred(u.jobs[job].state) && u.jobs[job].state == Draft
            && u.jobs[job].event == event && u.jobs[job].eventKey == key && u.jobs[job].preferred == preferred
            && !u.jobs[job].uncertain && u.jobs[job].pid.None? && u.jobs[job].slot.None? && u.jobs[job].token.None?)
  {
    var u := CreateJob(s, c, job, event, key, preferred);
    assert job !in s.jobs && job in u.jobs ==> u.jobs.Keys != s.jobs.Keys;
  }

  // ---- the read-only borrower ----------------------------------------------------

  /** Whatever forbids a readback. */
  ghost predicate ReadbackBarred(s: Store, job: JobId, key: nat)
    requires job in s.jobs
  {
    var row := s.jobs[job];
    || row.state != FailedUncertain || !row.uncertain      // the outcome is known
    || row.pid.Some? || row.slot.Some?                     // something is still attached to the job
    || row.eventKey != key || row.preferred != Some(1)     // not the reviewed job
    || row.event in s.events || 1 in s.workers             // event or worker leased, run out or not
  }

  /**
   A readback starts exactly when nothing forbids it; its lease is good until the time it
   names and leaves the job uncertain and not startable.
   */
  lemma BorrowAnswers(s: Store, c: Config, issued: Issued, job: JobId, key: nat, token: Token, now: int, expires: int)
    requires Paired(s, c, issued)
    ensures var (u, ok) := Borrow(s, job, key, token, now, expires);
      && (ok <==> job in s.jobs && !ReadbackBarred(s, job, key))
      && u.jobs == s.jobs && (!ok ==> u == s)
      && (ok ==>
            && Barred(u.jobs[job].state) && u.jobs[job].uncertain
            && forall at :: ValidEventLease(u, job, token, s.jobs[job].event, at) <==> at < expires)
  {
    HolderRows(s, c, issued, job);
  }
}
