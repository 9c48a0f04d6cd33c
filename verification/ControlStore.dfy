/**
 The crash-safe control store (`control_store.py`): jobs, event leases and worker
 leases, and the atomic transactions over them, plus the operator's read-only
 borrower (`readonly_lease`).

 Every `BEGIN IMMEDIATE` block is one transition.  Instants are integers: module
 `Timestamps` shows that the stored text compares the same way.
 */
module ControlStore {
  import opened Wrappers

  // ---- rows ----------------------------------------------------------------

  type JobId = nat
  type EventId = nat
  type Token = nat
  type Slot = int

  datatype JobState =
    | Draft | Queued | Starting | Running | LoginRequired | Stopping
    | Completed | ReviewRequired | Failed | FailedPrewrite | FailedRecoverable | FailedUncertain | Cancelled

  predicate Startable(st: JobState) {
    st in {Draft, LoginRequired, ReviewRequired, Failed, FailedPrewrite, FailedRecoverable, Cancelled}
  }

  /** States that recovery and expiry reclassify. */
  predicate Interruptible(st: JobState) { st in {Starting, Running, Stopping} }

  /** States a run may end in. */
  predicate FinishState(st: JobState) {
    st in {Completed, ReviewRequired, Failed, FailedPrewrite, FailedRecoverable, FailedUncertain, Cancelled, LoginRequired}
  }

  datatype Job = Job(event: EventId, eventKey: nat, preferred: Option<Slot>, state: JobState,
                     slot: Option<Slot>, pid: Option<int>, token: Option<Token>, uncertain: bool)

  datatype Lease = Lease(holder: JobId, token: Token, acquired: int, heartbeat: int, expires: int)

  /** The three tables; the primary keys are the map keys. */
  datatype Store = Store(jobs: map<JobId, Job>, events: map<EventId, Lease>, workers: map<Slot, Lease>)

  /** `slots` worker slots 1..slots; leases run for `leaseTime` after each heartbeat. */
  datatype Config = Config(slots: int, leaseTime: int)

  /** The two facts of `mutation_outcome` that decide how an interrupted job is classified. */
  datatype Evidence = Evidence(unresolved: bool, hasAttempts: bool)

  function InterruptedState(e: Evidence): JobState {
    if e.unresolved then FailedUncertain else if e.hasAttempts then FailedRecoverable else FailedPrewrite
  }

  function Interrupted(job: Job, e: Evidence): Job {
    job.(state := InterruptedState(e), uncertain := e.unresolved, pid := None, slot := None, token := None)
  }

  function Reclassified(job: Job, e: Evidence): Job {
    if Interruptible(job.state) then Interrupted(job, e) else job
  }

  // ---- unique holders ------------------------------------------------------

  /** `holder_job_id` is UNIQUE in both lease tables; an insert that repeats it fails. */
  predicate HoldsSomeLease(s: Store, job: JobId) {
    (exists e <- s.events :: s.events[e].holder == job) || (exists w <- s.workers :: s.workers[w].holder == job)
  }

  function EventRows(s: Store, job: JobId, token: Token): set<EventId> {
    set e | e in s.events && s.events[e].holder == job && s.events[e].token == token
  }

  function WorkerRows(s: Store, job: JobId, token: Token): set<Slot> {
    set w | w in s.workers && s.workers[w].holder == job && s.workers[w].token == token
  }

  // ---- `_expire_stale` -----------------------------------------------------

  function StaleHolders(s: Store, now: int): set<JobId> {
    (set e | e in s.events && s.events[e].expires <= now :: s.events[e].holder)
      + (set w | w in s.workers && s.workers[w].expires <= now :: s.workers[w].holder)
  }

  function SweptJobs(jobs: map<JobId, Job>, stale: set<JobId>, evidence: JobId -> Evidence): map<JobId, Job> {
    map j | j in jobs :: if j in stale then Reclassified(jobs[j], evidence(j)) else jobs[j]
  }

  function Swept(s: Store, now: int, evidence: JobId -> Evidence): Store {
    Store(
      SweptJobs(s.jobs, StaleHolders(s, now), evidence),
      map e | e in s.events && s.events[e].expires > now :: s.events[e],
      map w | w in s.workers && s.workers[w].expires > now :: s.workers[w])
  }

  // ---- `reserve_now` -------------------------------------------------------

  datatype Refusal = NotStartable | EventBusy | WorkerBusy | InvalidSlot | IntegrityError

  datatype Reservation = Reservation(slot: Slot, token: Token, event: EventId, expires: int)

  /** The lowest free slot from `from` on. */
  function LowestFree(from: int, slots: int, occupied: set<Slot>): Option<Slot>
    decreases slots - from
  {
    if from > slots then None
    else if from !in occupied then Some(from)
    else LowestFree(from + 1, slots, occupied)
  }

  function ChooseSlot(preferred: Option<Slot>, slots: int, occupied: set<Slot>): Option<Slot> {
    match preferred
    case Some(p) => if 1 <= p <= slots && p !in occupied then Some(p) else None
    case None => LowestFree(1, slots, occupied)
  }

  /** A refused slot has blockers to name, unless the wanted slot is not a slot at all. */
  predicate HasBlockers(preferred: Option<Slot>, occupied: set<Slot>) {
    match preferred
    case Some(p) => p in occupied
    case None => occupied != {}
  }

  function Reserved(s: Store, job: JobId, slot: Slot, lease: Lease): Store
    requires job in s.jobs
  {
    var row := s.jobs[job];
    Store(
      s.jobs[job := row.(state := Starting, slot := Some(slot), token := Some(lease.token), uncertain := false)],
      s.events[row.event := lease],
      s.workers[slot := lease])
  }

  function ReserveNow(s: Store, c: Config, job: JobId, now: int, token: Token, evidence: JobId -> Evidence)
    : (Store, Result<Reservation, Refusal>)
  {
    var t := Swept(s, now, evidence);
    if job !in t.jobs || !Startable(t.jobs[job].state) then (t, Err(NotStartable))
    else if t.jobs[job].event in t.events then (t, Err(EventBusy))
    else
      var preferred := t.jobs[job].preferred;
      match ChooseSlot(preferred, c.slots, t.workers.Keys)
      case None => (t, Err(if HasBlockers(preferred, t.workers.Keys) then WorkerBusy else InvalidSlot))
      case Some(slot) =>
        if HoldsSomeLease(t, job) then (s, Err(IntegrityError))  // the whole transaction rolls back
        else
          var lease := Lease(job, token, now, now, now + c.leaseTime);
          (Reserved(t, job, slot, lease),
           Ok(Reservation(slot, token, t.jobs[job].event, lease.expires)))
  }

  // ---- the other transactions ----------------------------------------------

  function Beaten(l: Lease, job: JobId, token: Token, now: int, c: Config): Lease {
    if l.holder == job && l.token == token then l.(heartbeat := now, expires := now + c.leaseTime) else l
  }

  /** Renews whatever rows match, even rows that have expired but were never swept. */
  function Heartbeat(s: Store, c: Config, job: JobId, token: Token, now: int): (Store, bool) {
    (s.(events := map e | e in s.events :: Beaten(s.events[e], job, token, now, c),
        workers := map w | w in s.workers :: Beaten(s.workers[w], job, token, now, c)),
     |EventRows(s, job, token)| == 1 && |WorkerRows(s, job, token)| == 1)
  }

  predicate ValidEventLease(s: Store, job: JobId, token: Token, event: EventId, now: int) {
    && event in s.events && s.events[event].holder == job && s.events[event].token == token
    && s.events[event].expires > now
  }

  function MarkRunning(s: Store, job: JobId, token: Token, pid: int): (Store, bool) {
    if WorkerRows(s, job, token) == {} then (s, false)
    else if job !in s.jobs then (s, true)
    else (s.(jobs := s.jobs[job := s.jobs[job].(state := Running, pid := Some(pid))]), true)
  }

  datatype FinishError = InvalidState | PermissionError

  function Released(s: Store, job: JobId, token: Option<Token>): Store {
    s.(events := map e | e in s.events
         && !(s.events[e].holder == job && (token.None? || s.events[e].token == token.value)) :: s.events[e],
       workers := map w | w in s.workers
         && !(s.workers[w].holder == job && (token.None? || s.workers[w].token == token.value)) :: s.workers[w])
  }

  function Ended(s: Store, job: JobId, state: JobState, uncertain: bool): Store {
    if job !in s.jobs then s
    else s.(jobs := s.jobs[job :=
      s.jobs[job].(state := state, pid := None, slot := None, token := None, uncertain := uncertain)])
  }

  function Finish(s: Store, job: JobId, token: Option<Token>, state: JobState, uncertain: bool)
    : (Store, Result<(), FinishError>)
  {
    if !FinishState(state) then (s, Err(InvalidState))
    else if token.Some? && (EventRows(s, job, token.value) == {} || WorkerRows(s, job, token.value) == {})
      then (s, Err(PermissionError))
    else (Ended(Released(s, job, token), job, state, uncertain), Ok(()))
  }

  function Unqueued(job: Job): Job {
    if job.state == Queued
    then job.(state := Cancelled, slot := None, pid := None, token := None, uncertain := false) else job
  }

  /** The jobs with all queued ones but `todo` cancelled. */
  function UnqueuedBut(rows: map<JobId, Job>, todo: set<JobId>): map<JobId, Job> {
    map j | j in rows :: if j in todo then rows[j] else Unqueued(rows[j])
  }

  function CancelQueued(s: Store): Store { s.(jobs := map j | j in s.jobs :: Unqueued(s.jobs[j])) }

  function Recovered(s: Store, evidence: JobId -> Evidence): Store {
    Store(map j | j in s.jobs :: Reclassified(s.jobs[j], evidence(j)), map[], map[])
  }

  function CreateJob(s: Store, c: Config, job: JobId, event: EventId, eventKey: nat, preferred: Option<Slot>): Store {
    if job in s.jobs || (preferred.Some? && !(1 <= preferred.value <= c.slots)) then s
    else s.(jobs := s.jobs[job := Job(event, eventKey, preferred, Draft, None, None, None, false)])
  }

  // ---- `readonly_lease` ----------------------------------------------------

  /** The reviewed reader is restricted to worker slot 1. */
  const READ_SLOT: Slot := 1

  predicate MayBorrow(s: Store, job: JobId, eventKey: nat) {
    && job in s.jobs
    && var row := s.jobs[job];
    && row.state == FailedUncertain && row.uncertain && row.pid.None?
    && row.eventKey == eventKey && row.preferred == Some(READ_SLOT) && row.slot.None?
    && row.event !in s.events && READ_SLOT !in s.workers
  }

  function Borrow(s: Store, job: JobId, eventKey: nat, token: Token, now: int, expires: int): (Store, bool) {
    if !MayBorrow(s, job, eventKey) || HoldsSomeLease(s, job) then (s, false)
    else
      var lease := Lease(job, token, now, now, expires);
      (s.(events := s.events[s.jobs[job].event := lease], workers := s.workers[READ_SLOT := lease]), true)
  }

  function Return(s: Store, job: JobId, token: Token): Store { Released(s, job, Some(token)) }

  /** One row of the reclassification loop. */
  lemma SweepOneMore(rows: map<JobId, Job>, done: set<JobId>, j: JobId, evidence: JobId -> Evidence)
    requires j !in done
    ensures SweptJobs(rows, done + {j}, evidence) ==
      if j in rows then SweptJobs(rows, done, evidence)[j := Reclassified(rows[j], evidence(j))]
      else SweptJobs(rows, done, evidence)
  {}

  lemma UnqueueOneMore(rows: map<JobId, Job>, todo: set<JobId>, j: JobId)
    requires j in todo && j in rows
    ensures UnqueuedBut(rows, todo - {j}) == UnqueuedBut(rows, todo)[j := Unqueued(rows[j])]
  {}

  /** After queue cancellation no job is queued; those that were are cancelled and can be started, the others are as before. */
  lemma QueueIsCancelled(s: Store)
    ensures CancelQueued(s).jobs.Keys == s.jobs.Keys
    ensures forall j <- s.jobs :: var row := CancelQueued(s).jobs[j];
      && row.state != Queued
      && (s.jobs[j].state == Queued ==>
            row.state == Cancelled && Startable(row.state) && row.slot.None? && row.pid.None? && row.token.None?
            && !row.uncertain && row.event == s.jobs[j].event && row.preferred == s.jobs[j].preferred)
      && (s.jobs[j].state != Queued ==> row == s.jobs[j])
  {}

  lemma ReclassifiesInterruptible(rows: map<JobId, Job>, stale: set<JobId>, evidence: JobId -> Evidence)
    requires stale == set j | j in rows && Interruptible(rows[j].state)
    ensures SweptJobs(rows, stale, evidence) == map j | j in rows :: Reclassified(rows[j], evidence(j))
  {}

  // ---- the store object ----------------------------------------------------

  /** The database behind `ControlStore`: its methods are the transactions, loop by loop. */
  class Database {
    const config: Config
    var jobs: map<JobId, Job>
    var events: map<EventId, Lease>
    var workers: map<Slot, Lease>

    ghost function State(): Store
      reads this
    {
      Store(jobs, events, workers)
    }

    constructor (config: Config)
      ensures State() == Store(map[], map[], map[]) && this.config == config
    {
      this.config := config;
      jobs, events, workers := map[], map[], map[];
    }

    /** The loop over the holders of stale leases. */
    method ReclassifyStale(stale: set<JobId>, evidence: JobId -> Evidence)
      modifies this`jobs
      ensures jobs == SweptJobs(old(jobs), stale, evidence)
    {
      ghost var rows, done: set<JobId> := jobs, {};
      var todo := stale;
      while todo != {}
        invariant done !! todo && done + todo == stale
        invariant jobs == SweptJobs(rows, done, evidence)
        decreases |todo|
      {
        var j :| j in todo;
        SweepOneMore(rows, done, j, evidence);
        if j in jobs && Interruptible(jobs[j].state) {
          jobs := jobs[j := Interrupted(jobs[j], evidence(j))];
        }
        todo, done := todo - {j}, done + {j};
      }
    }

    method ExpireStale(now: int, evidence: JobId -> Evidence)
      modifies this
      ensures State() == Swept(old(State()), now, evidence)
    {
      ReclassifyStale(StaleHolders(Store(jobs, events, workers), now), evidence);
      events := map e | e in events && events[e].expires > now :: events[e];
      workers := map w | w in workers && workers[w].expires > now :: workers[w];
    }

    /** The first free slot counting up from 1. */
    method FirstFree() returns (slot: Option<Slot>)
      ensures slot == LowestFree(1, config.slots, workers.Keys)
    {
      var candidate := 1;
      while candidate <= config.slots
        invariant LowestFree(1, config.slots, workers.Keys) == LowestFree(candidate, config.slots, workers.Keys)
      {
        if candidate !in workers {
          return Some(candidate);
        }
        candidate := candidate + 1;
      }
      return None;
    }

    method Reserve(job: JobId, now: int, token: Token, evidence: JobId -> Evidence)
      returns (r: Result<Reservation, Refusal>)
      modifies this
      ensures (State(), r) == ReserveNow(old(State()), config, job, now, token, evidence)
    {
      var before := Store(jobs, events, workers);
      ExpireStale(now, evidence);
      if job !in jobs || !Startable(jobs[job].state) {
        return Err(NotStartable);
      }
      var row := jobs[job];
      if row.event in events {
        return Err(EventBusy);
      }
      var slot: Option<Slot>;
      match row.preferred {
        case Some(p) => slot := if 1 <= p <= config.slots && p !in workers then Some(p) else None;
        case None => slot := FirstFree();
      }
      if slot.None? {
        return Err(if HasBlockers(row.preferred, workers.Keys) then WorkerBusy else InvalidSlot);
      }
      if HoldsSomeLease(Store(jobs, events, workers), job) {
        jobs, events, workers := before.jobs, before.events, before.workers;
        return Err(IntegrityError);
      }
      var lease := Lease(job, token, now, now, now + config.leaseTime);
      events := events[row.event := lease];
      workers := workers[slot.value := lease];
      jobs := jobs[job := row.(state := Starting, slot := slot, token := Some(token), uncertain := false)];
      return Ok(Reservation(slot.value, token, row.event, lease.expires));
    }

    method Beat(job: JobId, token: Token, now: int) returns (ok: bool)
      modifies this
      ensures (State(), ok) == Heartbeat(old(State()), config, job, token, now)
    {
      var s := Store(jobs, events, workers);
      events := map e | e in events :: Beaten(events[e], job, token, now, config);
      workers := map w | w in workers :: Beaten(workers[w], job, token, now, config);
      ok := |EventRows(s, job, token)| == 1 && |WorkerRows(s, job, token)| == 1;
    }

    method MarkAsRunning(job: JobId, token: Token, pid: int) returns (ok: bool)
      modifies this
      ensures (State(), ok) == MarkRunning(old(State()), job, token, pid)
    {
      if WorkerRows(Store(jobs, events, workers), job, token) == {} {
        return false;
      }
      if job in jobs {
        jobs := jobs[job := jobs[job].(state := Running, pid := Some(pid))];
      }
      return true;
    }

    method FinishJob(job: JobId, token: Option<Token>, state: JobState, uncertain: bool)
      returns (r: Result<(), FinishError>)
      modifies this
      ensures (State(), r) == Finish(old(State()), job, token, state, uncertain)
    {
      if !FinishState(state) {
        return Err(InvalidState);
      }
      var s := Store(jobs, events, workers);
      if token.Some? && (EventRows(s, job, token.value) == {} || WorkerRows(s, job, token.value) == {}) {
        return Err(PermissionError);
      }
      events := Released(s, job, token).events;
      workers := Released(s, job, token).workers;
      if job in jobs {
        jobs := jobs[job := jobs[job].(state := state, pid := None, slot := None, token := None, uncertain := uncertain)];
      }
      return Ok(());
    }

    method CancelLegacyQueued()
      modifies this
      ensures State() == CancelQueued(old(State()))
    {
      ghost var rows := jobs;
      var todo := set j | j in jobs && jobs[j].state == Queued;
      while todo != {}
        invariant events == old(events) && workers == old(workers)
        invariant forall j <- todo :: j in rows && rows[j].state == Queued
        invariant jobs == UnqueuedBut(rows, todo)
        decreases |todo|
      {
        var j :| j in todo;
        UnqueueOneMore(rows, todo, j);
        jobs := jobs[j := jobs[j].(state := Cancelled, slot := None, pid := None, token := None, uncertain := false)];
        todo := todo - {j};
      }
    }

    method RecoverAfterRestart(evidence: JobId -> Evidence) returns (recovered: set<JobId>)
      modifies this
      ensures State() == Recovered(old(State()), evidence)
      ensures recovered == set j | j in old(jobs) && Interruptible(old(jobs)[j].state)
    {
      recovered := set j | j in jobs && Interruptible(jobs[j].state);
      ghost var rows := jobs;
      ghost var done: set<JobId> := {};
      var todo := recovered;
      while todo != {}
        invariant done !! todo && done + todo == recovered && jobs == SweptJobs(rows, done, evidence)
        decreases |todo|
      {
        var j :| j in todo;
        SweepOneMore(rows, done, j, evidence);
        jobs := jobs[j := Interrupted(jobs[j], evidence(j))];
        todo, done := todo - {j}, done + {j};
      }
      ReclassifiesInterruptible(rows, recovered, evidence);
      events, workers := map[], map[];
    }

    /** Entering `readonly_lease`. */
    method BorrowReadOnly(job: JobId, eventKey: nat, token: Token, now: int, expires: int) returns (ok: bool)
      modifies this
      ensures (State(), ok) == Borrow(old(State()), job, eventKey, token, now, expires)
    {
      var s := Store(jobs, events, workers);
      if !MayBorrow(s, job, eventKey) || HoldsSomeLease(s, job) {
        return false;
      }
      var lease := Lease(job, token, now, now, expires);
      events := events[jobs[job].event := lease];
      workers := workers[READ_SLOT := lease];
      return true;
    }

    /** Leaving `readonly_lease`. */
    method ReturnReadOnly(job: JobId, token: Token)
      modifies this
      ensures State() == Return(old(State()), job, token)
    {
      var s := Released(Store(jobs, events, workers), job, Some(token));
      events, workers := s.events, s.workers;
    }
  }

  // ---- slot choice ---------------------------------------------------------

  lemma {:induction false} LowestFreeIsLowest(from: int, slots: int, occupied: set<Slot>)
    ensures match LowestFree(from, slots, occupied)
      case Some(w) => from <= w <= slots && w !in occupied && forall v | from <= v < w :: v in occupied
      case None => forall v | from <= v <= slots :: v in occupied
    decreases slots - from
  {
    if from <= slots && from in occupied { LowestFreeIsLowest(from + 1, slots, occupied); }
  }

  /** A preferred slot is honoured or refused, never replaced; otherwise the lowest free slot is taken. */
  lemma SlotChoice(preferred: Option<Slot>, slots: int, occupied: set<Slot>, w: Slot)
    ensures ChooseSlot(preferred, slots, occupied) == Some(w) <==>
      && 1 <= w <= slots && w !in occupied
      && (preferred == Some(w) || (preferred.None? && forall v | 1 <= v < w :: v in occupied))
  {
    LowestFreeIsLowest(1, slots, occupied);
  }
}
