/** The runner's invariant holds in every reachable state, and what follows from it. */
module JobRunnerProofs {
  import opened Wrappers
  import opened ControlStore
  import opened LeasePairing
  import opened JobRunner

  /** While a thread is past its `finish`, its job is not working: nobody else may have started it. */
  lemma SettledJobIsIdle(s: Sys, c: Config, t: Token)
    requires Inv(s, c) && t in s.runs && OnThread(s.runs[t].pc) && !Holds(s.store, s.runs[t].job, t)
    ensures !Working(s.store.jobs[s.runs[t].job].state)
  {
    var j := s.runs[t].job;
    assert RunFits(s, t);
    if Working(s.store.jobs[j].state) {
      WorkingJobHoldsPair(s.store, c, IssuedIn(s), j);
      NoPairOfAnotherRun(s, t, s.store.jobs[j].token.value);
    }
  }

  /** The job of a thread is under no other run's reservation. */
  lemma NoPairOfAnotherRun(s: Sys, t: Token, u: Token)
    requires t in s.runs && u in s.runs && RunFits(s, t) && RunFits(s, u)
    requires ActiveOk(s) && HoldersOk(s) && OnThread(s.runs[t].pc) && u != t
    ensures !Holds(s.store, s.runs[t].job, u)
  {}

  /** A run that a step leaves alone still fits when its pair and its job's uncertainty are as before. */
  lemma StaysFit(s: Sys, s': Sys, u: Token)
    requires u in s.runs && u in s'.runs && RunFits(s, u) && s'.runs[u] == s.runs[u]
    requires s'.phase == s.phase && s.swept <= s'.swept && s.runs[u].job in s'.store.jobs
    requires OnThread(s.runs[u].pc) ==> s.runs[u].job in s'.active && s'.active[s.runs[u].job] == u
    requires Holds(s'.store, s.runs[u].job, u) ==> Holds(s.store, s.runs[u].job, u) && (u in s'.swept ==> u in s.swept)
    requires Holds(s.store, s.runs[u].job, u) ==> Holds(s'.store, s.runs[u].job, u) || u in s'.swept
    requires s.runs[u].pc.Settling? ==> (Uncertain(s'.store, s.runs[u].job) ==> Uncertain(s.store, s.runs[u].job))
    ensures RunFits(s', u)
  {}

  /** Threads of different runs work for different jobs. */
  lemma OneThreadEach(s: Sys, t: Token, u: Token)
    requires t in s.runs && u in s.runs && RunFits(s, t) && RunFits(s, u) && t != u
    ensures OnThread(s.runs[t].pc) && OnThread(s.runs[u].pc) ==> s.runs[t].job != s.runs[u].job
  {}

  /** A step that changes one run and, through it, at most that run's job and pair. */
  lemma OneRunChanges(s: Sys, t: Token, r: Run, s': Sys)
    requires Fits(s) && t in s.runs && s'.runs == s.runs[t := r]
    requires s'.readers == s.readers && s'.phase == s.phase && s'.swept == s.swept && s'.active == s.active
    requires r.job == s.runs[t].job
    requires forall j <- s.store.jobs :: j in s'.store.jobs && (j != s.runs[t].job ==> s'.store.jobs[j] == s.store.jobs[j])
    requires forall j, u | u in s.runs && u != t :: Holds(s'.store, j, u) <==> Holds(s.store, j, u)
    requires forall j :: Holds(s'.store, j, t) ==> Holds(s.store, j, t)
    requires RunFits(s', t)
    requires OnThread(s.runs[t].pc) || s'.store.jobs == s.store.jobs
    ensures Fits(s') && IssuedIn(s') == IssuedIn(s)
  {
    assert IssuedIn(s') == IssuedIn(s);
    forall u <- s'.runs ensures RunFits(s', u) {
      if u != t {
        assert RunFits(s, u) && RunFits(s, t);
        OneThreadEach(s, t, u);
        StaysFit(s, s', u);
      }
    }
  }

  /** A step that changes only the store, and no job's uncertainty. */
  lemma OnlyStoreChanges(s: Sys, s': Sys)
    requires Fits(s) && s' == s.(store := s'.store, readers := s'.readers)
    requires forall j <- s.store.jobs :: j in s'.store.jobs && (Uncertain(s'.store, j) ==> Uncertain(s.store, j))
    requires forall j, u | u in s.runs :: Holds(s'.store, j, u) <==> Holds(s.store, j, u)
    ensures Fits(s')
  {
    forall u <- s'.runs ensures RunFits(s', u) {
      assert RunFits(s, u);
      StaysFit(s, s', u);
    }
  }

  // ---- each step keeps it --------------------------------------------------

  /** The system after the sweep at the head of a reservation. */
  ghost function SweptSys(s: Sys, now: int, evidence: JobId -> Evidence): Sys {
    var store := Swept(s.store, now, evidence);
    s.(store := store, swept := s.swept + LostRuns(s, store))
  }

  lemma SweepKeepsInv(s: Sys, c: Config, now: int, evidence: JobId -> Evidence)
    requires Inv(s, c) && s.phase == Up
    ensures Inv(SweptSys(s, now, evidence), c)
  {
    var s' := SweptSys(s, now, evidence);
    SweepKeepsPairs(s.store, c, IssuedIn(s), now, evidence);
    assert IssuedIn(s') == IssuedIn(s);
    forall u <- s'.runs ensures RunFits(s', u) {
      assert RunFits(s, u);
      if s.runs[u].pc.Settling? {
        SettledJobIsIdle(s, c, u);
        SweepSparesIdle(s, c, s.runs[u].job, now, evidence);
      }
      StaysFit(s, s', u);
    }
  }

  /** The system with a reservation just made. */
  ghost function WithNewRun(s: Sys, job: JobId, slot: Slot, l: Lease): Sys
    requires job in s.store.jobs
  {
    s.(store := Reserved(s.store, job, slot, l), active := s.active[job := l.token],
       runs := s.runs[l.token := Run(job, Launching, NotSpawned, NoStop, false, false)])
  }

  lemma NewRunFitsAll(s: Sys, job: JobId, slot: Slot, l: Lease)
    requires Fits(s) && s.phase == Up && job !in s.active && l.token !in s.runs
    requires job in s.store.jobs && Startable(s.store.jobs[job].state) && l.holder == job && l.token !in s.swept
    requires forall j, t :: Holds(Reserved(s.store, job, slot, l), j, t) <==>
      Holds(s.store, j, t) || (j == job && t == l.token)
    requires forall j :: !Holds(s.store, j, l.token)
    ensures Fits(WithNewRun(s, job, slot, l))
  {
    var s' := WithNewRun(s, job, slot, l);
    forall u <- s.runs ensures RunFits(s', u) {
      OldRunStillFits(s, job, slot, l, u);
    }
    NewRunFits(s, job, slot, l);
    forall j, t | Holds(s'.store, j, t) && t in s'.runs ensures s'.runs[t].job == j {
      assert t != l.token ==> Holds(s.store, j, t);
    }
  }

  lemma UnissuedHoldsNothing(store: Store, c: Config, issued: Issued, t: Token)
    requires Paired(store, c, issued) && t !in issued.reserved + issued.readers
    ensures forall j :: !Holds(store, j, t)
  {
    forall e <- store.events ensures store.events[e].token != t {
      assert EventRowPaired(store, issued, e);
    }
  }

  /** A fresh pair for a job with no run of its own. */
  lemma NewRunKeepsInv(s: Sys, c: Config, job: JobId, slot: Slot, l: Lease)
    requires Inv(s, c) && s.phase == Up && job !in s.active && l.token !in s.runs && l.token !in s.readers
    requires job in s.store.jobs && Startable(s.store.jobs[job].state) && l.holder == job
    requires s.store.jobs[job].event !in s.store.events && slot !in s.store.workers && 1 <= slot <= c.slots
    requires l.token !in s.swept
    ensures Inv(WithNewRun(s, job, slot, l), c)
  {
    ReservedKeepsPairs(s.store, c, IssuedIn(s), job, slot, l);
    UnissuedHoldsNothing(s.store, c, IssuedIn(s), l.token);
    NewRunFitsAll(s, job, slot, l);
    assert IssuedIn(WithNewRun(s, job, slot, l)) == Issued(s.runs.Keys + {l.token}, s.readers);
  }

  lemma NewRunFits(s: Sys, job: JobId, slot: Slot, l: Lease)
    requires job in s.store.jobs && l.holder == job && l.token !in s.swept && Startable(s.store.jobs[job].state)
    ensures RunFits(WithNewRun(s, job, slot, l), l.token)
  {}

  lemma OldRunStillFits(s: Sys, job: JobId, slot: Slot, l: Lease, u: Token)
    requires Fits(s) && s.phase == Up && job !in s.active && l.token !in s.runs && u in s.runs
    requires job in s.store.jobs && Startable(s.store.jobs[job].state)
    requires forall j, t :: Holds(Reserved(s.store, job, slot, l), j, t) <==>
      Holds(s.store, j, t) || (j == job && t == l.token)
    ensures RunFits(WithNewRun(s, job, slot, l), u)
  {
    assert RunFits(s, u);
    assert OnThread(s.runs[u].pc) ==> s.runs[u].job != job;
    StaysFit(s, WithNewRun(s, job, slot, l), u);
  }

  /** `start` is the sweep, and a new run when the reservation succeeds. */
  lemma StartShape(s: Sys, c: Config, job: JobId, now: int, token: Token, evidence: JobId -> Evidence)
    requires Inv(s, c) && Enabled(s, Start(job, now, token, evidence))
    ensures var s', s1 := Do(s, c, Start(job, now, token, evidence)), SweptSys(s, now, evidence);
      || s' == s1
      || exists slot ::
           && job in s1.store.jobs && Startable(s1.store.jobs[job].state)
           && s1.store.jobs[job].event !in s1.store.events && slot !in s1.store.workers && 1 <= slot <= c.slots
           && s' == WithNewRun(s1, job, slot, Lease(job, token, now, now, now + c.leaseTime))
  {
    NoConstraintViolation(s.store, c, IssuedIn(s), job, now, token, evidence, 0, 0);
    ReserveShape(s.store, c, job, now, token, evidence);
    var (store, r) := ReserveNow(s.store, c, job, now, token, evidence);
    if r.Ok? {
      NewPairLosesNothing(s, Swept(s.store, now, evidence), job, r.value.slot, Lease(job, token, now, now, now + c.leaseTime));
    }
  }

  lemma NewPairLosesNothing(s: Sys, store: Store, job: JobId, slot: Slot, l: Lease)
    requires job in store.jobs && store.jobs[job].event !in store.events && l.token !in s.runs
    ensures LostRuns(s, Reserved(store, job, slot, l)) == LostRuns(s, store)
  {
    forall t <- s.runs
      ensures Holds(Reserved(store, job, slot, l), s.runs[t].job, t) <==> Holds(store, s.runs[t].job, t)
    {}
  }

  lemma StartKeepsInv(s: Sys, c: Config, job: JobId, now: int, token: Token, evidence: JobId -> Evidence)
    requires Inv(s, c) && Enabled(s, Start(job, now, token, evidence))
    ensures Inv(Do(s, c, Start(job, now, token, evidence)), c)
  {
    SweepKeepsInv(s, c, now, evidence);
    StartShape(s, c, job, now, token, evidence);
    var s1 := SweptSys(s, now, evidence);
    if slot :|
      && job in s1.store.jobs && Startable(s1.store.jobs[job].state)
      && s1.store.jobs[job].event !in s1.store.events && slot !in s1.store.workers && 1 <= slot <= c.slots
      && Do(s, c, Start(job, now, token, evidence))
           == WithNewRun(s1, job, slot, Lease(job, token, now, now, now + c.leaseTime))
    {
      NewRunKeepsInv(s1, c, job, slot, Lease(job, token, now, now, now + c.leaseTime));
    }
  }

  /** Expiry reclassifies no job that is not working. */
  lemma SweepSparesIdle(s: Sys, c: Config, j: JobId, now: int, evidence: JobId -> Evidence)
    requires Inv(s, c) && j in s.store.jobs && !Working(s.store.jobs[j].state)
    ensures Swept(s.store, now, evidence).jobs[j] == s.store.jobs[j]
  {
    var st := s.store;
    forall e <- st.events ensures st.events[e].holder == j ==> st.jobs[j].state == FailedUncertain {
      assert EventRowPaired(st, IssuedIn(s), e);
    }
    forall w <- st.workers ensures st.workers[w].holder == j ==> st.jobs[j].state == FailedUncertain {
      assert WorkerRowPaired(st, c, w);
      assert EventRowPaired(st, IssuedIn(s), st.jobs[st.workers[w].holder].event);
    }
  }

  lemma MarkRunFits(s: Sys, c: Config, t: Token, pid: int)
    requires Fits(s) && Enabled(s, MarkRun(t, pid))
    requires forall j, k :: Holds(MarkRunning(s.store, s.runs[t].job, t, pid).0, j, k) <==> Holds(s.store, j, k)
    ensures Fits(Do(s, c, MarkRun(t, pid))) && IssuedIn(Do(s, c, MarkRun(t, pid))) == IssuedIn(s)
  {
    assert RunFits(s, t);
    var s' := Do(s, c, MarkRun(t, pid));
    OneRunChanges(s, t, s'.runs[t], s');
  }

  lemma MarkRunKeepsInv(s: Sys, c: Config, t: Token, pid: int)
    requires Inv(s, c) && Enabled(s, MarkRun(t, pid))
    ensures Inv(Do(s, c, MarkRun(t, pid)), c)
  {
    MarkRunningKeepsPairs(s.store, c, IssuedIn(s), s.runs[t].job, t, pid);
    MarkRunFits(s, c, t, pid);
  }

  /** The system after a thread's finish, which ended its job. */
  ghost function FinishedSys(s: Sys, t: Token, store: Store, r: Run): Sys { WithRun(s.(store := store), t, r) }

  /** A finish took the job's pair, if it had one, and the thread is past its release. */
  lemma FinishedFits(s: Sys, t: Token, store: Store, r: Run)
    requires Fits(s) && t in s.runs && OnThread(s.runs[t].pc) && r.pc.Released? && RunOk(r)
    requires r == s.runs[t].(pc := r.pc, released := r.released)
    requires forall j <- s.store.jobs :: j in store.jobs && (j != r.job ==> store.jobs[j] == s.store.jobs[j])
    requires forall j, k :: Holds(store, j, k) <==> Holds(s.store, j, k) && j != r.job
    requires forall u | u in s.runs && u != t :: !Holds(s.store, r.job, u)
    requires r.released || t in s.swept
    ensures Fits(FinishedSys(s, t, store, r)) && IssuedIn(FinishedSys(s, t, store, r)) == IssuedIn(s)
  {
    assert RunFits(s, t);
    OneRunChanges(s, t, r, FinishedSys(s, t, store, r));
  }

  /** The token still holds: both rows go, the job ends, the thread has released. */
  lemma OwnedFinishKeepsInv(s: Sys, c: Config, t: Token, st: JobState, u: bool, monitored: bool)
    requires Inv(s, c) && t in s.runs && BeforeFinish(s.runs[t].pc) && Holds(s.store, s.runs[t].job, t) && FinishState(st)
    requires monitored ==> s.runs[t].process == Exited
    ensures var r := s.runs[t];
      Inv(FinishedSys(s, t, Finish(s.store, r.job, Some(t), st, u).0, r.(pc := Released(monitored), released := true)), c)
  {
    var r := s.runs[t];
    assert RunFits(s, t);
    FinishKeepsPairs(s.store, c, IssuedIn(s), r.job, Some(t), st, u);
    FinishedFits(s, t, Finish(s.store, r.job, Some(t), st, u).0, r.(pc := Released(monitored), released := true));
  }

  lemma RefusedFinishKeepsInv(s: Sys, c: Config, t: Token, st: JobState, u: bool, monitored: bool)
    requires Inv(s, c) && t in s.runs && BeforeFinish(s.runs[t].pc) && !Holds(s.store, s.runs[t].job, t)
    requires FinishState(st) && (u <==> st == FailedUncertain) && (monitored ==> s.runs[t].process == Exited)
    ensures Inv(WithRun(s, t, s.runs[t].(pc := LeaseLost(st, u, monitored))), c)
  {
    assert RunFits(s, t);
    var r' := s.runs[t].(pc := LeaseLost(st, u, monitored));
    OneRunChanges(s, t, r', WithRun(s, t, r'));
  }

  lemma FinishRunKeepsInv(s: Sys, c: Config, t: Token, ending: Ending)
    requires Inv(s, c) && Enabled(s, FinishRun(t, ending))
    ensures Inv(Do(s, c, FinishRun(t, ending)), c)
  {
    var r := s.runs[t];
    var stopRecorded := r.stop.SignalDue? || r.stop.SignalSent?;
    EndingIsFailClosed(ending, stopRecorded);
    var (st, u) := FinalState(ending, stopRecorded);
    FinishKeepsPairs(s.store, c, IssuedIn(s), r.job, Some(t), st, u);
    assert RunFits(s, t);
    if Holds(s.store, r.job, t) {
      OwnedFinishKeepsInv(s, c, t, st, u, ending.AgentExited?);
    } else {
      RefusedFinishKeepsInv(s, c, t, st, u, ending.AgentExited?);
    }
  }

  /** No reservation of any run is under this job when its thread settles without a token. */
  lemma NoReservationToLose(s: Sys, c: Config, t: Token, u: Token)
    requires Inv(s, c) && t in s.runs && u in s.runs && OnThread(s.runs[t].pc) && !BeforeFinish(s.runs[t].pc)
    ensures !Holds(s.store, s.runs[t].job, u)
  {
    assert RunFits(s, t) && RunFits(s, u);
  }

  lemma FinishTokenlessFits(s: Sys, c: Config, t: Token)
    requires Fits(s) && Enabled(s, FinishTokenless(t))
    requires var before, after, j := s.store, Do(s, c, FinishTokenless(t)).store, s.runs[t].job;
      && (forall k, u :: Holds(after, k, u) <==> Holds(before, k, u) && k != j)
      && (forall u <- s.runs :: !Holds(before, j, u))
    ensures Fits(Do(s, c, FinishTokenless(t))) && IssuedIn(Do(s, c, FinishTokenless(t))) == IssuedIn(s)
  {
    assert RunFits(s, t);
    var r := s.runs[t];
    FinishedFits(s, t, Do(s, c, FinishTokenless(t)).store, r.(pc := Released(r.pc.monitored)));
  }

  lemma FinishTokenlessKeepsInv(s: Sys, c: Config, t: Token)
    requires Inv(s, c) && Enabled(s, FinishTokenless(t))
    ensures Inv(Do(s, c, FinishTokenless(t)), c)
  {
    var r := s.runs[t];
    assert RunFits(s, t);
    FinishKeepsPairs(s.store, c, IssuedIn(s), r.job, None, if r.pc.seen then FailedUncertain else r.pc.state,
                     r.pc.uncertain || r.pc.seen);
    forall u <- s.runs ensures !Holds(s.store, r.job, u) {
      NoReservationToLose(s, c, t, u);
    }
    FinishTokenlessFits(s, c, t);
  }

  lemma GoneFits(s: Sys, s': Sys, t: Token)
    requires t in s.runs && RunFits(s, t) && s.runs[t].pc.Released? && s'.store == s.store && s'.swept == s.swept
    requires s'.runs == s.runs[t := s.runs[t].(pc := Gone)]
    ensures RunFits(s', t)
  {}

  lemma OtherFitsAfterRemoval(s: Sys, c: Config, t: Token, u: Token)
    requires Enabled(s, RemoveActive(t)) && u in s.runs && u != t && RunFits(s, t) && RunFits(s, u)
    ensures u in Do(s, c, RemoveActive(t)).runs && RunFits(Do(s, c, RemoveActive(t)), u)
  {
    OneThreadEach(s, t, u);
    StaysFit(s, Do(s, c, RemoveActive(t)), u);
  }

  lemma RemoveActiveFits(s: Sys, c: Config, t: Token)
    requires Fits(s) && Enabled(s, RemoveActive(t))
    ensures Fits(Do(s, c, RemoveActive(t))) && IssuedIn(Do(s, c, RemoveActive(t))) == IssuedIn(s)
  {
    var s' := Do(s, c, RemoveActive(t));
    assert RunFits(s, t);
    GoneFits(s, s', t);
    assert IssuedIn(s') == IssuedIn(s);
    forall u <- s'.runs ensures RunFits(s', u) {
      if u != t { OtherFitsAfterRemoval(s, c, t, u); }
    }
  }

  lemma RemoveActiveKeepsInv(s: Sys, c: Config, t: Token)
    requires Inv(s, c) && Enabled(s, RemoveActive(t))
    ensures Inv(Do(s, c, RemoveActive(t)), c)
  {
    RemoveActiveFits(s, c, t);
  }

  predicate LaunchLocal(step: Step) {
    step.LaunchRaises? || step.Spawn? || step.MonitorSeesExit? || step.MonitorRaises?
  }

  predicate OtherLocal(step: Step) {
    step.ProcessExits? || step.ReadBack? || step.SendSignal? || step.StopRequest?
  }

  /** Steps of one run that leave the store alone. */
  lemma LaunchLocalFits(s: Sys, c: Config, step: Step)
    requires Fits(s) && Enabled(s, step) && LaunchLocal(step)
    ensures Fits(Do(s, c, step)) && IssuedIn(Do(s, c, step)) == IssuedIn(s) && Do(s, c, step).store == s.store
  {
    assert RunFits(s, step.run);
    var s' := Do(s, c, step);
    OneRunChanges(s, step.run, s'.runs[step.run], s');
  }

  lemma OtherLocalFits(s: Sys, c: Config, step: Step)
    requires Fits(s) && Enabled(s, step) && OtherLocal(step)
    ensures Fits(Do(s, c, step)) && IssuedIn(Do(s, c, step)) == IssuedIn(s) && Do(s, c, step).store == s.store
  {
    var t := if step.StopRequest? then s.active[step.job] else step.run;
    assert RunFits(s, t);
    var s' := Do(s, c, step);
    OneRunChanges(s, t, s'.runs[t], s');
  }

  lemma HeartbeatRunKeepsInv(s: Sys, c: Config, t: Token, now: int)
    requires Inv(s, c) && Enabled(s, HeartbeatRun(t, now))
    ensures Inv(Do(s, c, HeartbeatRun(t, now)), c)
  {
    assert RunFits(s, t);
    HeartbeatKeepsPairs(s.store, c, IssuedIn(s), s.runs[t].job, t, now);
    var s' := Do(s, c, HeartbeatRun(t, now));
    OneRunChanges(s, t, s'.runs[t], s');
  }

  /** Steps of other processes and of the job table. */
  lemma OutsideStepKeepsInv(s: Sys, c: Config, step: Step)
    requires Inv(s, c) && Enabled(s, step)
    requires step.Create? || step.BorrowRead? || step.BeatRead? || step.ReturnRead?
    ensures Inv(Do(s, c, step), c)
  {
    var i := IssuedIn(s);
    match step {
      case Create(job, event, key, preferred) => CreateKeepsPairs(s.store, c, i, job, event, key, preferred);
      case BorrowRead(job, key, token, now, expires) => BorrowKeepsPairs(s.store, c, i, job, key, token, now, expires);
      case BeatRead(job, token, now) => HeartbeatKeepsPairs(s.store, c, i, job, token, now);
      case ReturnRead(job, token) => ReturnKeepsPairs(s.store, c, i, job, token);
      case _ =>
    }
    OnlyStoreChanges(s, Do(s, c, step));
  }

  lemma CrashKeepsInv(s: Sys, c: Config)
    requires Inv(s, c) && Enabled(s, Crash)
    ensures Inv(Do(s, c, Crash), c)
  {
    var s' := Do(s, c, Crash);
    assert IssuedIn(s') == IssuedIn(s);
    forall u <- s'.runs ensures RunFits(s', u) {
      assert RunFits(s, u);
    }
  }

  lemma RecoverKeepsInv(s: Sys, c: Config, evidence: JobId -> Evidence)
    requires Inv(s, c) && Enabled(s, Recover(evidence))
    ensures Inv(Do(s, c, Recover(evidence)), c)
  {
    var s' := Do(s, c, Recover(evidence));
    RecoveryEstablishesPairs(s.store, c, IssuedIn(s), evidence);
    assert IssuedIn(s') == IssuedIn(s);
    forall u <- s'.runs ensures RunFits(s', u) {
      assert RunFits(s, u);
    }
  }

  lemma CancelKeepsInv(s: Sys, c: Config)
    requires Inv(s, c) && Enabled(s, CancelOldQueue)
    ensures Inv(Do(s, c, CancelOldQueue), c)
  {
    var s' := Do(s, c, CancelOldQueue);
    CancelKeepsPairs(s.store, c, IssuedIn(s));
    assert IssuedIn(s') == IssuedIn(s);
    forall u <- s'.runs ensures RunFits(s', u) {
      assert RunFits(s, u);
    }
  }

  /** Steps of a run's own threads. */
  predicate OfARun(step: Step) {
    LaunchLocal(step) || OtherLocal(step) || step.MarkRun? || step.FinishRun? || step.FinishTokenless?
      || step.RemoveActive? || step.HeartbeatRun?
  }

  lemma RunStepKeepsInv(s: Sys, c: Config, step: Step)
    requires Inv(s, c) && Enabled(s, step) && OfARun(step)
    ensures Inv(Do(s, c, step), c)
  {
    if LaunchLocal(step) {
      LaunchLocalFits(s, c, step);
    } else if OtherLocal(step) {
      OtherLocalFits(s, c, step);
    } else if step.MarkRun? {
      MarkRunKeepsInv(s, c, step.run, step.pid);
    } else if step.FinishRun? {
      FinishRunKeepsInv(s, c, step.run, step.ending);
    } else if step.FinishTokenless? {
      FinishTokenlessKeepsInv(s, c, step.run);
    } else if step.RemoveActive? {
      RemoveActiveKeepsInv(s, c, step.run);
    } else {
      HeartbeatRunKeepsInv(s, c, step.run, step.now);
    }
  }

  lemma SystemStepKeepsInv(s: Sys, c: Config, step: Step)
    requires Inv(s, c) && Enabled(s, step) && !OfARun(step)
    ensures Inv(Do(s, c, step), c)
  {
    if step.Start? {
      StartKeepsInv(s, c, step.job, step.now, step.token, step.evidence);
    } else if step.Crash? {
      CrashKeepsInv(s, c);
    } else if step.Recover? {
      RecoverKeepsInv(s, c, step.evidence);
    } else if step.CancelOldQueue? {
      CancelKeepsInv(s, c);
    } else {
      OutsideStepKeepsInv(s, c, step);
    }
  }

  lemma StepKeepsInv(s: Sys, c: Config, step: Step)
    requires Inv(s, c) && Enabled(s, step)
    ensures Inv(Do(s, c, step), c)
  {
    if OfARun(step) { RunStepKeepsInv(s, c, step); } else { SystemStepKeepsInv(s, c, step); }
  }

  lemma {:induction false} RunsKeepInv(s: Sys, c: Config, steps: seq<Step>)
    requires Inv(s, c) && After(s, c, steps).Some?
    ensures Inv(After(s, c, steps).value, c)
    decreases |steps|
  {
    if steps != [] {
      RunsKeepInv(s, c, steps[..|steps| - 1]);
      StepKeepsInv(After(s, c, steps[..|steps| - 1]).value, c, steps[|steps| - 1]);
    }
  }

  /** The invariant holds after power-on over any database, hence in every reachable state. */
  lemma Reachable(database: Store, evidence: JobId -> Evidence, c: Config, steps: seq<Step>)
    requires c.slots >= 1 && After(PowerOn(database, evidence), c, steps).Some?
    ensures Inv(After(PowerOn(database, evidence), c, steps).value, c)
  {
    RecoveryEstablishesPairs(database, c, Issued({}, {}), evidence);
    assert IssuedIn(PowerOn(database, evidence)) == Issued({}, {});
    RunsKeepInv(PowerOn(database, evidence), c, steps);
  }
}
