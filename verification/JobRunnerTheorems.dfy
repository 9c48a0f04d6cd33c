/** What the runner guarantees in every interleaving, over whole runs. */
module JobRunnerTheorems {
  import opened Wrappers
  import opened ControlStore
  import opened LeasePairing
  import opened JobRunner
  import opened JobRunnerProofs
  import opened LeaseTime
  import opened StoreAnswers

  // ---- lease-loss cleanup --------------------------------------------------

  /**
   The tokenless finish of a run that lost its lease never removes a lease of
   another job, nor a reservation of a later run of the same job: every row it
   removes is an operator's read lease on that very job, and it removes one exactly
   when such a lease is held.
   */
  lemma CleanupSparesOthers(database: Store, evidence: JobId -> Evidence, c: Config, steps: seq<Step>, s: Sys, t: Token)
    requires c.slots >= 1 && After(PowerOn(database, evidence), c, steps) == Some(s)
    requires Enabled(s, FinishTokenless(t))
    ensures var before, after, j := s.store, Do(s, c, FinishTokenless(t)).store, s.runs[t].job;
      && (forall e <- before.events :: before.events[e].holder != j ==>
            e in after.events && after.events[e] == before.events[e])
      && (forall w <- before.workers :: before.workers[w].holder != j ==>
            w in after.workers && after.workers[w] == before.workers[w])
      && (forall e <- before.events :: e !in after.events ==>
            before.events[e].holder == j && before.events[e].token in s.readers)
      && (forall w <- before.workers :: w !in after.workers ==>
            before.workers[w].holder == j && before.workers[w].token in s.readers)
      && ((exists e <- before.events :: e !in after.events) <==> exists k <- s.readers :: Holds(before, j, k))
  {
    Reachable(database, evidence, c, steps);
    var before, j := s.store, s.runs[t].job;
    assert RunFits(s, t);
    TokenlessRemovesExactly(s, c, t);
    OnlyReadRows(s, c, t);
    forall k <- s.readers | Holds(before, j, k)
      ensures exists e <- before.events :: e !in Do(s, c, FinishTokenless(t)).store.events
    {
      assert before.jobs[j].event in before.events;
    }
  }

  /** A tokenless finish removes the rows of its job, all of them and no others. */
  lemma TokenlessRemovesExactly(s: Sys, c: Config, t: Token)
    requires Enabled(s, FinishTokenless(t)) && RunOk(s.runs[t])
    ensures var before, after, j := s.store, Do(s, c, FinishTokenless(t)).store, s.runs[t].job;
      && after.events == (map e | e in before.events && before.events[e].holder != j :: before.events[e])
      && after.workers == (map w | w in before.workers && before.workers[w].holder != j :: before.workers[w])
  {
    var r := s.runs[t];
    TokenlessFinishRows(s.store, r.job, if r.pc.seen then FailedUncertain else r.pc.state, r.pc.uncertain || r.pc.seen);
  }

  lemma TokenlessFinishRows(store: Store, j: JobId, state: JobState, uncertain: bool)
    requires FinishState(state)
    ensures var after := Finish(store, j, None, state, uncertain).0;
      && after.events == (map e | e in store.events && store.events[e].holder != j :: store.events[e])
      && after.workers == (map w | w in store.workers && store.workers[w].holder != j :: store.workers[w])
  {}

  /** All rows of the job of a settling thread are read leases. */
  lemma OnlyReadRows(s: Sys, c: Config, t: Token)
    requires Inv(s, c) && t in s.runs && OnThread(s.runs[t].pc) && !BeforeFinish(s.runs[t].pc)
    ensures var store, j := s.store, s.runs[t].job;
      && (forall e <- store.events | store.events[e].holder == j ::
            store.events[e].token in s.readers && Holds(store, j, store.events[e].token))
      && (forall w <- store.workers | store.workers[w].holder == j :: store.workers[w].token in s.readers)
  {
    var store, j := s.store, s.runs[t].job;
    forall e <- store.events | store.events[e].holder == j
      ensures store.events[e].token in s.readers && Holds(store, j, store.events[e].token)
    {
      ReservationOrRead(s, c, t, e);
    }
    forall w <- store.workers | store.workers[w].holder == j
      ensures store.workers[w].token in s.readers
    {
      assert WorkerRowPaired(store, c, w);
      ReservationOrRead(s, c, t, store.jobs[j].event);
    }
  }

  lemma ReservationOrRead(s: Sys, c: Config, t: Token, e: EventId)
    requires Inv(s, c) && t in s.runs && OnThread(s.runs[t].pc) && !BeforeFinish(s.runs[t].pc)
    requires e in s.store.events && s.store.events[e].holder == s.runs[t].job
    ensures s.store.events[e].token in s.readers && Holds(s.store, s.runs[t].job, s.store.events[e].token)
  {
    assert EventRowPaired(s.store, IssuedIn(s), e);
    var k := s.store.events[e].token;
    if k in s.runs {
      NoReservationToLose(s, c, t, k);
    }
  }

  /** Why: a job has at most one thread, and while it has one it cannot be started. */
  lemma OneThreadPerJob(database: Store, evidence: JobId -> Evidence, c: Config, steps: seq<Step>, s: Sys, t: Token, u: Token)
    requires c.slots >= 1 && After(PowerOn(database, evidence), c, steps) == Some(s)
    requires t in s.runs && OnThread(s.runs[t].pc)
    ensures u in s.runs && OnThread(s.runs[u].pc) && s.runs[u].job == s.runs[t].job ==> u == t
    ensures forall now, k, e :: !Enabled(s, Start(s.runs[t].job, now, k, e))
  {
    Reachable(database, evidence, c, steps);
    assert RunFits(s, t);
    assert u in s.runs ==> RunFits(s, u);
  }

  // ---- leases stay until their own thread lets go --------------------------

  ghost predicate StoreStep(step: Step) {
    step.Create? || step.MarkRun? || step.HeartbeatRun? || step.BorrowRead? || step.BeatRead? || step.ReturnRead?
      || step.CancelOldQueue?
  }

  lemma StoreStepRetainsPairs(s: Sys, c: Config, step: Step, t: Token)
    requires Inv(s, c) && Enabled(s, step) && t in s.runs && StoreStep(step)
    ensures Holds(s.store, s.runs[t].job, t) ==> Holds(Do(s, c, step).store, s.runs[t].job, t)
  {
    var i := IssuedIn(s);
    match step
    case Create(job, event, key, preferred) => CreateKeepsPairs(s.store, c, i, job, event, key, preferred);
    case MarkRun(r, pid) => MarkRunningKeepsPairs(s.store, c, i, s.runs[r].job, r, pid);
    case HeartbeatRun(r, now) => HeartbeatKeepsPairs(s.store, c, i, s.runs[r].job, r, now);
    case BorrowRead(job, key, token, now, expires) => BorrowKeepsPairs(s.store, c, i, job, key, token, now, expires);
    case BeatRead(job, token, now) => HeartbeatKeepsPairs(s.store, c, i, job, token, now);
    case ReturnRead(job, token) => ReturnKeepsPairs(s.store, c, i, job, token);
    case CancelOldQueue => CancelKeepsPairs(s.store, c, i);
  }

  lemma FinishRetainsOthers(s: Sys, c: Config, r: Token, ending: Ending, t: Token)
    requires Inv(s, c) && Enabled(s, FinishRun(r, ending)) && t in s.runs && t != r
    ensures Holds(s.store, s.runs[t].job, t) ==> Holds(Do(s, c, FinishRun(r, ending)).store, s.runs[t].job, t)
  {
    var q := s.runs[r];
    assert RunFits(s, r) && RunFits(s, t);
    var (st, u) := FinalState(ending, q.stop.SignalDue? || q.stop.SignalSent?);
    FinishKeepsPairs(s.store, c, IssuedIn(s), q.job, Some(r), st, u);
  }

  lemma TokenlessRetainsPairs(s: Sys, c: Config, r: Token, t: Token)
    requires Inv(s, c) && Enabled(s, FinishTokenless(r)) && t in s.runs
    ensures Holds(s.store, s.runs[t].job, t) ==> Holds(Do(s, c, FinishTokenless(r)).store, s.runs[t].job, t)
  {
    var q := s.runs[r];
    NoReservationToLose(s, c, r, t);
    FinishKeepsPairs(s.store, c, IssuedIn(s), q.job, None, if q.pc.seen then FailedUncertain else q.pc.state,
                     q.pc.uncertain || q.pc.seen);
  }

  lemma OtherStepLeavesStore(s: Sys, c: Config, step: Step)
    requires Enabled(s, step) && !StoreStep(step)
    requires !step.FinishRun? && !step.FinishTokenless? && !step.Start? && !step.Recover?
    ensures Do(s, c, step).store == s.store
  {}

  /** A run's pair disappears only by its own finish, or by expiry or recovery, which is recorded. */
  lemma PairRetained(s: Sys, c: Config, step: Step, t: Token)
    requires Inv(s, c) && Enabled(s, step) && t in s.runs
    requires Holds(s.store, s.runs[t].job, t) && !Holds(Do(s, c, step).store, s.runs[t].job, t)
    ensures (step.FinishRun? && step.run == t) || ((step.Start? || step.Recover?) && t in Do(s, c, step).swept)
  {
    if StoreStep(step) {
      StoreStepRetainsPairs(s, c, step, t);
    } else if step.FinishRun? {
      if step.run != t { FinishRetainsOthers(s, c, step.run, step.ending, t); }
    } else if step.FinishTokenless? {
      TokenlessRetainsPairs(s, c, step.run, t);
    } else if step.Start? || step.Recover? {
      SweptIsRecorded(s, c, step, t);
    } else {
      OtherStepLeavesStore(s, c, step);
    }
  }

  lemma SweptIsRecorded(s: Sys, c: Config, step: Step, t: Token)
    requires Enabled(s, step) && (step.Start? || step.Recover?) && t in s.runs
    requires Holds(s.store, s.runs[t].job, t) && !Holds(Do(s, c, step).store, s.runs[t].job, t)
    ensures t in Do(s, c, step).swept
  {
    assert t in LostRuns(s, Do(s, c, step).store);
  }

  /**
   Stop against spawn, in every reachable state: a stop request that found no
   process means that none is ever spawned; one that found a process has signalled
   it or still owes the signal; and a run's thread holds its pair until its own
   finish has released it, unless expiry or recovery swept it.
   */
  lemma StopVersusSpawn(database: Store, evidence: JobId -> Evidence, c: Config, steps: seq<Step>, s: Sys, t: Token)
    requires c.slots >= 1 && After(PowerOn(database, evidence), c, steps) == Some(s) && t in s.runs
    ensures var r := s.runs[t];
      && (r.stop == StopBeforeSpawn ==> r.process == NotSpawned && !Enabled(s, Spawn(t)))
      && (r.stop == SignalSent ==> r.process != NotSpawned && r.signalled)
      && (r.stop == SignalDue ==> r.process != NotSpawned && Enabled(s, SendSignal(t)))
      && (OnThread(r.pc) && !r.released && t !in s.swept ==> Holds(s.store, r.job, t))
  {
    Reachable(database, evidence, c, steps);
    assert RunFits(s, t);
  }

  lemma StepKeepsStop(s: Sys, c: Config, step: Step, t: Token)
    requires Enabled(s, step) && t in s.runs && s.runs[t].stop != NoStop
    requires s.runs[t].stop == StopBeforeSpawn ==> s.runs[t].process == NotSpawned
    ensures var s' := Do(s, c, step);
      && t in s'.runs && s'.runs[t].stop != NoStop
      && (s.runs[t].stop == StopBeforeSpawn ==>
            s'.runs[t].stop == StopBeforeSpawn && s'.runs[t].process == NotSpawned)
  {}

  /** A stop request is never forgotten, and no later step turns "no process" into one. */
  lemma {:induction false} StopIsFinal(s: Sys, c: Config, steps: seq<Step>, t: Token)
    requires Inv(s, c) && After(s, c, steps).Some? && t in s.runs && s.runs[t].stop != NoStop
    ensures var s' := After(s, c, steps).value;
      && t in s'.runs && s'.runs[t].stop != NoStop
      && (s.runs[t].stop == StopBeforeSpawn ==>
            s'.runs[t].stop == StopBeforeSpawn && s'.runs[t].process == NotSpawned)
    decreases |steps|
  {
    if steps == [] {
      assert RunFits(s, t);
    } else {
      var front := steps[..|steps| - 1];
      StopIsFinal(s, c, front, t);
      RunsKeepInv(s, c, front);
      var m := After(s, c, front).value;
      assert RunFits(m, t);
      StepKeepsStop(m, c, steps[|steps| - 1], t);
    }
  }

  // ---- uncertainty is absorbing --------------------------------------------

  lemma StartKeepsUncertain(s: Sys, c: Config, step: Step, j: JobId)
    requires Inv(s, c) && Enabled(s, step) && step.Start? && Uncertain(s.store, j)
    ensures Uncertain(Do(s, c, step).store, j)
  {
    NoConstraintViolation(s.store, c, IssuedIn(s), step.job, step.now, step.token, step.evidence, 0, 0);
    ReserveShape(s.store, c, step.job, step.now, step.token, step.evidence);
    SweepSparesIdle(s, c, j, step.now, step.evidence);
  }

  lemma MarkKeepsUncertain(s: Sys, c: Config, t: Token, pid: int, j: JobId)
    requires Inv(s, c) && Enabled(s, MarkRun(t, pid)) && Uncertain(s.store, j)
    ensures Uncertain(Do(s, c, MarkRun(t, pid)).store, j)
  {
    assert RunFits(s, t);
    MarkRunningKeepsPairs(s.store, c, IssuedIn(s), s.runs[t].job, t, pid);
  }

  lemma TokenlessKeepsUncertain(s: Sys, c: Config, t: Token, j: JobId)
    requires Inv(s, c) && Enabled(s, FinishTokenless(t)) && Uncertain(s.store, j)
    ensures Uncertain(Do(s, c, FinishTokenless(t)).store, j)
  {
    assert RunFits(s, t);
  }

  /** The steps that end nothing and start nothing, over any store. */
  lemma OtherStepKeepsUncertain(s: Sys, c: Config, step: Step, j: JobId)
    requires Enabled(s, step) && Uncertain(s.store, j)
    requires !step.Start? && !step.MarkRun? && !step.FinishRun? && !step.FinishTokenless?
    ensures Uncertain(Do(s, c, step).store, j)
  {}

  lemma StepKeepsUncertain(s: Sys, c: Config, step: Step, j: JobId)
    requires Inv(s, c) && Enabled(s, step) && Uncertain(s.store, j)
    ensures Uncertain(Do(s, c, step).store, j)
  {
    match step
    case Start(_, _, _, _) => StartKeepsUncertain(s, c, step, j);
    case MarkRun(t, pid) => MarkKeepsUncertain(s, c, t, pid, j);
    case FinishRun(t, ending) => UncertainJobRefusesFinish(s, c, t, ending, j);
    case FinishTokenless(t) => TokenlessKeepsUncertain(s, c, t, j);
    case _ => OtherStepKeepsUncertain(s, c, step, j);
  }

  /** An uncertain job holds at most a read lease, so no run's token can finish it. */
  lemma UncertainJobRefusesFinish(s: Sys, c: Config, t: Token, ending: Ending, j: JobId)
    requires Inv(s, c) && Enabled(s, FinishRun(t, ending)) && Uncertain(s.store, j)
    ensures var jobs := Do(s, c, FinishRun(t, ending)).store.jobs; j in jobs && jobs[j] == s.store.jobs[j]
  {
    var r := s.runs[t];
    var (st, u) := FinalState(ending, r.stop.SignalDue? || r.stop.SignalSent?);
    if r.job == j {
      UncertainJobHoldsNoRun(s, c, j, t);
      FinishKeepsPairs(s.store, c, IssuedIn(s), j, Some(t), st, u);
    }
  }

  lemma UncertainJobHoldsNoRun(s: Sys, c: Config, j: JobId, t: Token)
    requires Paired(s.store, c, IssuedIn(s)) && t in s.runs && Uncertain(s.store, j)
    ensures !Holds(s.store, j, t)
  {
    var e := s.store.jobs[j].event;
    assert e in s.store.events ==> EventRowPaired(s.store, IssuedIn(s), e);
  }

  /**
   Once a job is failed_uncertain with its flag set, no run of the system makes it
   startable or clears the flag: not reservation, marking, heartbeat, expiry, any
   run's finish, a read lease, a crash, recovery or queue cancellation.
   */
  lemma {:induction false} UncertaintyIsAbsorbing(s: Sys, c: Config, steps: seq<Step>, j: JobId)
    requires Inv(s, c) && After(s, c, steps).Some? && Uncertain(s.store, j)
    ensures var s' := After(s, c, steps).value;
      && Uncertain(s'.store, j)
      && forall now, token, e: JobId -> Evidence ::
           ReserveNow(s'.store, c, j, now, token, e).1 == Err(NotStartable)
    decreases |steps|
  {
    if steps != [] {
      var front := steps[..|steps| - 1];
      UncertaintyIsAbsorbing(s, c, front, j);
      RunsKeepInv(s, c, front);
      StepKeepsUncertain(After(s, c, front).value, c, steps[|steps| - 1], j);
    }
    RunsKeepInv(s, c, steps);
    var s' := After(s, c, steps).value;
    forall now, token, e: JobId -> Evidence
      ensures ReserveNow(s'.store, c, j, now, token, e).1 == Err(NotStartable)
    {
      SweepSparesIdle(s', c, j, now, e);
    }
  }

  // ---- what a run's steps do to its job and its agent ------------------------

  /** A heartbeat renews the lease for its full length, or finds it gone; then a living agent is told to stop. */
  lemma HeartbeatRenewsOrStops(s: Sys, c: Config, t: Token, now: int)
    requires Inv(s, c) && Enabled(s, HeartbeatRun(t, now))
    ensures var s', r := Do(s, c, HeartbeatRun(t, now)), s.runs[t];
      && s'.store.jobs == s.store.jobs
      && (Holds(s.store, r.job, t) ==> s'.runs[t] == r && forall at ::
            ValidEventLease(s'.store, r.job, t, s.store.jobs[r.job].event, at) <==> at < now + c.leaseTime)
      && (!Holds(s.store, r.job, t) ==>
            s'.store == s.store && s'.runs[t].signalled == (r.signalled || r.process == Alive))
  {
    var r := s.runs[t];
    if Holds(s.store, r.job, t) {
      BeatLasts(s.store, c, IssuedIn(s), r.job, t, now);
    } else {
      RowsOfHolder(s.store, c, IssuedIn(s), r.job, t);
      NothingToBeat(s.store, c, r.job, t, now);
    }
  }

  lemma NothingToBeat(s: Store, c: Config, job: JobId, token: Token, now: int)
    requires EventRows(s, job, token) == {} && WorkerRows(s, job, token) == {}
    ensures Heartbeat(s, c, job, token, now) == (s, false)
  {
    assert forall e <- s.events :: e !in EventRows(s, job, token);
    assert forall w <- s.workers :: w !in WorkerRows(s, job, token);
    var u := Heartbeat(s, c, job, token, now).0;
    assert u.events == s.events && u.workers == s.workers;
  }

  /** A spawned agent is watched as running, or told to stop because its lease is gone. */
  lemma MarkedOrStopped(s: Sys, c: Config, t: Token, pid: int)
    requires Inv(s, c) && Enabled(s, MarkRun(t, pid))
    ensures var s', r := Do(s, c, MarkRun(t, pid)), s.runs[t];
      && r.job in s'.store.jobs
      && (Holds(s.store, r.job, t) ==>
            && s'.runs[t].pc == Watching
            && s'.store.jobs[r.job].state == Running && s'.store.jobs[r.job].pid == Some(pid))
      && (!Holds(s.store, r.job, t) ==>
            s'.runs[t].pc == Failing && s'.runs[t].signalled && s'.store == s.store)
  {
    assert RunFits(s, t);
    MarkRunningKeepsPairs(s.store, c, IssuedIn(s), s.runs[t].job, t, pid);
  }

  /** A run that still holds its lease records its ending and lets go; one that does not changes nothing yet. */
  lemma FinishRecords(s: Sys, c: Config, t: Token, ending: Ending)
    requires Inv(s, c) && Enabled(s, FinishRun(t, ending))
    ensures var s', r := Do(s, c, FinishRun(t, ending)), s.runs[t];
      var (st, u) := FinalState(ending, r.stop == SignalDue || r.stop == SignalSent);
      && r.job in s'.store.jobs && s'.runs[t].job == r.job
      && (Holds(s.store, r.job, t) ==>
            && s'.store.jobs[r.job].state == st && s'.store.jobs[r.job].uncertain == u
            && !Holds(s'.store, r.job, t) && s'.runs[t].released && s'.runs[t].pc == Released(ending.AgentExited?))
      && (!Holds(s.store, r.job, t) ==>
            s'.store == s.store && s'.runs[t].pc == LeaseLost(st, u, ending.AgentExited?))
  {
    var r := s.runs[t];
    assert RunFits(s, t);
    var stopRecorded := r.stop == SignalDue || r.stop == SignalSent;
    EndingIsFailClosed(ending, stopRecorded);
    var (st, u) := FinalState(ending, stopRecorded);
    FinishKeepsPairs(s.store, c, IssuedIn(s), r.job, Some(t), st, u);
    FinishDoes(s, c, t, ending, st, u);
  }

  lemma FinishDoes(s: Sys, c: Config, t: Token, ending: Ending, st: JobState, u: bool)
    requires Enabled(s, FinishRun(t, ending)) && s.runs[t].job in s.store.jobs
    requires FinalState(ending, s.runs[t].stop == SignalDue || s.runs[t].stop == SignalSent) == (st, u)
    ensures var (store, result) := Finish(s.store, s.runs[t].job, Some(t), st, u);
      var s', r := Do(s, c, FinishRun(t, ending)), s.runs[t];
      && (result.Ok? ==>
            && s'.store == store && s'.runs[t] == r.(pc := Released(ending.AgentExited?), released := true)
            && r.job in store.jobs && store.jobs[r.job].state == st && store.jobs[r.job].uncertain == u)
      && (result.Err? ==> s'.store == s.store && s'.runs[t] == r.(pc := LeaseLost(st, u, ending.AgentExited?)))
  {
    FinishedRow(s.store, s.runs[t].job, Some(t), st, u);
  }

  // ---- readers, and the queue of old ------------------------------------------

  /** A reader's heartbeat keeps its lease for one length. */
  lemma ReaderBeats(s: Sys, c: Config, job: JobId, token: Token, now: int)
    requires Inv(s, c) && token in s.readers && Holds(s.store, job, token)
    ensures var u := Do(s, c, BeatRead(job, token, now));
      && u == s.(store := u.store) && u.store.jobs == s.store.jobs
      && forall at :: ValidEventLease(u.store, job, token, s.store.jobs[job].event, at) <==> at < now + c.leaseTime
  {
    HeartbeatKeepsPairs(s.store, c, IssuedIn(s), job, token, now);
    BeatLasts(s.store, c, IssuedIn(s), job, token, now);
  }

  /** Its return ends that lease and nothing else. */
  lemma ReaderReturns(s: Sys, c: Config, job: JobId, token: Token)
    requires Inv(s, c) && token in s.readers
    ensures var u := Do(s, c, ReturnRead(job, token));
      && u == s.(store := u.store) && u.store.jobs == s.store.jobs
      && forall j, k :: Holds(u.store, j, k) <==> Holds(s.store, j, k) && !(j == job && k == token)
  {
    ReturnKeepsPairs(s.store, c, IssuedIn(s), job, token);
  }

  ghost predicate NoneQueued(s: Sys) { forall j <- s.store.jobs :: s.store.jobs[j].state != Queued }

  /** A step puts no job back into the queue. */
  lemma StepQueuesNothing(s: Sys, c: Config, step: Step)
    requires Enabled(s, step) && NoneQueued(s) && (step.FinishTokenless? ==> RunOk(s.runs[step.run]))
    ensures NoneQueued(Do(s, c, step))
  {
    match step
    case Start(job, now, token, evidence) => ReserveQueuesNothing(s.store, c, job, now, token, evidence);
    case FinishRun(t, ending) => FinishQueuesNothing(s, c, t, ending);
    case FinishTokenless(t) =>
    case _ => OtherStepQueuesNothing(s, c, step);
  }

  lemma FinishQueuesNothing(s: Sys, c: Config, t: Token, ending: Ending)
    requires Enabled(s, FinishRun(t, ending)) && NoneQueued(s)
    ensures NoneQueued(Do(s, c, FinishRun(t, ending)))
  {
    EndingIsFailClosed(ending, s.runs[t].stop.SignalDue? || s.runs[t].stop.SignalSent?);
  }

  lemma OtherStepQueuesNothing(s: Sys, c: Config, step: Step)
    requires Enabled(s, step) && NoneQueued(s) && !step.Start? && !step.FinishRun? && !step.FinishTokenless?
    ensures NoneQueued(Do(s, c, step))
  {}

  lemma ReserveQueuesNothing(s: Store, c: Config, job: JobId, now: int, token: Token, evidence: JobId -> Evidence)
    requires forall j <- s.jobs :: s.jobs[j].state != Queued
    ensures var jobs := ReserveNow(s, c, job, now, token, evidence).0.jobs; forall j <- jobs :: jobs[j].state != Queued
  {}

  /** Once the controller serves, no job is ever waiting in a queue. */
  lemma {:induction false} NothingWaits(database: Store, evidence: JobId -> Evidence, c: Config, steps: seq<Step>, s: Sys)
    requires c.slots >= 1 && After(PowerOn(database, evidence), c, steps) == Some(s) && s.phase == Up
    ensures NoneQueued(s)
    decreases |steps|
  {
    var front, last := steps[..|steps| - 1], steps[|steps| - 1];
    var before := After(PowerOn(database, evidence), c, front).value;
    Reachable(database, evidence, c, front);
    if last.CancelOldQueue? {
      QueueIsCancelled(before.store);
    } else {
      NothingWaits(database, evidence, c, front, before);
      assert last.FinishTokenless? ==> RunFits(before, last.run);
      StepQueuesNothing(before, c, last);
    }
  }

  // ---- when an outcome stands ----------------------------------------------

  /** The steps that can write the row of a job that is not being worked on. */
  ghost predicate RewritesEnded(s: Sys, step: Step, j: JobId)
    requires Enabled(s, step) && j in s.store.jobs
  {
    || (step.Start? && step.job == j)
    || (step.CancelOldQueue? && s.store.jobs[j].state == Queued)
    || (step.Recover? && s.store.jobs[j].state == Stopping)
    || (step.FinishTokenless? && s.runs[step.run].job == j)
  }

  ghost predicate RowKept(s: Sys, s': Sys, j: JobId)
    requires j in s.store.jobs
  {
    j in s'.store.jobs && s'.store.jobs[j] == s.store.jobs[j]
  }

  lemma StartKeepsEnded(s: Sys, c: Config, step: Step, j: JobId)
    requires Inv(s, c) && Enabled(s, step) && step.Start? && step.job != j
    requires j in s.store.jobs && !Working(s.store.jobs[j].state)
    ensures RowKept(s, Do(s, c, step), j)
  {
    NoConstraintViolation(s.store, c, IssuedIn(s), step.job, step.now, step.token, step.evidence, 0, 0);
    ReserveShape(s.store, c, step.job, step.now, step.token, step.evidence);
    SweepSparesIdle(s, c, j, step.now, step.evidence);
  }

  lemma MarkKeepsEnded(s: Sys, c: Config, t: Token, pid: int, j: JobId)
    requires Inv(s, c) && Enabled(s, MarkRun(t, pid)) && j in s.store.jobs && !Working(s.store.jobs[j].state)
    ensures RowKept(s, Do(s, c, MarkRun(t, pid)), j)
  {
    assert RunFits(s, t);
    MarkRunningKeepsPairs(s.store, c, IssuedIn(s), s.runs[t].job, t, pid);
  }

  /** A run's token finishes only a job that is being worked on. */
  lemma FinishKeepsEnded(s: Sys, c: Config, t: Token, ending: Ending, j: JobId)
    requires Inv(s, c) && Enabled(s, FinishRun(t, ending)) && j in s.store.jobs && !Working(s.store.jobs[j].state)
    ensures RowKept(s, Do(s, c, FinishRun(t, ending)), j)
  {
    var r := s.runs[t];
    var (st, u) := FinalState(ending, r.stop.SignalDue? || r.stop.SignalSent?);
    if r.job == j {
      IdleJobHoldsNoRun(s, c, j, t);
      FinishKeepsPairs(s.store, c, IssuedIn(s), j, Some(t), st, u);
    }
  }

  lemma IdleJobHoldsNoRun(s: Sys, c: Config, j: JobId, t: Token)
    requires Paired(s.store, c, IssuedIn(s)) && t in s.runs && j in s.store.jobs && !Working(s.store.jobs[j].state)
    ensures !Holds(s.store, j, t)
  {
    var e := s.store.jobs[j].event;
    assert e in s.store.events ==> EventRowPaired(s.store, IssuedIn(s), e);
  }

  lemma OtherStepKeepsEnded(s: Sys, c: Config, step: Step, j: JobId)
    requires Enabled(s, step) && j in s.store.jobs && !Working(s.store.jobs[j].state)
    requires !step.Start? && !step.MarkRun? && !step.FinishRun? && !RewritesEnded(s, step, j)
    ensures RowKept(s, Do(s, c, step), j)
  {}

  /** The row of a job that is not being worked on changes by those steps only. */
  lemma EndedRowRewritten(s: Sys, c: Config, step: Step, j: JobId)
    requires Inv(s, c) && Enabled(s, step) && j in s.store.jobs && !Working(s.store.jobs[j].state)
    ensures RewritesEnded(s, step, j) || RowKept(s, Do(s, c, step), j)
  {
    if !RewritesEnded(s, step, j) {
      match step
      case Start(_, _, _, _) => StartKeepsEnded(s, c, step, j);
      case MarkRun(t, pid) => MarkKeepsEnded(s, c, t, pid, j);
      case FinishRun(t, ending) => FinishKeepsEnded(s, c, t, ending, j);
      case _ => OtherStepKeepsEnded(s, c, step, j);
    }
  }

  /** A tokenless finish is that of a run whose lease was swept, or that has finished before. */
  lemma TokenlessIsLate(s: Sys, c: Config, t: Token)
    requires Inv(s, c) && Enabled(s, FinishTokenless(t))
    ensures t in s.swept || s.runs[t].released
  {
    assert RunFits(s, t);
  }

  /** Run `t` has finished its job, which has this row, and no other thread works for it. */
  ghost predicate Finished(s: Sys, t: Token, row: Job) {
    && t in s.runs && (s.runs[t].pc.Released? || !OnThread(s.runs[t].pc))
    && (forall u <- s.runs | OnThread(s.runs[u].pc) && s.runs[u].job == s.runs[t].job :: u == t)
    && s.runs[t].job in s.store.jobs && s.store.jobs[s.runs[t].job] == row && FinishState(row.state)
  }

  /** Neither an exception out of this run's monitor nor another start of its job. */
  predicate LeavesOutcome(step: Step, t: Token, j: JobId) {
    step != MonitorRaises(t) && !(step.Start? && step.job == j)
  }

  /** No step but a start of its job puts a thread to work. */
  lemma ThreadBefore(s: Sys, c: Config, step: Step, u: Token)
    requires Enabled(s, step) && u in Do(s, c, step).runs
    ensures var r := Do(s, c, step).runs[u];
      || (step.Start? && r.job == step.job)
      || (u in s.runs && r.job == s.runs[u].job && (OnThread(r.pc) ==> OnThread(s.runs[u].pc)))
  {}

  lemma OwnThreadAfter(s: Sys, c: Config, step: Step, t: Token)
    requires Enabled(s, step) && step != MonitorRaises(t) && t in s.runs
    requires s.runs[t].pc.Released? || !OnThread(s.runs[t].pc)
    ensures var runs := Do(s, c, step).runs;
      t in runs && runs[t].job == s.runs[t].job && (runs[t].pc.Released? || !OnThread(runs[t].pc))
  {}

  lemma ThreadsAfter(s: Sys, c: Config, step: Step, t: Token, row: Job)
    requires Finished(s, t, row) && Enabled(s, step) && LeavesOutcome(step, t, s.runs[t].job)
    ensures var s' := Do(s, c, step);
      && t in s'.runs && s'.runs[t].job == s.runs[t].job && (s'.runs[t].pc.Released? || !OnThread(s'.runs[t].pc))
      && forall u <- s'.runs | OnThread(s'.runs[u].pc) && s'.runs[u].job == s.runs[t].job :: u == t
  {
    OwnThreadAfter(s, c, step, t);
    forall u <- Do(s, c, step).runs
      ensures OnThread(Do(s, c, step).runs[u].pc) && Do(s, c, step).runs[u].job == s.runs[t].job ==> u == t
    {
      ThreadBefore(s, c, step, u);
    }
  }

  lemma RowAfter(s: Sys, c: Config, step: Step, t: Token, row: Job)
    requires Finished(s, t, row) && Enabled(s, step) && LeavesOutcome(step, t, s.runs[t].job)
    ensures !RewritesEnded(s, step, s.runs[t].job)
  {}

  lemma StepKeepsOutcome(s: Sys, c: Config, step: Step, t: Token, row: Job)
    requires Inv(s, c) && Finished(s, t, row) && Enabled(s, step) && LeavesOutcome(step, t, s.runs[t].job)
    ensures Finished(Do(s, c, step), t, row) && Do(s, c, step).runs[t].job == s.runs[t].job
  {
    EndedRowRewritten(s, c, step, s.runs[t].job);
    RowAfter(s, c, step, t, row);
    ThreadsAfter(s, c, step, t, row);
  }

  /**
   The outcome that a run has recorded stands, whatever else happens, until its job
   is started again, unless an exception leaves the run's monitor after the finish.
   */
  lemma {:induction false} OutcomeStands(s: Sys, c: Config, steps: seq<Step>, t: Token, row: Job)
    requires Inv(s, c) && Finished(s, t, row) && After(s, c, steps).Some?
    requires forall step <- steps :: LeavesOutcome(step, t, s.runs[t].job)
    ensures Finished(After(s, c, steps).value, t, row) && After(s, c, steps).value.runs[t].job == s.runs[t].job
    decreases |steps|
  {
    if steps != [] {
      var front, last := steps[..|steps| - 1], steps[|steps| - 1];
      assert last in steps && forall step <- front :: step in steps;
      OutcomeStands(s, c, front, t, row);
      RunsKeepInv(s, c, front);
      StepKeepsOutcome(After(s, c, front).value, c, last, t, row);
    }
  }

  /** The handler's second finish, as the evidence it reads has it. */
  function SecondFinish(t: Token, e: Evidence): seq<Step> {
    [MonitorRaises(t), FinishRun(t, LaunchFailed(e)), ReadBack(t), FinishTokenless(t)]
  }

  /** A run that has released holds no row any more. */
  lemma NoRowsLeft(s: Sys, c: Config, t: Token)
    requires Inv(s, c) && t in s.runs && s.runs[t].pc.Released?
    ensures EventRows(s.store, s.runs[t].job, t) == {}
  {
    assert RunFits(s, t);
    RowsOfHolder(s.store, c, IssuedIn(s), s.runs[t].job, t);
  }

  lemma RefusedAgain(s: Sys, c: Config, t: Token, e: Evidence)
    requires t in s.runs && s.runs[t].pc == Failing && EventRows(s.store, s.runs[t].job, t) == {}
    ensures Enabled(s, FinishRun(t, LaunchFailed(e)))
    ensures Do(s, c, FinishRun(t, LaunchFailed(e))) ==
      WithRun(s, t, s.runs[t].(pc := LeaseLost(InterruptedState(e), e.unresolved, false)))
  {}

  lemma SettledBy(s: Sys, c: Config, t: Token, e: Evidence)
    requires t in s.runs && s.runs[t].pc == LeaseLost(InterruptedState(e), e.unresolved, false)
    requires s.runs[t].job in s.store.jobs && !s.store.jobs[s.runs[t].job].uncertain
    ensures Enabled(s, ReadBack(t)) && Enabled(Do(s, c, ReadBack(t)), FinishTokenless(t))
    ensures var jobs, j := Do(Do(s, c, ReadBack(t)), c, FinishTokenless(t)).store.jobs, s.runs[t].job;
      j in jobs && jobs[j].state == InterruptedState(e) && jobs[j].uncertain == e.unresolved
  {}

  lemma FourSteps(s: Sys, c: Config, steps: seq<Step>, s1: Sys, s2: Sys, s3: Sys)
    requires |steps| == 4 && Enabled(s, steps[0]) && s1 == Do(s, c, steps[0])
    requires Enabled(s1, steps[1]) && s2 == Do(s1, c, steps[1]) && Enabled(s2, steps[2]) && s3 == Do(s2, c, steps[2])
    requires Enabled(s3, steps[3])
    ensures After(s, c, steps) == Some(Do(s3, c, steps[3]))
  {
    assert steps[..3][..2] == steps[..2] && steps[..2][..1] == steps[..1] && steps[..1][..0] == [];
    assert After(s, c, steps[..1]) == Some(s1);
    assert After(s, c, steps[..2]) == Some(s2);
    assert After(s, c, steps[..3]) == Some(s3);
  }

  lemma HandlerRewrites(s: Sys, c: Config, t: Token, e: Evidence)
    requires t in s.runs && s.runs[t].pc == Released(true) && EventRows(s.store, s.runs[t].job, t) == {}
    requires s.runs[t].job in s.store.jobs && !s.store.jobs[s.runs[t].job].uncertain
    ensures After(s, c, SecondFinish(t, e)).Some?
    ensures var jobs, j := After(s, c, SecondFinish(t, e)).value.store.jobs, s.runs[t].job;
      j in jobs && jobs[j].state == InterruptedState(e) && jobs[j].uncertain == e.unresolved
  {
    var r := s.runs[t];
    var s1 := WithRun(s, t, r.(pc := Failing));
    assert Enabled(s, MonitorRaises(t)) && Do(s, c, MonitorRaises(t)) == s1;
    RefusedAgain(s1, c, t, e);
    var s2 := WithRun(s1, t, s1.runs[t].(pc := LeaseLost(InterruptedState(e), e.unresolved, false)));
    SettledBy(s2, c, t, e);
    FourSteps(s, c, SecondFinish(t, e), s1, s2, Do(s2, c, ReadBack(t)));
  }

  /**
   Such an exception is possible exactly after the monitor's own finish, and then
   the handler rewrites the outcome by the evidence alone, a completed one too.
   */
  lemma OutcomeRewritten(s: Sys, c: Config, t: Token, row: Job, e: Evidence)
    requires Inv(s, c) && Finished(s, t, row)
    ensures Enabled(s, MonitorRaises(t)) <==> s.runs[t].pc == Released(true)
    ensures s.runs[t].pc == Released(true) && !row.uncertain ==>
      && After(s, c, SecondFinish(t, e)).Some?
      && var jobs := After(s, c, SecondFinish(t, e)).value.store.jobs;
      && s.runs[t].job in jobs
      && jobs[s.runs[t].job].state == InterruptedState(e) && jobs[s.runs[t].job].uncertain == e.unresolved
  {
    if s.runs[t].pc == Released(true) && !row.uncertain {
      NoRowsLeft(s, c, t);
      HandlerRewrites(s, c, t, e);
    }
  }
}
