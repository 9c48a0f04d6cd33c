/**
 A concrete run in which a tokenless finish takes away an operator's read lease.

 Job 1 starts; its lease expires and the start of job 2 sweeps it to
 failed_uncertain while its launch thread is still at work; the operator borrows
 the job for a readback; then the launch thread fails, finds its token gone, and
 cleans up without one.
 */
module ReadLeaseRace {
  import opened Wrappers
  import opened ControlStore
  import opened LeasePairing
  import opened JobRunner

  const CONFIG := Config(2, 10)
  const NO_ROWS := Store(map[], map[], map[])
  const UNRESOLVED: JobId -> Evidence := _ => Evidence(true, true)

  const DRAFT1 := Job(1, 1, Some(1), Draft, None, None, None, false)
  const DRAFT2 := Job(2, 2, Some(2), Draft, None, None, None, false)
  const STARTING1 := DRAFT1.(state := Starting, slot := Some(1), token := Some(100))
  const STARTING2 := DRAFT2.(state := Starting, slot := Some(2), token := Some(200))
  const UNCERTAIN1 := DRAFT1.(state := FailedUncertain, uncertain := true)
  const LEASE1 := Lease(1, 100, 0, 0, 10)
  const LEASE2 := Lease(2, 200, 20, 20, 30)
  const READ1 := Lease(1, 300, 21, 21, 31)
  const RUN := Run(1, Launching, NotSpawned, NoStop, false, false)
  const RUN2 := RUN.(job := 2)

  const STORE2 := Store(map[1 := DRAFT1, 2 := DRAFT2], map[], map[])
  const STORE3 := Store(map[1 := STARTING1, 2 := DRAFT2], map[1 := LEASE1], map[1 := LEASE1])
  const STORE4 := Store(map[1 := UNCERTAIN1, 2 := STARTING2], map[2 := LEASE2], map[2 := LEASE2])
  const STORE5 := Store(map[1 := UNCERTAIN1, 2 := STARTING2], map[1 := READ1, 2 := LEASE2], map[1 := READ1, 2 := LEASE2])

  lemma Extend(before: seq<Step>, s: Sys, step: Step, s': Sys) returns (steps: seq<Step>)
    requires After(PowerOn(NO_ROWS, UNRESOLVED), CONFIG, before) == Some(s)
    requires Leads(s, step, s')
    ensures After(PowerOn(NO_ROWS, UNRESOLVED), CONFIG, steps) == Some(s')
  {
    steps := before + [step];
    assert steps[..|before|] == before;
  }

  lemma FirstReservation()
    ensures ReserveNow(STORE2, CONFIG, 1, 0, 100, UNRESOLVED) == (STORE3, Ok(Reservation(1, 100, 1, 10)))
  {
    assert Swept(STORE2, 0, UNRESOLVED) == STORE2;
    assert Reserved(STORE2, 1, 1, LEASE1) == STORE3;
  }

  lemma SecondReservation()
    ensures ReserveNow(STORE3, CONFIG, 2, 20, 200, UNRESOLVED) == (STORE4, Ok(Reservation(2, 200, 2, 30)))
  {
    var swept := Store(map[1 := UNCERTAIN1, 2 := DRAFT2], map[], map[]);
    assert 1 in STORE3.events && STORE3.events[1].holder == 1;
    assert StaleHolders(STORE3, 20) == {1};
    assert SweptJobs(STORE3.jobs, {1}, UNRESOLVED) == swept.jobs;
    assert Swept(STORE3, 20, UNRESOLVED) == swept;
    assert Reserved(swept, 2, 2, LEASE2) == STORE4;
  }

  lemma Borrowed()
    ensures Borrow(STORE4, 1, 1, 300, 21, 31) == (STORE5, true)
  {
    assert MayBorrow(STORE4, 1, 1);
    assert STORE4.events[1 := READ1] == STORE5.events;
    assert STORE4.workers[READ_SLOT := READ1] == STORE5.workers;
  }

  lemma TokenGone()
    ensures Finish(STORE5, 1, Some(100), FailedUncertain, true) == (STORE5, Err(PermissionError))
    ensures 1 !in Finish(STORE5, 1, None, FailedUncertain, true).0.events
  {
    assert EventRows(STORE5, 1, 100) == {};
  }

  // ---- the states of the run -----------------------------------------------

  const S0 := Sys(NO_ROWS, {}, map[], map[], Recovering, {})
  const S1 := S0.(phase := Up)
  const S2 := S1.(store := Store(map[1 := DRAFT1], map[], map[]))
  const S3 := S2.(store := STORE2)
  const S4 := S3.(store := STORE3, runs := map[100 := RUN], active := map[1 := 100])
  const S5 := S4.(store := STORE4, runs := map[100 := RUN, 200 := RUN2], active := map[1 := 100, 2 := 200], swept := {100})
  const S6 := S5.(store := STORE5, readers := {300})
  const S7 := S6.(runs := map[100 := RUN.(pc := Failing), 200 := RUN2])
  const S8 := S7.(runs := map[100 := RUN.(pc := LeaseLost(FailedUncertain, true, false)), 200 := RUN2])
  const S9 := S8.(runs := map[100 := RUN.(pc := Settling(FailedUncertain, true, false, true)), 200 := RUN2])

  const FAIL := FinishRun(100, LaunchFailed(Evidence(true, true)))

  ghost predicate Leads(s: Sys, step: Step, s': Sys) { Enabled(s, step) && Do(s, CONFIG, step) == s' }

  lemma UntilDrafted()
    ensures Leads(S0, CancelOldQueue, S1)
    ensures Leads(S1, Create(1, 1, 1, Some(1)), S2) && Leads(S2, Create(2, 2, 2, Some(2)), S3)
  {
    assert CancelQueued(NO_ROWS) == NO_ROWS;
    assert CreateJob(S2.store, CONFIG, 2, 2, 2, Some(2)) == STORE2;
  }

  lemma UntilStarted()
    ensures Leads(S3, Start(1, 0, 100, UNRESOLVED), S4)
  {
    FirstReservation();
    assert LostRuns(S3, STORE3) == {};
  }

  lemma UntilSwept()
    ensures Leads(S4, Start(2, 20, 200, UNRESOLVED), S5)
  {
    SecondReservation();
    assert Holds(STORE3, 1, 100) && !Holds(STORE4, 1, 100);
    assert LostRuns(S4, STORE4) == {100};
    assert S4.runs[200 := RUN2] == S5.runs && S4.active[2 := 200] == S5.active;
  }

  lemma UntilBorrowed()
    ensures Leads(S5, BorrowRead(1, 1, 300, 21, 31), S6)
  {
    Borrowed();
  }

  lemma UntilFailing()
    ensures Leads(S6, LaunchRaises(100), S7)
  {
    assert S6.runs[100 := RUN.(pc := Failing)] == S7.runs;
  }

  lemma UntilRefused()
    ensures Leads(S7, FAIL, S8)
  {
    TokenGone();
    EndingOfFailedLaunch();
    assert S7.runs[100].job == 1 && S7.runs[100].stop == NoStop;
    assert S7.runs[100 := RUN.(pc := LeaseLost(FailedUncertain, true, false))] == S8.runs;
  }

  lemma EndingOfFailedLaunch()
    ensures FinalState(LaunchFailed(Evidence(true, true)), false) == (FailedUncertain, true)
  {}

  lemma UntilSettling()
    ensures Leads(S8, ReadBack(100), S9)
  {
    assert S8.runs[100 := RUN.(pc := Settling(FailedUncertain, true, false, true))] == S9.runs;
    assert STORE5.jobs[1].uncertain;
  }

  /** The run up to the operator's readback. */
  lemma UntilRead() returns (steps: seq<Step>)
    ensures After(PowerOn(NO_ROWS, UNRESOLVED), CONFIG, steps) == Some(S6)
  {
    assert PowerOn(NO_ROWS, UNRESOLVED) == S0 by { assert Recovered(NO_ROWS, UNRESOLVED) == NO_ROWS; }
    UntilDrafted();
    UntilStarted();
    UntilSwept();
    UntilBorrowed();
    steps := Extend([], S0, CancelOldQueue, S1);
    steps := Extend(steps, S1, Create(1, 1, 1, Some(1)), S2);
    steps := Extend(steps, S2, Create(2, 2, 2, Some(2)), S3);
    steps := Extend(steps, S3, Start(1, 0, 100, UNRESOLVED), S4);
    steps := Extend(steps, S4, Start(2, 20, 200, UNRESOLVED), S5);
    steps := Extend(steps, S5, BorrowRead(1, 1, 300, 21, 31), S6);
  }

  /** The run up to the last step, and what the last step does. */
  lemma ReadLeaseCanBeTaken() returns (steps: seq<Step>, s: Sys)
    ensures After(PowerOn(NO_ROWS, UNRESOLVED), CONFIG, steps) == Some(s)
    ensures Enabled(s, FinishTokenless(100)) && 300 in s.readers
    ensures Holds(s.store, 1, 300) && !Holds(Do(s, CONFIG, FinishTokenless(100)).store, 1, 300)
  {
    UntilFailing();
    UntilRefused();
    UntilSettling();
    TokenGone();
    steps := UntilRead();
    steps := Extend(steps, S6, LaunchRaises(100), S7);
    steps := Extend(steps, S7, FAIL, S8);
    steps := Extend(steps, S8, ReadBack(100), S9);
    s := S9;
  }
}
