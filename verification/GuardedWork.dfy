/**
 Browser tools of the agent extension over the browser queue and the snapshot
 transport: which of them can act while chunks of a snapshot are outstanding.

 Most guarded tools check first thing in their queue slot.  `cvent_section_state`
 checks before it enters the queue, and does not check again.
 */
module GuardedWork {
  import opened Wrappers
  import Q = PromiseQueue
  import T = SnapshotTransport
  import U = Utf8Chunks

  const BROWSER: Q.Key := 0

  datatype Tool =
    | InSlot        // checks in its slot; may end by saving a snapshot
    | BeforeSlot    // checks, awaits, and only then queues
    | Unchecked     // never checks
    | Reader        // reads one chunk

  /** How many snapshots in chunks have been saved, and how many of them read to the end. */
  datatype Stamp = Stamp(captures: nat, deliveries: nat)

  datatype Stage =
    | Passed                   // pre-check passed, not queued yet
    | Queued(call: Q.CallId)
    | Entered(call: Q.CallId)  // the slot has begun, nothing is done yet
    | Acting(call: Q.CallId)   // browser commands are under way
    | Leaving(call: Q.CallId)  // only the end of the slot remains
    | Ended

  /** `checked` and `began`: the counts when the check passed and when the slot began. */
  datatype Work = Work(tool: Tool, stage: Stage, checked: Option<Stamp>, began: Option<Stamp>)

  type WorkId = nat

  datatype Sys = Sys(queue: Q.State, transport: T.State, works: map<WorkId, Work>, stamp: Stamp)

  const Start := Sys(Q.Empty, T.Start, map[], Stamp(0, 0))

  datatype Step =
    | PreCheck(w: WorkId)
    | Enqueue(w: WorkId, tool: Tool)
    | BeginSlot(w: WorkId)
    | SlotCheck(w: WorkId)
    | Save(w: WorkId, snapshot: U.Text, id: T.SnapshotId, owner: T.Identity)
    | ReadChunk(w: WorkId, wanted: T.SnapshotId, index: int, runtime: T.Identity, file: Option<U.Text>)
    | ActDone(w: WorkId)
    | EndSlot(w: WorkId, threw: bool)
    | OtherQueue(step: Q.Step)

  /** A step of the queue that belongs to another key. */
  predicate Elsewhere(q: Q.State, step: Q.Step) {
    Q.Enabled(q, step) && match step
      case Arrive(k) => k != BROWSER
      case Begin(c) => q.calls[c].key != BROWSER
      case Finish(c, _) => q.calls[c].key != BROWSER
  }

  predicate Enabled(s: Sys, step: Step) {
    match step
    case PreCheck(w) => w !in s.works
    case Enqueue(w, tool) =>
      if w in s.works then tool == BeforeSlot && s.works[w].tool == tool && s.works[w].stage == Passed
      else tool != BeforeSlot
    case BeginSlot(w) => w in s.works && s.works[w].stage.Queued? && Q.Enabled(s.queue, Q.Begin(s.works[w].stage.call))
    case SlotCheck(w) => w in s.works && s.works[w].stage.Entered? && s.works[w].tool == InSlot
    case Save(w, _, _, _) => w in s.works && s.works[w].stage.Acting? && s.works[w].tool == InSlot
    case ReadChunk(w, _, _, _, _) => w in s.works && s.works[w].stage.Entered? && s.works[w].tool == Reader
    case ActDone(w) => w in s.works && s.works[w].stage.Acting?
    case EndSlot(w, threw) =>
      w in s.works && s.works[w].stage.Leaving? && Q.Enabled(s.queue, Q.Finish(s.works[w].stage.call, threw))
    case OtherQueue(qstep) => Elsewhere(s.queue, qstep)
  }

  function Put(s: Sys, w: WorkId, work: Work): Sys { s.(works := s.works[w := work]) }

  function To(s: Sys, w: WorkId, stage: Stage): Sys
    requires w in s.works
  {
    Put(s, w, s.works[w].(stage := stage))
  }

  function Do(s: Sys, step: Step): Sys
    requires Enabled(s, step)
  {
    match step
    case PreCheck(w) =>
      if T.Consumed(s.transport) then Put(s, w, Work(BeforeSlot, Passed, Some(s.stamp), None))
      else Put(s, w, Work(BeforeSlot, Ended, None, None))
    case Enqueue(w, tool) =>
      var call := |s.queue.calls|;
      var work := if w in s.works then s.works[w] else Work(tool, Passed, None, None);
      Put(s.(queue := Q.Do(s.queue, Q.Arrive(BROWSER))), w, work.(stage := Queued(call)))
    case BeginSlot(w) =>
      var call := s.works[w].stage.call;
      var stage := if s.works[w].tool == InSlot || s.works[w].tool == Reader then Entered(call) else Acting(call);
      Put(s.(queue := Q.Do(s.queue, Q.Begin(call))), w, s.works[w].(stage := stage, began := Some(s.stamp)))
    case SlotCheck(w) =>
      var call := s.works[w].stage.call;
      if T.Consumed(s.transport) then Put(s, w, s.works[w].(stage := Acting(call), checked := Some(s.stamp)))
      else To(s, w, Leaving(call))
    case Save(w, snapshot, id, owner) =>
      var (transport, reply) := T.SaveSnapshot(s.transport, snapshot, id, owner);
      To(s.(transport := transport,
            stamp := if reply.Piece? then s.stamp.(captures := s.stamp.captures + 1) else s.stamp),
         w, Leaving(s.works[w].stage.call))
    case ReadChunk(w, wanted, index, runtime, file) =>
      var (transport, reply) := T.Step(s.transport, T.ReadChunk(wanted, index, runtime, file));
      To(s.(transport := transport,
            stamp := if reply.Piece? && reply.complete then s.stamp.(deliveries := s.stamp.deliveries + 1) else s.stamp),
         w, Leaving(s.works[w].stage.call))
    case ActDone(w) => To(s, w, Leaving(s.works[w].stage.call))
    case EndSlot(w, threw) =>
      To(s.(queue := Q.Do(s.queue, Q.Finish(s.works[w].stage.call, threw))), w, Ended)
    case OtherQueue(qstep) => s.(queue := Q.Do(s.queue, qstep))
  }

  function After(steps: seq<Step>): Option<Sys>
    decreases |steps|
  {
    if steps == [] then Some(Start)
    else
      var before := After(steps[..|steps| - 1]);
      if before.Some? && Enabled(before.value, steps[|steps| - 1])
      then Some(Do(before.value, steps[|steps| - 1])) else None
  }

  // ---- one tool in the slot ------------------------------------------------

  predicate HasCall(stage: Stage) { stage.Queued? || stage.Entered? || stage.Acting? || stage.Leaving? }

  predicate InTheSlot(stage: Stage) { stage.Entered? || stage.Acting? || stage.Leaving? }

  /** A work's call in the queue is its own, and runs exactly while the work is in its slot. */
  ghost predicate CallFits(s: Sys, w: WorkId)
    requires w in s.works
  {
    var stage := s.works[w].stage;
    HasCall(stage) ==>
      && stage.call < |s.queue.calls| && s.queue.calls[stage.call].key == BROWSER
      && s.queue.calls[stage.call].phase == (if stage.Queued? then Q.Waiting else Q.Running)
      && forall v <- s.works :: v != w && HasCall(s.works[v].stage) ==> s.works[v].stage.call != stage.call
  }

  ghost predicate QueueInv(s: Sys) { Q.Inv(s.queue) && forall w <- s.works :: CallFits(s, w) }

  lemma AloneInTheSlot(s: Sys, v: WorkId, w: WorkId)
    requires QueueInv(s) && v in s.works && w in s.works
    requires InTheSlot(s.works[v].stage) && InTheSlot(s.works[w].stage)
    ensures v == w
  {
    assert CallFits(s, v) && CallFits(s, w);
    assert Q.BegunInOrder(s.queue);
  }

  /** The work a step belongs to, if any. */
  function Mover(step: Step): Option<WorkId> { if step.OtherQueue? then None else Some(step.w) }

  /** What a step does to the queue. */
  function QueueStep(s: Sys, step: Step): Option<Q.Step>
    requires Enabled(s, step)
  {
    match step
    case Enqueue(_, _) => Some(Q.Arrive(BROWSER))
    case BeginSlot(w) => Some(Q.Begin(s.works[w].stage.call))
    case EndSlot(w, threw) => Some(Q.Finish(s.works[w].stage.call, threw))
    case OtherQueue(qstep) => Some(qstep)
    case _ => None
  }

  lemma QueueMoves(s: Sys, step: Step)
    requires Enabled(s, step)
    ensures var q := QueueStep(s, step);
      if q.None? then Do(s, step).queue == s.queue
      else Q.Enabled(s.queue, q.value) && Do(s, step).queue == Q.Do(s.queue, q.value)
  {}

  /** A step of the queue changes at most the call it names. */
  lemma CallsStay(q: Q.State, step: Q.Step, c: Q.CallId)
    requires Q.Enabled(q, step) && c < |q.calls|
    ensures c < |Q.Do(q, step).calls| && Q.Do(q, step).calls[c].key == q.calls[c].key
    ensures Q.Do(q, step).calls[c] == q.calls[c] || ((step.Begin? || step.Finish?) && step.id == c)
  {}

  lemma OtherWorksStay(s: Sys, step: Step, v: WorkId)
    requires Enabled(s, step) && Mover(step) != Some(v)
    ensures v in Do(s, step).works <==> v in s.works
    ensures v in s.works ==> Do(s, step).works[v] == s.works[v]
  {}

  lemma OtherCallFits(s: Sys, step: Step, v: WorkId)
    requires QueueInv(s) && Enabled(s, step) && v in s.works && Mover(step) != Some(v)
    ensures v in Do(s, step).works && CallFits(Do(s, step), v)
  {
    var t := Do(s, step);
    OtherWorksStay(s, step, v);
    QueueMoves(s, step);
    assert CallFits(s, v);
    var stage := s.works[v].stage;
    if HasCall(stage) {
      var q := QueueStep(s, step);
      if q.Some? {
        CallsStay(s.queue, q.value, stage.call);
        if Mover(step).Some? && Mover(step).value in s.works { assert CallFits(s, Mover(step).value); }
      }
      forall u <- t.works ensures u != v && HasCall(t.works[u].stage) ==> t.works[u].stage.call != stage.call {
        if Mover(step) == Some(u) {
          if u in s.works { assert CallFits(s, u); }
        } else {
          OtherWorksStay(s, step, u);
        }
      }
    }
  }

  /** The mover keeps its call, gets a new one, or has none. */
  lemma OwnCallFits(s: Sys, step: Step)
    requires QueueInv(s) && Enabled(s, step) && Mover(step).Some?
    ensures step.w in Do(s, step).works && CallFits(Do(s, step), step.w)
  {
    var w, t := step.w, Do(s, step);
    QueueMoves(s, step);
    if w in s.works { assert CallFits(s, w); }
    if HasCall(t.works[w].stage) {
      forall v <- t.works ensures v != w && HasCall(t.works[v].stage) ==> t.works[v].stage.call != t.works[w].stage.call {
        if v != w {
          OtherWorksStay(s, step, v);
          assert CallFits(s, v);
        }
      }
    }
  }

  lemma StepKeepsQueue(s: Sys, step: Step)
    requires QueueInv(s) && Enabled(s, step)
    ensures QueueInv(Do(s, step))
  {
    var t := Do(s, step);
    QueueMoves(s, step);
    if QueueStep(s, step).Some? { Q.StepKeepsInv(s.queue, QueueStep(s, step).value); }
    if Mover(step).Some? { OwnCallFits(s, step); }
    forall w <- t.works ensures CallFits(t, w) {
      if Mover(step) != Some(w) {
        OtherWorksStay(s, step, w);
        OtherCallFits(s, step, w);
      }
    }
  }

  // ---- counting captures and deliveries --------------------------------------

  /** Exactly one snapshot is outstanding, or none. */
  ghost predicate Balanced(stamp: Stamp, transport: T.State) {
    stamp.captures == stamp.deliveries + if T.Consumed(transport) then 0 else 1
  }

  ghost predicate Settled(stamp: Stamp, now: Stamp) {
    stamp.captures == stamp.deliveries && stamp.captures <= now.captures && stamp.deliveries <= now.deliveries
  }

  ghost predicate WorkFits(s: Sys, w: WorkId)
    requires w in s.works
  {
    var work := s.works[w];
    && (work.checked.Some? ==> Settled(work.checked.value, s.stamp))
    && (work.tool == BeforeSlot && work.stage != Ended ==> work.checked.Some?)
    && (work.stage.Entered? || work.stage.Acting? ==> work.began == Some(s.stamp))
    && (work.stage.Acting? && work.tool == InSlot ==> work.checked == Some(s.stamp))
    && (work.stage.Acting? ==> work.tool != Reader)
  }

  ghost predicate CountInv(s: Sys) {
    T.Valid(s.transport) && Balanced(s.stamp, s.transport) && forall w <- s.works :: WorkFits(s, w)
  }

  lemma SaveBalances(stamp: Stamp, t: T.State, snapshot: U.Text, id: T.SnapshotId, owner: T.Identity)
    requires T.Valid(t) && Balanced(stamp, t) && T.Consumed(t)
    ensures var (u, reply) := T.SaveSnapshot(t, snapshot, id, owner);
      T.Valid(u) && Balanced(if reply.Piece? then stamp.(captures := stamp.captures + 1) else stamp, u)
  {
    T.SaveKeepsValid(t, snapshot, id, owner);
  }

  lemma ReadBalances(stamp: Stamp, t: T.State, e: T.Event)
    requires T.Valid(t) && Balanced(stamp, t) && e.ReadChunk?
    ensures var (u, reply) := T.Step(t, e);
      T.Valid(u)
      && Balanced(if reply.Piece? && reply.complete then stamp.(deliveries := stamp.deliveries + 1) else stamp, u)
  {
    T.StepKeepsValid(t, e);
  }

  lemma TransportStep(s: Sys, step: Step)
    requires CountInv(s) && Enabled(s, step)
    ensures var t := Do(s, step); T.Valid(t.transport) && Balanced(t.stamp, t.transport)
    ensures !step.Save? && !step.ReadChunk? ==>
      Do(s, step).stamp == s.stamp && Do(s, step).transport == s.transport
  {
    match step
    case Save(w, snapshot, id, owner) =>
      assert WorkFits(s, w);
      SaveBalances(s.stamp, s.transport, snapshot, id, owner);
    case ReadChunk(_, wanted, index, runtime, file) =>
      ReadBalances(s.stamp, s.transport, T.ReadChunk(wanted, index, runtime, file));
    case _ =>
  }

  lemma OwnWorkFits(s: Sys, step: Step)
    requires CountInv(s) && Enabled(s, step) && Mover(step).Some?
    ensures step.w in Do(s, step).works && WorkFits(Do(s, step), step.w)
  {
    assert step.w in s.works ==> WorkFits(s, step.w);
  }

  lemma StepKeepsCount(s: Sys, step: Step)
    requires QueueInv(s) && CountInv(s) && Enabled(s, step)
    ensures CountInv(Do(s, step))
  {
    var t := Do(s, step);
    TransportStep(s, step);
    if Mover(step).Some? { OwnWorkFits(s, step); }
    forall w <- t.works ensures WorkFits(t, w) {
      if Mover(step) != Some(w) {
        OtherWorksStay(s, step, w);
        assert WorkFits(s, w);
        if step.Save? || step.ReadChunk? {
          if InTheSlot(s.works[w].stage) { AloneInTheSlot(s, step.w, w); }
        }
      }
    }
  }

  lemma {:induction false} RunsKeepInv(steps: seq<Step>)
    requires After(steps).Some?
    ensures QueueInv(After(steps).value) && CountInv(After(steps).value)
    decreases |steps|
  {
    if steps != [] {
      var front, step := steps[..|steps| - 1], steps[|steps| - 1];
      RunsKeepInv(front);
      StepKeepsQueue(After(front).value, step);
      StepKeepsCount(After(front).value, step);
    }
  }

  // ---- guarded work and outstanding chunks -------------------------------------

  predicate Outstanding(s: Sys) { !T.Consumed(s.transport) }

  predicate Guarded(tool: Tool) { tool == InSlot || tool == BeforeSlot }

  predicate ActsNow(s: Sys, w: WorkId) { w in s.works && s.works[w].stage.Acting? }

  /**
   A guarded tool is at work in the browser while chunks are outstanding exactly
   when, between its check and its slot, one more snapshot was saved in chunks than
   was read to the end; nothing is saved or read while it is at work.
   */
  lemma GuardedWorkExactly(steps: seq<Step>, s: Sys, w: WorkId)
    requires After(steps) == Some(s) && ActsNow(s, w) && Guarded(s.works[w].tool)
    ensures var work := s.works[w];
      && work.checked.Some? && work.began == Some(s.stamp)
      && (Outstanding(s) <==>
            work.began.value.captures - work.checked.value.captures
              > work.began.value.deliveries - work.checked.value.deliveries)
  {
    RunsKeepInv(steps);
    assert WorkFits(s, w);
  }

  /** A tool that checks in its slot never works in the browser while chunks are outstanding. */
  lemma InSlotNeverOverUnread(steps: seq<Step>, s: Sys, w: WorkId)
    requires After(steps) == Some(s) && ActsNow(s, w) && s.works[w].tool == InSlot
    ensures !Outstanding(s)
  {
    RunsKeepInv(steps);
    assert WorkFits(s, w);
  }

  /** While chunks are outstanding every check of a guarded tool refuses. */
  lemma ChecksRefuse(s: Sys, step: Step)
    requires Enabled(s, step) && Outstanding(s) && (step.PreCheck? || step.SlotCheck?)
    ensures step.w in Do(s, step).works
    ensures !ActsNow(Do(s, step), step.w) && Do(s, step).works[step.w].stage != Passed
  {}

  /** No snapshot is ever overwritten before it was read: saving is the checked capture of the transport. */
  lemma SaveFindsNothingPending(steps: seq<Step>, s: Sys, step: Step)
    requires After(steps) == Some(s) && Enabled(s, step) && step.Save?
    ensures !Outstanding(s)
    ensures T.SaveSnapshot(s.transport, step.snapshot, step.id, step.owner)
      == T.Step(s.transport, T.Capture(step.snapshot, step.id, step.owner))
  {
    InSlotNeverOverUnread(steps, s, step.w);
  }

  /** Every run of the tools projects to a run of the transport, so its theorems hold of the tools. */
  lemma {:induction false} ProjectsToTransport(steps: seq<Step>) returns (events: seq<T.Event>)
    requires After(steps).Some?
    ensures T.Run(T.Start, events).0 == After(steps).value.transport
    decreases |steps|
  {
    if steps == [] {
      events := [];
    } else {
      var front, step := steps[..|steps| - 1], steps[|steps| - 1];
      var s := After(front).value;
      events := ProjectsToTransport(front);
      match step {
        case Save(_, snapshot, id, owner) =>
          SaveFindsNothingPending(front, s, step);
          events := Append(events, T.Capture(snapshot, id, owner));
        case ReadChunk(_, wanted, index, runtime, file) =>
          events := Append(events, T.ReadChunk(wanted, index, runtime, file));
        case _ =>
      }
    }
  }

  lemma Append(events: seq<T.Event>, e: T.Event) returns (more: seq<T.Event>)
    ensures more == events + [e]
    ensures T.Run(T.Start, more).0 == T.Step(T.Run(T.Start, events).0, e).0
  {
    more := events + [e];
    assert more[..|more| - 1] == events;
  }

  // ---- a guarded tool over unread chunks -------------------------------------

  const SAVER := Work(InSlot, Queued(0), None, None)
  const ZERO := Some(Stamp(0, 0))
  const SECTION := Work(BeforeSlot, Passed, ZERO, None)
  const CALL := Q.Call(BROWSER, None, Q.Waiting)
  const CHAINED := Q.Call(BROWSER, Some(0), Q.Waiting)

  const ONE_WAITS := Q.State([CALL], map[BROWSER := 0])
  const ONE_RUNS := Q.State([CALL.(phase := Q.Running)], map[BROWSER := 0])
  const TWO := Q.State([CALL.(phase := Q.Running), CHAINED], map[BROWSER := 1])
  const FIRST_DONE := Q.State([CALL.(phase := Q.Finished), CHAINED], map[BROWSER := 1])
  const SECOND_RUNS := Q.State([CALL.(phase := Q.Finished), CHAINED.(phase := Q.Running)], map[BROWSER := 1])

  const S1 := Sys(ONE_WAITS, T.Start, map[1 := SAVER], Stamp(0, 0))
  const S2 := Sys(ONE_RUNS, T.Start, map[1 := SAVER.(stage := Entered(0), began := ZERO)], Stamp(0, 0))
  const CHECKED := SAVER.(stage := Acting(0), began := ZERO, checked := ZERO)
  const S3 := Sys(ONE_RUNS, T.Start, map[1 := CHECKED], Stamp(0, 0))
  const S4 := Sys(ONE_RUNS, T.Start, map[1 := CHECKED, 2 := SECTION], Stamp(0, 0))
  const S5 := Sys(TWO, T.Start, map[1 := CHECKED, 2 := SECTION.(stage := Queued(1))], Stamp(0, 0))

  function S6(text: U.Text): Sys {
    Sys(TWO, T.SaveSnapshot(T.Start, text, 0, 0).0,
        map[1 := CHECKED.(stage := Leaving(0)), 2 := SECTION.(stage := Queued(1))], Stamp(1, 0))
  }

  function S7(text: U.Text): Sys {
    S6(text).(queue := FIRST_DONE, works := map[1 := CHECKED.(stage := Ended), 2 := SECTION.(stage := Queued(1))])
  }

  function S8(text: U.Text): Sys {
    S7(text).(queue := SECOND_RUNS, works :=
      map[1 := CHECKED.(stage := Ended), 2 := SECTION.(stage := Acting(1), began := Some(Stamp(1, 0)))])
  }

  ghost predicate Leads(s: Sys, step: Step, t: Sys) { Enabled(s, step) && Do(s, step) == t }

  lemma SaverStarts()
    ensures Leads(Start, Enqueue(1, InSlot), S1) && Leads(S1, BeginSlot(1), S2) && Leads(S2, SlotCheck(1), S3)
  {
    assert Start.works[1 := SAVER] == S1.works;
    assert Q.Do(Q.Empty, Q.Arrive(BROWSER)) == ONE_WAITS;
    assert Q.Do(ONE_WAITS, Q.Begin(0)) == ONE_RUNS;
    assert S1.works[1 := SAVER.(stage := Entered(0), began := ZERO)] == S2.works;
    assert S2.works[1 := CHECKED] == S3.works;
  }

  lemma SectionQueues()
    ensures Leads(S3, PreCheck(2), S4) && Leads(S4, Enqueue(2, BeforeSlot), S5)
  {
    assert S3.works[2 := SECTION] == S4.works;
    assert Q.Do(ONE_RUNS, Q.Arrive(BROWSER)) == TWO;
    assert S4.works[2 := SECTION.(stage := Queued(1))] == S5.works;
  }

  /** A text that is transported in chunks. */
  predicate InChunks(text: U.Text) { T.SNAPSHOT_CHUNK_BYTES < U.Bytes(text) <= T.MAX_SNAPSHOT_BYTES }

  lemma SaverSaves(text: U.Text)
    requires InChunks(text)
    ensures Leads(S5, Save(1, text, 0, 0), S6(text)) && Leads(S6(text), EndSlot(1, false), S7(text))
  {
    assert S5.works[1 := CHECKED.(stage := Leaving(0))] == S6(text).works;
    assert Q.Do(TWO, Q.Finish(0, false)) == FIRST_DONE;
    assert S6(text).works[1 := CHECKED.(stage := Ended)] == S7(text).works;
  }

  lemma SectionBegins(text: U.Text)
    requires InChunks(text)
    ensures Leads(S7(text), BeginSlot(2), S8(text)) && Outstanding(S8(text))
  {
    assert Q.Settled(FIRST_DONE, 0);
    assert Q.Do(FIRST_DONE, Q.Begin(1)) == SECOND_RUNS;
    assert S7(text).works[2 := SECTION.(stage := Acting(1), began := Some(Stamp(1, 0)))] == S8(text).works;
  }

  lemma Extend(before: seq<Step>, s: Sys, step: Step, t: Sys) returns (steps: seq<Step>)
    requires After(before) == Some(s) && Leads(s, step, t)
    ensures After(steps) == Some(t)
  {
    steps := before + [step];
    assert steps[..|before|] == before;
  }

  /**
   `cvent_section_state` passes its check while another tool is in its slot; that
   tool saves a snapshot in chunks; then the section tool works in the browser with
   every further chunk outstanding.  Any text over the limit will do.
   */
  lemma SectionActsOverUnread(text: U.Text) returns (steps: seq<Step>)
    requires InChunks(text)
    ensures After(steps) == Some(S8(text))
    ensures ActsNow(S8(text), 2) && S8(text).works[2].tool == BeforeSlot && Outstanding(S8(text))
  {
    SaverStarts();
    SectionQueues();
    SaverSaves(text);
    SectionBegins(text);
    steps := Extend([], Start, Enqueue(1, InSlot), S1);
    steps := Extend(steps, S1, BeginSlot(1), S2);
    steps := Extend(steps, S2, SlotCheck(1), S3);
    steps := Extend(steps, S3, PreCheck(2), S4);
    steps := Extend(steps, S4, Enqueue(2, BeforeSlot), S5);
    steps := Extend(steps, S5, Save(1, text, 0, 0), S6(text));
    steps := Extend(steps, S6(text), EndSlot(1, false), S7(text));
    steps := Extend(steps, S7(text), BeginSlot(2), S8(text));
  }

  function Letters(n: nat): U.Text { seq(n, _ => 0x61 as U.CodePoint) }

  /** One ASCII letter repeated is such a text from one letter over the limit on. */
  lemma {:induction false} LettersInChunks(n: nat)
    ensures U.Bytes(Letters(n)) == n
    ensures InChunks(Letters(n)) <==> T.SNAPSHOT_CHUNK_BYTES < n <= T.MAX_SNAPSHOT_BYTES
    decreases n
  {
    if n > 0 {
      LettersInChunks(n - 1);
      assert Letters(n)[..n - 1] == Letters(n - 1);
    }
  }
}
