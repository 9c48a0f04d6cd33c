/**
 The promise-chained queue of the agent extension (`withQueue`).

 Each call runs in three pieces that the JavaScript event loop never interrupts:
 arriving (up to the first `await`), starting its operation, and the `finally`
 block.  Between pieces any other piece of any other call may run, so the queue
 is a state machine over those pieces.  Whether an operation fulfils or throws
 makes no difference to the queue; both are the same `Finish` step.
 */
module PromiseQueue {
  import opened Wrappers

  type Key = nat
  type CallId = nat

  datatype Phase = Waiting | Running | Finished

  /** `previous` is the call whose tail promise this one awaits, if the map held one. */
  datatype Call = Call(key: Key, previous: Option<CallId>, phase: Phase)

  /** `calls` in arrival order; `queues` maps a key to the call whose tail it holds. */
  datatype State = State(calls: seq<Call>, queues: map<Key, CallId>)

  datatype Step = Arrive(key: Key) | Begin(id: CallId) | Finish(id: CallId, threw: bool)

  const Empty := State([], map[])

  /** The tail promise of a call has resolved: it is finished and so was everything it chained on. */
  predicate Settled(s: State, id: CallId)
    decreases id
  {
    && id < |s.calls|
    && s.calls[id].phase == Finished
    && (s.calls[id].previous.Some? ==>
          s.calls[id].previous.value < id && Settled(s, s.calls[id].previous.value))
  }

  predicate Enabled(s: State, step: Step) {
    match step
    case Arrive(_) => true
    case Begin(id) =>
      && id < |s.calls| && s.calls[id].phase == Waiting
      && (s.calls[id].previous.Some? ==> Settled(s, s.calls[id].previous.value))
    case Finish(id, _) => id < |s.calls| && s.calls[id].phase == Running
  }

  function Do(s: State, step: Step): State
    requires Enabled(s, step)
  {
    match step
    case Arrive(key) =>
      var previous := if key in s.queues then Some(s.queues[key]) else None;
      State(s.calls + [Call(key, previous, Waiting)], s.queues[key := |s.calls|])
    case Begin(id) => s.(calls := s.calls[id := s.calls[id].(phase := Running)])
    case Finish(id, _) =>
      var c := s.calls[id];
      State(s.calls[id := c.(phase := Finished)],
            if c.key in s.queues && s.queues[c.key] == id then s.queues - {c.key} else s.queues)
  }

  /** The state after a run from the empty queue, if every step was enabled when taken. */
  function After(steps: seq<Step>): Option<State>
    decreases |steps|
  {
    if steps == [] then Some(Empty)
    else
      var before := After(steps[..|steps| - 1]);
      if before.Some? && Enabled(before.value, steps[|steps| - 1])
      then Some(Do(before.value, steps[|steps| - 1])) else None
  }

  // ---- the invariant -------------------------------------------------------

  ghost predicate Unfinished(s: State, id: CallId, key: Key) {
    id < |s.calls| && s.calls[id].key == key && s.calls[id].phase != Finished
  }

  /** Calls that have begun have nothing unfinished before them on their key. */
  ghost predicate BegunInOrder(s: State) {
    forall i, j | 0 <= i < j < |s.calls| && s.calls[i].key == s.calls[j].key ::
      s.calls[j].phase != Waiting ==> s.calls[i].phase == Finished
  }

  /** The map entry is the newest call of its key and that call is unfinished. */
  ghost predicate MapIsNewest(s: State) {
    && (forall k <- s.queues :: Unfinished(s, s.queues[k], k))
    && (forall k <- s.queues, i | s.queues[k] < i < |s.calls| :: s.calls[i].key != k)
    && (forall i | 0 <= i < |s.calls| && s.calls[i].phase != Finished :: s.calls[i].key in s.queues)
  }

  /** A call awaits an earlier call of its key, and everything it does not chain on is finished. */
  ghost predicate ChainsCoverTheRest(s: State) {
    forall i | 0 <= i < |s.calls| ::
      var c := s.calls[i];
      && (c.previous.Some? ==> c.previous.value < i && s.calls[c.previous.value].key == c.key)
      && forall j | 0 <= j < i && s.calls[j].key == c.key && s.calls[j].phase != Finished ::
           c.previous.Some? && j <= c.previous.value
  }

  ghost predicate Inv(s: State) { BegunInOrder(s) && MapIsNewest(s) && ChainsCoverTheRest(s) }

  /** A settled tail means that its whole key is finished up to that call. */
  lemma {:induction false} SettledMeansAllFinished(s: State, id: CallId, j: CallId)
    requires ChainsCoverTheRest(s) && Settled(s, id)
    requires j <= id && s.calls[j].key == s.calls[id].key
    ensures s.calls[j].phase == Finished
    decreases id
  {
    if j < id && s.calls[j].phase != Finished {
      SettledMeansAllFinished(s, s.calls[id].previous.value, j);
    }
  }

  lemma ArriveKeepsOrder(s: State, key: Key)
    requires Inv(s)
    ensures BegunInOrder(Do(s, Arrive(key))) && ChainsCoverTheRest(Do(s, Arrive(key)))
  {}

  lemma ArriveKeepsMap(s: State, key: Key)
    requires MapIsNewest(s)
    ensures MapIsNewest(Do(s, Arrive(key)))
  {
    var t := Do(s, Arrive(key));
    forall k <- t.queues ensures Unfinished(t, t.queues[k], k) {
      assert k != key ==> Unfinished(s, s.queues[k], k);
    }
    forall i | 0 <= i < |t.calls| && t.calls[i].phase != Finished ensures t.calls[i].key in t.queues {
      assert i < |s.calls| ==> s.calls[i].key in s.queues;
    }
  }

  lemma BeginKeepsInv(s: State, id: CallId)
    requires Inv(s) && Enabled(s, Begin(id))
    ensures Inv(Do(s, Begin(id)))
  {
    var t := Do(s, Begin(id));
    var c := s.calls[id];
    forall j | 0 <= j < id && s.calls[j].key == c.key ensures s.calls[j].phase == Finished {
      if s.calls[j].phase != Finished {
        SettledMeansAllFinished(s, c.previous.value, j);
      }
    }
    assert BegunInOrder(t);
    PhaseKeepsMap(s, id, Running);
    PhaseKeepsChains(s, t, id);
  }

  /** Setting a call of a key to an unfinished phase leaves the map right. */
  lemma PhaseKeepsMap(s: State, id: CallId, phase: Phase)
    requires MapIsNewest(s) && id < |s.calls| && s.calls[id].phase != Finished && phase != Finished
    ensures MapIsNewest(s.(calls := s.calls[id := s.calls[id].(phase := phase)]))
  {
    var t := s.(calls := s.calls[id := s.calls[id].(phase := phase)]);
    forall k <- t.queues ensures Unfinished(t, t.queues[k], k) {
      assert Unfinished(s, s.queues[k], k);
    }
    forall i | 0 <= i < |t.calls| && t.calls[i].phase != Finished ensures t.calls[i].key in t.queues {
      assert s.calls[i].phase != Finished;
    }
  }

  /** Moving a call forward breaks no chain. */
  lemma PhaseKeepsChains(s: State, t: State, id: CallId)
    requires ChainsCoverTheRest(s) && id < |s.calls| && s.calls[id].phase != Finished
    requires |t.calls| == |s.calls| && t.calls[id] == s.calls[id].(phase := t.calls[id].phase)
    requires forall i | 0 <= i < |s.calls| && i != id :: t.calls[i] == s.calls[i]
    ensures ChainsCoverTheRest(t)
  {
    forall i | 0 <= i < |t.calls|
      ensures t.calls[i].previous.Some? ==>
        t.calls[i].previous.value < i && t.calls[t.calls[i].previous.value].key == t.calls[i].key
      ensures forall j | 0 <= j < i && t.calls[j].key == t.calls[i].key && t.calls[j].phase != Finished ::
        t.calls[i].previous.Some? && j <= t.calls[i].previous.value
    {
      assert t.calls[i].previous == s.calls[i].previous && t.calls[i].key == s.calls[i].key;
    }
  }

  lemma FinishKeepsMap(s: State, id: CallId, threw: bool)
    requires BegunInOrder(s) && MapIsNewest(s) && Enabled(s, Finish(id, threw))
    ensures MapIsNewest(Do(s, Finish(id, threw)))
  {
    var t := Do(s, Finish(id, threw));
    forall k <- t.queues ensures Unfinished(t, t.queues[k], k) {
      assert Unfinished(s, s.queues[k], k);
    }
    forall i | 0 <= i < |t.calls| && t.calls[i].phase != Finished ensures t.calls[i].key in t.queues {
      assert i != id && s.calls[i].key in s.queues;
    }
  }

  lemma FinishKeepsInv(s: State, id: CallId, threw: bool)
    requires Inv(s) && Enabled(s, Finish(id, threw))
    ensures Inv(Do(s, Finish(id, threw)))
  {
    var t := Do(s, Finish(id, threw));
    assert BegunInOrder(t);
    FinishKeepsMap(s, id, threw);
    PhaseKeepsChains(s, t, id);
  }

  lemma StepKeepsInv(s: State, step: Step)
    requires Inv(s) && Enabled(s, step)
    ensures Inv(Do(s, step))
  {
    match step
    case Arrive(key) =>
      ArriveKeepsOrder(s, key);
      ArriveKeepsMap(s, key);
    case Begin(id) => BeginKeepsInv(s, id);
    case Finish(id, threw) => FinishKeepsInv(s, id, threw);
  }

  lemma {:induction false} RunsKeepInv(s: State, steps: seq<Step>)
    requires After(steps) == Some(s)
    ensures Inv(s)
    decreases |steps|
  {
    if steps != [] {
      var before := After(steps[..|steps| - 1]).value;
      RunsKeepInv(before, steps[..|steps| - 1]);
      StepKeepsInv(before, steps[|steps| - 1]);
    }
  }

  // ---- what callers rely on ------------------------------------------------

  /** In every reachable state at most one operation runs per key. */
  lemma OneAtATime(s: State, steps: seq<Step>, i: CallId, j: CallId)
    requires After(steps) == Some(s)
    requires i < |s.calls| && j < |s.calls| && s.calls[i].key == s.calls[j].key
    requires s.calls[i].phase == Running && s.calls[j].phase == Running
    ensures i == j
  {
    RunsKeepInv(s, steps);
  }

  /** The map holds an entry for a key exactly while some operation on it is unfinished. */
  lemma MapHoldsUnfinishedKeys(s: State, steps: seq<Step>, key: Key)
    requires After(steps) == Some(s)
    ensures key in s.queues <==> exists i :: Unfinished(s, i, key)
  {
    RunsKeepInv(s, steps);
    if key in s.queues {
      assert Unfinished(s, s.queues[key], key);
    }
  }

  /** The unfinished calls of a key among the first n, oldest first: the abstract FIFO queue. */
  function Line(s: State, key: Key, n: nat): (line: seq<CallId>)
    requires n <= |s.calls|
    ensures forall a | 0 <= a < |line| :: line[a] < n
  {
    if n == 0 then []
    else if s.calls[n - 1].key == key && s.calls[n - 1].phase != Finished
      then Line(s, key, n - 1) + [n - 1]
      else Line(s, key, n - 1)
  }

  function Queue(s: State, key: Key): seq<CallId> { Line(s, key, |s.calls|) }

  lemma {:induction false} LineHolds(s: State, key: Key, n: nat)
    requires n <= |s.calls|
    ensures forall i: CallId :: i in Line(s, key, n) <==> i < n && Unfinished(s, i, key)
    ensures forall a, b | 0 <= a < b < |Line(s, key, n)| :: Line(s, key, n)[a] < Line(s, key, n)[b]
  {
    if n > 0 { LineHolds(s, key, n - 1); }
  }

  lemma {:induction false} NobodyWaits(s: State, key: Key, n: nat)
    requires n <= |s.calls| && forall i: CallId | i < n :: !Unfinished(s, i, key)
    ensures Line(s, key, n) == []
  {
    if n > 0 {
      NobodyWaits(s, key, n - 1);
      assert !Unfinished(s, n - 1, key);
    }
  }

  /** When the same calls are unfinished, the line is the same. */
  lemma {:induction false} SameLine(s: State, t: State, key: Key, n: nat)
    requires n <= |s.calls| && n <= |t.calls|
    requires forall i: CallId | i < n :: Unfinished(t, i, key) <==> Unfinished(s, i, key)
    ensures Line(t, key, n) == Line(s, key, n)
  {
    if n > 0 {
      SameLine(s, t, key, n - 1);
      assert Unfinished(t, n - 1, key) <==> Unfinished(s, n - 1, key);
    }
  }

  /** When the oldest unfinished call finishes, the line loses its head. */
  lemma {:induction false} LineLosesHead(s: State, t: State, key: Key, n: nat, gone: CallId)
    requires gone < n <= |s.calls| && n <= |t.calls| && Unfinished(s, gone, key)
    requires forall i: CallId | i < gone :: !Unfinished(s, i, key)
    requires forall i: CallId | i < n :: Unfinished(t, i, key) <==> Unfinished(s, i, key) && i != gone
    ensures Line(s, key, n) == [gone] + Line(t, key, n)
  {
    assert Unfinished(t, n - 1, key) <==> Unfinished(s, n - 1, key) && n - 1 != gone;
    if n - 1 == gone {
      NobodyWaits(s, key, gone);
      NobodyWaits(t, key, gone);
    } else {
      LineLosesHead(s, t, key, n - 1, gone);
    }
  }

  lemma ArriveEnqueues(s: State, k: Key, key: Key)
    ensures Queue(Do(s, Arrive(k)), key) == if k == key then Queue(s, key) + [|s.calls|] else Queue(s, key)
  {
    SameLine(s, Do(s, Arrive(k)), key, |s.calls|);
  }

  lemma BeginTakesHead(s: State, id: CallId, key: Key)
    requires Inv(s) && Enabled(s, Begin(id))
    ensures Queue(Do(s, Begin(id)), key) == Queue(s, key)
    ensures s.calls[id].key == key ==> Queue(s, key) != [] && Queue(s, key)[0] == id
  {
    var t := Do(s, Begin(id));
    BeginKeepsInv(s, id);
    SameLine(s, t, key, |s.calls|);
    if s.calls[id].key == key {
      HeadIs(s, t, key, id);
    }
  }

  lemma FinishDequeues(s: State, id: CallId, threw: bool, key: Key)
    requires Inv(s) && Enabled(s, Finish(id, threw))
    ensures Queue(s, key) == (if s.calls[id].key == key then [id] else []) + Queue(Do(s, Finish(id, threw)), key)
  {
    var t := Do(s, Finish(id, threw));
    if s.calls[id].key == key {
      LineLosesHead(s, t, key, |s.calls|, id);
    } else {
      SameLine(s, t, key, |s.calls|);
    }
  }

  /**
   The promise chain refines a FIFO queue: arriving enqueues at the back, only the
   head ever begins, finishing (normally or by throwing) dequeues the head, and a
   step on one key leaves the queues of the others alone.
   */
  lemma RefinesFifo(s: State, steps: seq<Step>, step: Step, key: Key)
    requires After(steps) == Some(s) && Enabled(s, step)
    ensures var q, q' := Queue(s, key), Queue(Do(s, step), key);
      match step
      case Arrive(k) => q' == if k == key then q + [|s.calls|] else q
      case Begin(id) => q' == q && (s.calls[id].key == key ==> q != [] && q[0] == id)
      case Finish(id, _) => q == (if s.calls[id].key == key then [id] else []) + q'
  {
    RunsKeepInv(s, steps);
    match step
    case Arrive(k) => ArriveEnqueues(s, k, key);
    case Begin(id) => BeginTakesHead(s, id, key);
    case Finish(id, threw) => FinishDequeues(s, id, threw, key);
  }

  /** A call with nothing unfinished before it heads the queue. */
  lemma HeadIs(s: State, t: State, key: Key, id: CallId)
    requires id < |s.calls| == |t.calls| && Unfinished(s, id, key)
    requires forall i | 0 <= i < id :: t.calls[i].key == s.calls[i].key && t.calls[i].phase == s.calls[i].phase
    requires t.calls[id].key == key && t.calls[id].phase == Running && BegunInOrder(t)
    ensures Queue(s, key) != [] && Queue(s, key)[0] == id
  {
    LineHolds(s, key, |s.calls|);
    var q := Queue(s, key);
    assert id in q && q[0] in q;
    assert forall i | 0 <= i < id && s.calls[i].key == key :: t.calls[i].phase == Finished;
  }

  /** The queue never gets stuck: the head either runs or may begin. */
  lemma HeadCanProceed(s: State, steps: seq<Step>, key: Key)
    requires After(steps) == Some(s) && Queue(s, key) != []
    ensures var h := Queue(s, key)[0]; s.calls[h].phase == Running || Enabled(s, Begin(h))
  {
    RunsKeepInv(s, steps);
    LineHolds(s, key, |s.calls|);
    var q := Queue(s, key);
    var h := q[0];
    assert h in q;
    forall j | 0 <= j < h && s.calls[j].key == key ensures s.calls[j].phase == Finished {
      assert Unfinished(s, j, key) ==> j in q;
    }
    if s.calls[h].previous.Some? {
      FinishedChainSettles(s, s.calls[h].previous.value, h);
    }
  }

  lemma {:induction false} FinishedChainSettles(s: State, id: CallId, bound: CallId)
    requires ChainsCoverTheRest(s) && id < bound < |s.calls|
    requires forall j | 0 <= j < bound && s.calls[j].key == s.calls[id].key :: s.calls[j].phase == Finished
    ensures Settled(s, id)
    decreases id
  {
    var c := s.calls[id];
    if c.previous.Some? {
      FinishedChainSettles(s, c.previous.value, bound);
    }
  }
}
