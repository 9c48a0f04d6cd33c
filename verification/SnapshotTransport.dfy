/**
 The in-order transport of a large page snapshot (`saveLargeSnapshot`,
 `assertSnapshotConsumed` and the `cvent_snapshot_chunk` tool).

 A snapshot over the chunk limit is written to a private file and announced in
 a pending record; its first chunk is returned at once and the rest is read back
 from the file, one chunk at a time.
 */
module SnapshotTransport {
  import opened Wrappers
  import opened Utf8Chunks

  const SNAPSHOT_CHUNK_BYTES := 36 * 1024
  const MAX_SNAPSHOT_BYTES := 2 * 1024 * 1024

  // ---- what a UTF-8 file keeps of a JavaScript string ---------------------

  predicate LoneSurrogate(c: CodePoint) { 0xD800 <= c <= 0xDFFF }

  /** One code point encoded to UTF-8 and decoded again: a lone surrogate becomes U+FFFD. */
  function StoredPoint(c: CodePoint): CodePoint { if LoneSurrogate(c) then 0xFFFD else c }

  function Stored(t: Text): Text { seq(|t|, i requires 0 <= i < |t| => StoredPoint(t[i])) }

  function StoredAll(pieces: seq<Text>): seq<Text> {
    seq(|pieces|, i requires 0 <= i < |pieces| => Stored(pieces[i]))
  }

  lemma StoredAppend(a: Text, b: Text)
    ensures Stored(a + b) == Stored(a) + Stored(b)
  {}

  lemma {:induction false} StoredBytes(t: Text)
    ensures Bytes(Stored(t)) == Bytes(t)
  {
    if t != [] {
      StoredBytes(t[..|t| - 1]);
      assert Stored(t)[..|t| - 1] == Stored(t[..|t| - 1]);
    }
  }

  function StoredState(s: Scan): Scan { Scan(StoredAll(s.chunks), Stored(s.current)) }

  lemma StoredAdvance(s: Scan, c: CodePoint, maxBytes: nat)
    ensures Advance(StoredState(s), StoredPoint(c), maxBytes) == StoredState(Advance(s, c, maxBytes))
  {
    StoredBytes(s.current);
    assert StoredAll(s.chunks + [s.current]) == StoredAll(s.chunks) + [Stored(s.current)];
    assert Stored(s.current + [c]) == Stored(s.current) + [StoredPoint(c)];
    assert Stored([c]) == [StoredPoint(c)];
  }

  /** Storing does not move the chunk boundaries. */
  lemma {:induction false} StoredScan(t: Text, maxBytes: nat)
    ensures ScanPrefix(Stored(t), maxBytes) == StoredState(ScanPrefix(t, maxBytes))
  {
    if t != [] {
      var front, c := t[..|t| - 1], t[|t| - 1];
      StoredScan(front, maxBytes);
      StoredAdvance(ScanPrefix(front, maxBytes), c, maxBytes);
      assert Stored(t)[..|t| - 1] == Stored(front);
    }
  }

  lemma StoredChunks(t: Text, maxBytes: nat)
    ensures Chunks(Stored(t), maxBytes) == StoredAll(Chunks(t, maxBytes))
  {
    StoredScan(t, maxBytes);
    var s := ScanPrefix(t, maxBytes);
    assert StoredAll(s.chunks + [s.current]) == StoredAll(s.chunks) + [Stored(s.current)];
  }

  // ---- the transport as a state machine -----------------------------------

  /** Browser runtime, target, worker slot, job and workspace the snapshot belongs to. */
  type Identity = nat
  type SnapshotId = nat

  /** The pending record; `digest` stands for the SHA-256 of the stored text (taken as injective). */
  datatype Pending = Pending(id: SnapshotId, owner: Identity, digest: Text,
                             totalChunks: nat, nextChunk: nat, complete: bool)

  /** `captured` and `received` are what was put in and what the reader has been handed. */
  datatype State = State(pending: Option<Pending>, captured: Text, received: seq<Text>)

  datatype Refusal = NotConsumed | TooLarge | NotActive | IdentityMismatch | Unreadable | Integrity | OutOfOrder

  datatype Reply =
    | Whole(text: Text)
    | Piece(index: nat, totalChunks: nat, complete: bool, text: Text)
    | Refused(why: Refusal)

  datatype Event =
    | Capture(snapshot: Text, id: SnapshotId, owner: Identity)
    | ReadChunk(wanted: SnapshotId, index: int, runtime: Identity, file: Option<Text>)

  predicate Consumed(s: State) { s.pending.Some? ==> s.pending.value.complete }

  /** `saveLargeSnapshot`, which looks at nothing that may still be pending. */
  function SaveSnapshot(s: State, snapshot: Text, id: SnapshotId, owner: Identity): (State, Reply) {
    if Bytes(snapshot) > MAX_SNAPSHOT_BYTES then (s, Refused(TooLarge))
    else if Bytes(snapshot) <= SNAPSHOT_CHUNK_BYTES then (s, Whole(snapshot))
    else
      var chunks := Chunks(snapshot, SNAPSHOT_CHUNK_BYTES);
      ChunksLossless(snapshot, SNAPSHOT_CHUNK_BYTES);
      var pending := Pending(id, owner, Stored(snapshot), |chunks|, 1, false);
      (State(Some(pending), snapshot, [chunks[0]]), Piece(0, |chunks|, false, chunks[0]))
  }

  /** A capture is a check followed by a save; module `GuardedWork` shows when nothing comes between. */
  function Step(s: State, e: Event): (State, Reply) {
    match e
    case Capture(snapshot, id, owner) =>
      if !Consumed(s) then (s, Refused(NotConsumed)) else SaveSnapshot(s, snapshot, id, owner)
    case ReadChunk(wanted, index, runtime, file) =>
      if s.pending.None? || s.pending.value.complete || s.pending.value.id != wanted then (s, Refused(NotActive))
      else if s.pending.value.owner != runtime then (s, Refused(IdentityMismatch))
      else if file.None? then (s, Refused(Unreadable))
      else if file.value != s.pending.value.digest then (s, Refused(Integrity))
      else
        var p := s.pending.value;
        var chunks := Chunks(file.value, SNAPSHOT_CHUNK_BYTES);
        if |chunks| != p.totalChunks then (s, Refused(Integrity))
        else if index != p.nextChunk || !(0 <= index < |chunks|) then (s, Refused(OutOfOrder))
        else
          var complete := index == |chunks| - 1;
          (s.(pending := Some(p.(nextChunk := index + 1, complete := complete)),
              received := s.received + [chunks[index]]),
           Piece(index, |chunks|, complete, chunks[index]))
  }

  /** The first chunk comes from memory, the others from the file. */
  function Delivery(captured: Text): seq<Text> {
    ChunksLossless(captured, SNAPSHOT_CHUNK_BYTES);
    Chunks(captured, SNAPSHOT_CHUNK_BYTES)[..1] + Chunks(Stored(captured), SNAPSHOT_CHUNK_BYTES)[1..]
  }

  ghost predicate Valid(s: State) {
    s.pending.Some? ==>
      var p, all := s.pending.value, Delivery(s.captured);
      && p.digest == Stored(s.captured)
      && p.totalChunks == |all| >= 2
      && 1 <= p.nextChunk <= |all|
      && p.complete == (p.nextChunk == |all|)
      && s.received == all[..p.nextChunk]
  }

  /**
   What saving answers: over 2 MiB a refusal, up to 36 KiB the text itself, in between
   the first of several chunks, of which the second can be read next, by the same
   browser and under the id given out.
   */
  lemma SaveAnswers(s: State, snapshot: Text, id: SnapshotId, owner: Identity)
    ensures var (u, reply) := SaveSnapshot(s, snapshot, id, owner);
      && (Bytes(snapshot) > 2_097_152 ==> reply == Refused(TooLarge) && u == s)
      && (Bytes(snapshot) <= 36_864 ==> reply == Whole(snapshot) && u == s)
      && (36_864 < Bytes(snapshot) <= 2_097_152 ==>
            var all := Chunks(snapshot, 36_864);
            && all != [] && reply == Piece(0, |all|, false, all[0]) && !Consumed(u)
            && forall wanted, runtime ::
                 var answer := Step(u, ReadChunk(wanted, 1, runtime, Some(Stored(snapshot)))).1;
                 if wanted != id then answer == Refused(NotActive)
                 else if runtime != owner then answer == Refused(IdentityMismatch)
                 else answer.Piece? && answer.index == 1 && answer.totalChunks == |all|)
  {
    if 36_864 < Bytes(snapshot) {
      LongTextIsSplit(snapshot, SNAPSHOT_CHUNK_BYTES);
      StoredChunks(snapshot, SNAPSHOT_CHUNK_BYTES);
    }
  }

  lemma SaveKeepsValid(s: State, snapshot: Text, id: SnapshotId, owner: Identity)
    requires Valid(s)
    ensures Valid(SaveSnapshot(s, snapshot, id, owner).0)
  {
    if Bytes(snapshot) > SNAPSHOT_CHUNK_BYTES {
      LongTextIsSplit(snapshot, SNAPSHOT_CHUNK_BYTES);
      StoredChunks(snapshot, SNAPSHOT_CHUNK_BYTES);
      assert Delivery(snapshot)[..1] == [Chunks(snapshot, SNAPSHOT_CHUNK_BYTES)[0]];
    }
  }

  lemma StepKeepsValid(s: State, e: Event)
    requires Valid(s)
    ensures Valid(Step(s, e).0)
  {
    match e
    case Capture(snapshot, id, owner) => SaveKeepsValid(s, snapshot, id, owner);
    case ReadChunk(_, index, _, _) =>
      if s.pending.Some? && index == s.pending.value.nextChunk < s.pending.value.totalChunks {
        StoredChunks(s.captured, SNAPSHOT_CHUNK_BYTES);
        var all := Delivery(s.captured);
        assert all[index] == Chunks(Stored(s.captured), SNAPSHOT_CHUNK_BYTES)[index];
        assert all[..index + 1] == all[..index] + [all[index]];
      }
  }

  // ---- whole runs ----------------------------------------------------------

  /** The replies of a run, in order, from an arbitrary valid state. */
  function Run(s: State, events: seq<Event>): (State, seq<Reply>)
    decreases |events|
  {
    if events == [] then (s, [])
    else
      var r := Run(s, events[..|events| - 1]);
      var q := Step(r.0, events[|events| - 1]);
      (q.0, r.1 + [q.1])
  }

  const Start := State(None, [], [])

  /** The chunks handed out since the last capture, oldest first. */
  function Handed(replies: seq<Reply>): seq<Reply> {
    if replies == [] then []
    else
      var last, before := replies[|replies| - 1], replies[..|replies| - 1];
      if !last.Piece? then Handed(before)
      else if last.index == 0 then [last]
      else Handed(before) + [last]
  }

  /** The reader has been handed the chunks of the captured text up to the next one, in order, once each. */
  ghost predicate Arrived(s: State, handed: seq<Reply>) {
    if s.pending.None? then handed == []
    else
      var all := Delivery(s.captured);
      && |handed| == s.pending.value.nextChunk <= |all|
      && forall i | 0 <= i < |handed| :: handed[i] == Piece(i, |all|, i == |all| - 1, all[i])
  }

  lemma CaptureArrives(s: State, e: Event)
    requires Valid(s) && e.Capture? && Step(s, e).1.Piece?
    ensures Arrived(Step(s, e).0, [Step(s, e).1])
  {
    StepKeepsValid(s, e);
    StoredChunks(e.snapshot, SNAPSHOT_CHUNK_BYTES);
    var all := Delivery(e.snapshot);
    assert all[0] == Chunks(e.snapshot, SNAPSHOT_CHUNK_BYTES)[0];
  }

  lemma ReadArrives(s: State, e: Event, handed: seq<Reply>)
    requires Valid(s) && e.ReadChunk? && Step(s, e).1.Piece? && Arrived(s, handed)
    ensures Step(s, e).1.index > 0 && Arrived(Step(s, e).0, handed + [Step(s, e).1])
  {
    StepKeepsValid(s, e);
    StoredChunks(s.captured, SNAPSHOT_CHUNK_BYTES);
    var all := Delivery(s.captured);
    assert all[e.index] == Chunks(Stored(s.captured), SNAPSHOT_CHUNK_BYTES)[e.index];
  }

  lemma RefusalChangesNothing(s: State, e: Event)
    ensures !Step(s, e).1.Piece? ==> Step(s, e).0 == s
  {}

  /**
   Over every run: the reader is handed chunk 0, then 1, 2, ... of one snapshot,
   each exactly once, and the record says "complete" exactly when it got them all.
   */
  lemma {:induction false} ChunksArriveInOrder(events: seq<Event>)
    ensures var (s, replies) := Run(Start, events);
      Valid(s) && Arrived(s, Handed(replies))
  {
    if events != [] {
      var before, e := events[..|events| - 1], events[|events| - 1];
      ChunksArriveInOrder(before);
      var (s, replies) := Run(Start, before);
      var r := Step(s, e).1;
      StepKeepsValid(s, e);
      RefusalChangesNothing(s, e);
      assert (replies + [r])[..|replies|] == replies;
      if r.Piece? {
        if e.Capture? {
          CaptureArrives(s, e);
        } else {
          ReadArrives(s, e, Handed(replies));
        }
      }
    }
  }

  // ---- what a read answers ---------------------------------------------------

  /** The refusals of a read, each exactly when, and a chunk otherwise. */
  lemma ReadAnswers(s: State, wanted: SnapshotId, index: int, runtime: Identity, file: Option<Text>)
    requires Valid(s)
    ensures var answer := Step(s, ReadChunk(wanted, index, runtime, file)).1;
      var active := s.pending.Some? && !s.pending.value.complete && s.pending.value.id == wanted;
      var mine := active && s.pending.value.owner == runtime;
      var intact := mine && file == Some(Stored(s.captured));
      && (answer == Refused(NotActive) <==> !active)
      && (answer == Refused(IdentityMismatch) <==> active && !mine)
      && (answer == Refused(Unreadable) <==> mine && file.None?)
      && (answer == Refused(Integrity) <==> mine && file.Some? && !intact)
      && (answer == Refused(OutOfOrder) <==> intact && index != s.pending.value.nextChunk)
      && (answer.Piece? <==> intact && index == s.pending.value.nextChunk)
  {
    StoredChunks(s.captured, SNAPSHOT_CHUNK_BYTES);
  }

  // ---- when the next chunk can still be read ---------------------------------

  /**
   The next chunk can be handed out exactly while the snapshot is incomplete, the
   reader's browser identity is the one it was captured under, and the file still
   holds the stored text.
   */
  lemma NextChunkReadable(s: State, runtime: Identity, file: Option<Text>)
    requires Valid(s)
    ensures (exists wanted, index :: Step(s, ReadChunk(wanted, index, runtime, file)).1.Piece?) <==>
      s.pending.Some? && !s.pending.value.complete && s.pending.value.owner == runtime
        && file == Some(Stored(s.captured))
  {
    if s.pending.Some? && !s.pending.value.complete && s.pending.value.owner == runtime
       && file == Some(Stored(s.captured)) {
      var p := s.pending.value;
      StoredChunks(s.captured, SNAPSHOT_CHUNK_BYTES);
      assert Step(s, ReadChunk(p.id, p.nextChunk, runtime, file)).1.Piece?;
    }
  }

  /** Every later event comes from a browser other than the one the pending snapshot belongs to. */
  predicate Foreign(s: State, e: Event) {
    s.pending.Some? && (e.ReadChunk? ==> e.runtime != s.pending.value.owner)
  }

  /**
   An incomplete snapshot whose browser is gone is final: it can neither be read on
   nor be superseded, and every guarded capture is refused for ever.
   */
  lemma {:induction false} OrphanBlocksForEver(s: State, events: seq<Event>)
    requires s.pending.Some? && !s.pending.value.complete && forall e <- events :: Foreign(s, e)
    ensures Run(s, events).0 == s
    ensures forall r <- Run(s, events).1 :: r.Refused?
    decreases |events|
  {
    if events != [] {
      var front := events[..|events| - 1];
      assert forall e <- front :: e in events;
      OrphanBlocksForEver(s, front);
      assert events[|events| - 1] in events;
    }
  }

  // ---- what has been delivered at the end ----------------------------------

  lemma {:induction false} ConcatPrepend(first: Text, rest: seq<Text>)
    ensures Concat([first] + rest) == first + Concat(rest)
  {
    if rest == [] {
      assert [first] + rest == [first];
      ConcatOne(first);
      assert Concat(rest) == [];
    } else {
      var front, last := rest[..|rest| - 1], rest[|rest| - 1];
      ConcatPrepend(first, front);
      assert ([first] + rest)[..|rest|] == [first] + front;
    }
  }

  lemma CutOff(a: Text, b: Text, x: Text, y: Text)
    requires |a| == |b| && a + x == b + y
    ensures a == b && x == y
  {
    assert (a + x)[..|a|] == a && (b + y)[..|a|] == b;
    assert (a + x)[|a|..] == x && (b + y)[|a|..] == y;
  }

  /** Swapping the chunks after the first for their stored forms. */
  lemma Reassemble(t: Text, first: Text, live: seq<Text>, stored: seq<Text>)
    requires Concat([first] + live) == t && Concat([Stored(first)] + stored) == Stored(t)
    ensures first <= t && Concat([first] + stored) == first + Stored(t[|first|..])
  {
    ConcatPrepend(first, live);
    ConcatPrepend(Stored(first), stored);
    ConcatPrepend(first, stored);
    var rest := t[|first|..];
    assert t == first + rest;
    StoredAppend(first, rest);
    CutOff(Stored(first), Stored(first), Concat(stored), Stored(rest));
  }

  /** What the reader holds at completion. */
  lemma DeliveryText(t: Text)
    ensures var first := Chunks(t, SNAPSHOT_CHUNK_BYTES)[0];
      first <= t && Concat(Delivery(t)) == first + Stored(t[|first|..])
  {
    var a := Chunks(t, SNAPSHOT_CHUNK_BYTES);
    var b := Chunks(Stored(t), SNAPSHOT_CHUNK_BYTES);
    ChunksLossless(t, SNAPSHOT_CHUNK_BYTES);
    ChunksLossless(Stored(t), SNAPSHOT_CHUNK_BYTES);
    StoredChunks(t, SNAPSHOT_CHUNK_BYTES);
    HeadAndTail(a, b, Stored(a[0]));
    Reassemble(t, a[0], a[1..], b[1..]);
  }

  lemma HeadAndTail(a: seq<Text>, b: seq<Text>, head: Text)
    requires a != [] && b != [] && b[0] == head
    ensures a == [a[0]] + a[1..] && b == [head] + b[1..] && a[..1] + b[1..] == [a[0]] + b[1..]
  {}

  lemma StoredIntact(t: Text)
    ensures Stored(t) == t <==> forall c <- t :: !LoneSurrogate(c)
  {
    if Stored(t) == t {
      forall i | 0 <= i < |t| ensures !LoneSurrogate(t[i]) {
        assert Stored(t)[i] == StoredPoint(t[i]);
      }
    }
  }

  /**
   At completion the reader holds the captured text with every lone surrogate
   after the first chunk replaced by U+FFFD; so it holds the captured text itself
   exactly when there is no such surrogate.
   */
  lemma DeliveredText(t: Text)
    ensures var first := Chunks(t, SNAPSHOT_CHUNK_BYTES)[0];
      && first <= t
      && Concat(Delivery(t)) == first + Stored(t[|first|..])
      && (Concat(Delivery(t)) == t <==> forall c <- t[|first|..] :: !LoneSurrogate(c))
  {
    DeliveryText(t);
    var first := Chunks(t, SNAPSHOT_CHUNK_BYTES)[0];
    var rest := t[|first|..];
    StoredIntact(rest);
    assert t == first + rest;
    if first + Stored(rest) == t {
      CutOff(first, first, Stored(rest), rest);
    }
  }

  /** A text of one ASCII letter repeated, then one lone surrogate, is not delivered intact. */
  lemma LoneSurrogateIsReplaced()
    ensures var t := seq(SNAPSHOT_CHUNK_BYTES, _ => 0x61 as CodePoint) + [0xD800];
      Concat(Delivery(t)) != t
  {
    var t := seq(SNAPSHOT_CHUNK_BYTES, _ => 0x61 as CodePoint) + [0xD800];
    DeliveredText(t);
    ChunksLossless(t, SNAPSHOT_CHUNK_BYTES);
    var first := Chunks(t, SNAPSHOT_CHUNK_BYTES)[0];
    assert Fits(first, SNAPSHOT_CHUNK_BYTES);
    if |first| == |t| {
      assert first == t;
      AtLeastOneByteEach(t);
    }
    assert t[|first|..][|t| - 1 - |first|] == 0xD800;
  }

  lemma {:induction false} AtLeastOneByteEach(t: Text)
    ensures Bytes(t) >= |t|
  {
    if t != [] { AtLeastOneByteEach(t[..|t| - 1]); }
  }

  // ---- the object holding the pending record ------------------------------

  class Transport {
    var pending: Option<Pending>
    ghost var captured: Text
    ghost var received: seq<Text>

    ghost function Model(): State
      reads this
    {
      State(pending, captured, received)
    }

    constructor ()
      ensures Model() == Start && Valid(Model())
    {
      pending, captured, received := None, [], [];
    }

    /** `assertSnapshotConsumed`. */
    method AssertConsumed() returns (ok: bool)
      ensures ok <==> Consumed(Model())
    {
      ok := pending.None? || pending.value.complete;
    }

    /** `saveLargeSnapshot`. */
    method Save(snapshot: Text, id: SnapshotId, owner: Identity) returns (reply: Reply)
      requires Valid(Model())
      modifies this
      ensures (Model(), reply) == SaveSnapshot(old(Model()), snapshot, id, owner)
      ensures Valid(Model())
    {
      SaveKeepsValid(Model(), snapshot, id, owner);
      var bytes := Bytes(snapshot);
      if bytes > MAX_SNAPSHOT_BYTES {
        return Refused(TooLarge);
      }
      if bytes <= SNAPSHOT_CHUNK_BYTES {
        return Whole(snapshot);
      }
      var chunks := Split(snapshot, SNAPSHOT_CHUNK_BYTES);
      ChunksLossless(snapshot, SNAPSHOT_CHUNK_BYTES);
      pending := Some(Pending(id, owner, Stored(snapshot), |chunks|, 1, false));
      captured, received := snapshot, [chunks[0]];
      reply := Piece(0, |chunks|, false, chunks[0]);
    }

    /** The body of `cvent_snapshot_chunk`; `file` is what the snapshot file now holds. */
    method Read(wanted: SnapshotId, index: int, runtime: Identity, file: Option<Text>) returns (reply: Reply)
      requires Valid(Model())
      modifies this
      ensures (Model(), reply) == Step(old(Model()), ReadChunk(wanted, index, runtime, file))
      ensures Valid(Model())
    {
      StepKeepsValid(Model(), ReadChunk(wanted, index, runtime, file));
      if pending.None? || pending.value.complete || pending.value.id != wanted {
        return Refused(NotActive);
      }
      if pending.value.owner != runtime {
        return Refused(IdentityMismatch);
      }
      if file.None? {
        return Refused(Unreadable);
      }
      if file.value != pending.value.digest {
        return Refused(Integrity);
      }
      var chunks := Split(file.value, SNAPSHOT_CHUNK_BYTES);
      if |chunks| != pending.value.totalChunks {
        return Refused(Integrity);
      }
      if index != pending.value.nextChunk || !(0 <= index < |chunks|) {
        return Refused(OutOfOrder);
      }
      var complete := index == |chunks| - 1;
      pending := Some(pending.value.(nextChunk := index + 1, complete := complete));
      received := received + [chunks[index]];
      reply := Piece(index, |chunks|, complete, chunks[index]);
    }
  }
}
