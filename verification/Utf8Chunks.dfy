/**
 The greedy UTF-8 chunker of the agent extension (`utf8Chunks`).

 Text is a sequence of code points, which is how JavaScript's string iterator
 delivers it.  A lone surrogate is delivered as a code point of its own and is
 encoded as U+FFFD, hence in three bytes like every other code point of its row
 in the table of section 3 of RFC 3629.
 */
module Utf8Chunks {

  type CodePoint = c: int | 0 <= c <= 0x10FFFF
  type Text = seq<CodePoint>

  /** `Buffer.byteLength` of one character: the octet counts of section 3 of RFC 3629. */
  function Width(c: CodePoint): (w: nat)
    ensures 1 <= w <= 4
  {
    if c <= 0x7F then 1 else if c <= 0x7FF then 2 else if c <= 0xFFFF then 3 else 4
  }

  function Bytes(t: Text): nat {
    if t == [] then 0 else Bytes(t[..|t| - 1]) + Width(t[|t| - 1])
  }

  function Concat(pieces: seq<Text>): Text {
    if pieces == [] then [] else Concat(pieces[..|pieces| - 1]) + pieces[|pieces| - 1]
  }

  /** The state of the scan after a prefix of the text: finished chunks and the open one. */
  datatype Scan = Scan(chunks: seq<Text>, current: Text)

  function ScanPrefix(t: Text, maxBytes: nat): Scan {
    if t == [] then Scan([], [])
    else
      Advance(ScanPrefix(t[..|t| - 1], maxBytes), t[|t| - 1], maxBytes)
  }

  /** One round of the loop. */
  function Advance(s: Scan, c: CodePoint, maxBytes: nat): Scan {
    if s.current != [] && Bytes(s.current) + Width(c) > maxBytes
    then Scan(s.chunks + [s.current], [c])
    else Scan(s.chunks, s.current + [c])
  }

  function Chunks(t: Text, maxBytes: nat): seq<Text> {
    var s := ScanPrefix(t, maxBytes);
    if s.current != [] || s.chunks == [] then s.chunks + [s.current] else s.chunks
  }

  lemma ScanNext(t: Text, i: nat, maxBytes: nat)
    requires i < |t|
    ensures ScanPrefix(t[..i + 1], maxBytes) == Advance(ScanPrefix(t[..i], maxBytes), t[i], maxBytes)
  {
    assert t[..i + 1][..i] == t[..i];
  }

  lemma BytesSnoc(t: Text, c: CodePoint)
    ensures Bytes(t + [c]) == Bytes(t) + Width(c)
  {
    assert (t + [c])[..|t|] == t;
  }

  /** The loop of `utf8Chunks`, over the same variables. */
  method Split(text: Text, maxBytes: nat) returns (chunks: seq<Text>)
    ensures chunks == Chunks(text, maxBytes)
  {
    chunks := [];
    var current: Text, currentBytes := [], 0;
    for i := 0 to |text|
      invariant Scan(chunks, current) == ScanPrefix(text[..i], maxBytes)
      invariant currentBytes == Bytes(current)
    {
      var character := text[i];
      var size := Width(character);
      ScanNext(text, i, maxBytes);
      if current != [] && currentBytes + size > maxBytes {
        chunks := chunks + [current];
        current, currentBytes := [], 0;
      }
      BytesSnoc(current, character);
      current := current + [character];
      currentBytes := currentBytes + size;
    }
    assert text[..|text|] == text;
    if current != [] || |chunks| == 0 {
      chunks := chunks + [current];
    }
  }

  // ---- nothing is lost, and every chunk fits -----------------------------

  lemma ConcatSnoc(pieces: seq<Text>, p: Text)
    ensures Concat(pieces + [p]) == Concat(pieces) + p
  {
    assert (pieces + [p])[..|pieces|] == pieces;
  }

  /** A chunk is over the limit only when it is one code point that cannot fit at all. */
  predicate Fits(p: Text, maxBytes: nat) { p != [] && (Bytes(p) <= maxBytes || |p| == 1) }

  /** One round loses nothing and never overfills a chunk. */
  lemma AdvanceKeepsText(s: Scan, c: CodePoint, maxBytes: nat)
    requires s.current != [] ==> Fits(s.current, maxBytes)
    ensures var n := Advance(s, c, maxBytes);
      && Concat(n.chunks) + n.current == Concat(s.chunks) + s.current + [c]
      && (n.chunks == s.chunks || (s.current != [] && n.chunks == s.chunks + [s.current]))
      && Fits(n.current, maxBytes)
  {
    ConcatSnoc(s.chunks, s.current);
    BytesSnoc(s.current, c);
    assert s.current == [] ==> s.current + [c] == [c];
  }

  ghost predicate Sound(s: Scan, t: Text, maxBytes: nat) {
    && Concat(s.chunks) + s.current == t
    && (forall p <- s.chunks :: Fits(p, maxBytes))
    && (if t == [] then s.chunks == [] else Fits(s.current, maxBytes))
  }

  lemma AdvanceKeepsSound(s: Scan, t: Text, c: CodePoint, maxBytes: nat)
    requires Sound(s, t, maxBytes)
    ensures Sound(Advance(s, c, maxBytes), t + [c], maxBytes)
  {
    var n := Advance(s, c, maxBytes);
    AdvanceKeepsText(s, c, maxBytes);
    forall p <- n.chunks ensures Fits(p, maxBytes) {
      assert p in s.chunks || p == s.current;
    }
  }

  lemma {:induction false} ScanKeepsText(t: Text, maxBytes: nat)
    ensures Sound(ScanPrefix(t, maxBytes), t, maxBytes)
  {
    if t != [] {
      var front, c := t[..|t| - 1], t[|t| - 1];
      ScanKeepsText(front, maxBytes);
      AdvanceKeepsSound(ScanPrefix(front, maxBytes), front, c, maxBytes);
      assert t == front + [c];
    }
  }

  /** Concatenating the chunks gives the text back; no chunk of a non-empty text is empty. */
  lemma ChunksLossless(t: Text, maxBytes: nat)
    ensures Concat(Chunks(t, maxBytes)) == t
    ensures |Chunks(t, maxBytes)| >= 1
    ensures t != [] ==> forall p <- Chunks(t, maxBytes) :: Fits(p, maxBytes)
    ensures t == [] ==> Chunks(t, maxBytes) == [[]]
  {
    ScanKeepsText(t, maxBytes);
    var s := ScanPrefix(t, maxBytes);
    ConcatSnoc(s.chunks, s.current);
    assert t == [] ==> Concat([]) + [] == t;
  }

  lemma {:induction false} WidthWithin(t: Text, c: CodePoint)
    requires c in t
    ensures Width(c) <= Bytes(t)
  {
    if c != t[|t| - 1] { WidthWithin(t[..|t| - 1], c); }
  }

  /** When each code point fits, every chunk does. */
  lemma ChunksWithinLimit(t: Text, maxBytes: nat)
    requires forall c <- t :: Width(c) <= maxBytes
    ensures forall p <- Chunks(t, maxBytes) :: Bytes(p) <= maxBytes
  {
    ChunksLossless(t, maxBytes);
    forall p | p in Chunks(t, maxBytes) ensures Bytes(p) <= maxBytes {
      if |p| == 1 {
        PieceInside(Chunks(t, maxBytes), p, p[0]);
        assert p[..0] == [];
      }
    }
  }

  lemma {:induction false} PieceInside(pieces: seq<Text>, p: Text, c: CodePoint)
    requires p in pieces && c in p
    ensures c in Concat(pieces)
  {
    if p != pieces[|pieces| - 1] { PieceInside(pieces[..|pieces| - 1], p, c); }
  }

  // ---- no split is shorter ------------------------------------------------

  /** A split at code-point boundaries in which every piece fits. */
  predicate IsSplit(pieces: seq<Text>, t: Text, maxBytes: nat) {
    Concat(pieces) == t && forall p <- pieces :: Bytes(p) <= maxBytes
  }

  /** The scan has opened no more chunks than the split, and when as many, its open chunk is no larger. */
  ghost predicate Ahead(s: Scan, pieces: seq<Text>) {
    && |pieces| >= |s.chunks| + 1
    && (|pieces| == |s.chunks| + 1 ==> Bytes(pieces[|pieces| - 1]) >= Bytes(s.current))
  }

  /** One more code point, appended to the last piece of the split. */
  lemma AdvanceStaysAhead(s: Scan, rest: seq<Text>, last: Text, c: CodePoint, maxBytes: nat)
    requires Ahead(s, rest + [last]) && Bytes(last + [c]) <= maxBytes
    ensures Ahead(Advance(s, c, maxBytes), rest + [last + [c]])
  {
    BytesSnoc(last, c);
    BytesSnoc(s.current, c);
    BytesSnoc([], c);
    assert [] + [c] == [c];
    assert (rest + [last])[|rest|] == last && (rest + [last + [c]])[|rest|] == last + [c];
  }

  /** The first code point: any split has a piece, and it holds at least this much. */
  lemma FirstIsAhead(rest: seq<Text>, c: CodePoint, maxBytes: nat)
    ensures Ahead(Advance(Scan([], []), c, maxBytes), rest + [[c]])
  {
    assert (rest + [[c]])[|rest|] == [c];
  }

  lemma LastPiece(pieces: seq<Text>, t: Text, maxBytes: nat)
    requires t != [] && IsSplit(pieces, t, maxBytes)
    ensures pieces != []
    ensures var rest, last := pieces[..|pieces| - 1], pieces[|pieces| - 1];
      && (last == [] ==> IsSplit(rest, t, maxBytes))
      && (last != [] ==> last[|last| - 1] == t[|t| - 1] && Bytes(last) <= maxBytes)
      && (last != [] ==> IsSplit(rest + [last[..|last| - 1]], t[..|t| - 1], maxBytes))
  {
    var rest, last := pieces[..|pieces| - 1], pieces[|pieces| - 1];
    assert t == Concat(rest) + last;
    assert last in pieces;
    if last != [] {
      var shorter := last[..|last| - 1];
      ConcatSnoc(rest, shorter);
      assert t[..|t| - 1] == Concat(rest) + shorter;
      assert Bytes(last) == Bytes(shorter) + Width(last[|last| - 1]);
      forall p <- rest + [shorter] ensures Bytes(p) <= maxBytes {
        assert p in rest ==> p in pieces;
      }
    }
  }

  /**
   After every prefix the greedy scan has opened as few chunks as any split of
   that prefix, and among the splits with that many pieces its open chunk is the
   smallest last piece.
   */
  lemma {:induction false} GreedyStaysAhead(pieces: seq<Text>, t: Text, maxBytes: nat)
    requires t != [] && IsSplit(pieces, t, maxBytes)
    ensures Ahead(ScanPrefix(t, maxBytes), pieces)
    decreases |t|, |pieces|
  {
    LastPiece(pieces, t, maxBytes);
    var rest, last := pieces[..|pieces| - 1], pieces[|pieces| - 1];
    var front, c := t[..|t| - 1], t[|t| - 1];
    if last == [] {
      GreedyStaysAhead(rest, t, maxBytes);
    } else {
      var shorter := last[..|last| - 1];
      assert last == shorter + [c] && pieces == rest + [shorter + [c]];
      if front == [] {
        assert Concat(rest + [shorter]) == [] && ScanPrefix(front, maxBytes) == Scan([], []);
        ConcatSnoc(rest, shorter);
        assert shorter == [] && shorter + [c] == [c];
        FirstIsAhead(rest, c, maxBytes);
      } else {
        GreedyStaysAhead(rest + [shorter], front, maxBytes);
        AdvanceStaysAhead(ScanPrefix(front, maxBytes), rest, shorter, c, maxBytes);
      }
    }
  }

  /** No split at code-point boundaries with every piece within the limit has fewer pieces. */
  lemma GreedyIsOptimal(pieces: seq<Text>, t: Text, maxBytes: nat)
    requires IsSplit(pieces, t, maxBytes) && (t == [] ==> pieces != [])
    ensures |Chunks(t, maxBytes)| <= |pieces|
  {
    if t != [] {
      GreedyStaysAhead(pieces, t, maxBytes);
      ScanKeepsText(t, maxBytes);
    } else {
      assert ScanPrefix(t, maxBytes) == Scan([], []);
    }
  }

  lemma ConcatOne(p: Text)
    ensures Concat([p]) == p
  {
    ConcatSnoc([], p);
    assert [] + [p] == [p];
  }

  /** A text longer than the limit takes at least two chunks. */
  lemma LongTextIsSplit(t: Text, maxBytes: nat)
    requires Bytes(t) > maxBytes >= 4
    ensures |Chunks(t, maxBytes)| >= 2
  {
    ChunksLossless(t, maxBytes);
    ChunksWithinLimit(t, maxBytes);
    var first := Chunks(t, maxBytes)[0];
    assert first in Chunks(t, maxBytes);
    ConcatOne(first);
  }
}
