/**
 The bytes behind the byte counts: UTF-8 as in section 3 of RFC 3629, which is what
 `Buffer.byteLength` measures and what the snapshot file holds.
 */
module Utf8 {
  import opened Utf8Chunks
  import opened SnapshotTransport

  type Byte = b: int | 0 <= b < 256

  /** The table of section 3 of RFC 3629. */
  function Encode(c: CodePoint): seq<Byte> {
    if c < 0x80 then [c]
    else if c < 0x800 then [0xC0 + c / 64, 0x80 + c % 64]
    else if c < 0x1_0000 then [0xE0 + c / 4096, 0x80 + c / 64 % 64, 0x80 + c % 64]
    else [0xF0 + c / 262144, 0x80 + c / 4096 % 64, 0x80 + c / 64 % 64, 0x80 + c % 64]
  }

  /** The length of a sequence is told by its first byte. */
  function LengthBy(first: Byte): nat {
    if first < 0x80 then 1 else if first < 0xE0 then 2 else if first < 0xF0 then 3 else 4
  }

  /** The six bits of a byte that continues a sequence. */
  function Tail(bytes: seq<Byte>, i: nat): int
    requires i < |bytes|
  {
    var b: int := bytes[i];
    b - 0x80
  }

  /** Reading the sequence at the front. */
  function Decode(bytes: seq<Byte>): int
    requires bytes != [] && |bytes| >= LengthBy(bytes[0])
  {
    var n, first: int := LengthBy(bytes[0]), bytes[0];
    if n == 1 then first
    else if n == 2 then (first - 0xC0) * 64 + Tail(bytes, 1)
    else if n == 3 then (first - 0xE0) * 4096 + Tail(bytes, 1) * 64 + Tail(bytes, 2)
    else (first - 0xF0) * 262144 + Tail(bytes, 1) * 4096 + Tail(bytes, 2) * 64 + Tail(bytes, 3)
  }

  /** What an encoder writes: a lone surrogate is replaced. */
  function EncodeText(t: Text): seq<Byte> {
    if t == [] then [] else Encode(StoredPoint(t[0])) + EncodeText(t[1..])
  }

  /** One code point encoded takes its width in bytes and is read back, whatever follows it. */
  lemma EncodingIsRead(c: CodePoint, rest: seq<Byte>)
    ensures |Encode(c)| == Width(c) == LengthBy(Encode(c)[0])
    ensures Decode(Encode(c) + rest) == c
  {
    var all := Encode(c) + rest;
    assert all[..|Encode(c)|] == Encode(c);
    assert c == c / 64 * 64 + c % 64 && c / 64 == c / 4096 * 64 + c / 64 % 64;
    assert c / 4096 == c / 262144 * 64 + c / 4096 % 64;
  }

  lemma {:induction false} BytesPrepend(c: CodePoint, t: Text)
    ensures Bytes([c] + t) == Width(c) + Bytes(t)
  {
    if t == [] {
      assert [c] + t == [c] && [c][..0] == [];
    } else {
      BytesPrepend(c, t[..|t| - 1]);
      assert ([c] + t)[..|t|] == [c] + t[..|t| - 1];
    }
  }

  /** The byte count of the program is the length of the encoded text. */
  lemma {:induction false} BytesAreEncoded(t: Text)
    ensures |EncodeText(t)| == Bytes(t)
  {
    if t != [] {
      EncodingIsRead(StoredPoint(t[0]), []);
      BytesAreEncoded(t[1..]);
      BytesPrepend(t[0], t[1..]);
      assert t == [t[0]] + t[1..];
    }
  }

  /** Reading back a file of encoded text. */
  ghost predicate ReadsAs(bytes: seq<Byte>, t: Text)
    decreases |t|
  {
    if t == [] then bytes == []
    else
      && bytes != [] && LengthBy(bytes[0]) <= |bytes| && Decode(bytes) == t[0]
      && ReadsAs(bytes[LengthBy(bytes[0])..], t[1..])
  }

  /** The file of a text is read back as its stored form, which differs only in lone surrogates. */
  lemma {:induction false} FileReadsAsStored(t: Text)
    ensures ReadsAs(EncodeText(t), Stored(t))
    decreases |t|
  {
    if t != [] {
      var first, rest := Encode(StoredPoint(t[0])), EncodeText(t[1..]);
      EncodingIsRead(StoredPoint(t[0]), rest);
      FileReadsAsStored(t[1..]);
      assert Stored(t)[1..] == Stored(t[1..]);
      assert (first + rest)[|first|..] == rest;
    }
  }

  /** Every chunk is within the limit as encoded. */
  lemma ChunkFilesFit(t: Text, maxBytes: nat, piece: Text)
    requires maxBytes >= 4 && piece in Chunks(t, maxBytes)
    ensures |EncodeText(piece)| <= maxBytes
  {
    ChunksWithinLimit(t, maxBytes);
    BytesAreEncoded(piece);
  }
}
