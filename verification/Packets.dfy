/** Type-length-value packets, and reading one from a buffer or from a sequence of buffers. */
module Packets {
  import opened Bytes
  import opened Wrappers

  const NONE: Byte := 0x00
  const VALUE_REQUEST: Byte := 0x07
  const VALUE_RESPONSE: Byte := 0x08
  const KEY_LIST: Byte := 0x09

  /** One byte of type and eight of length. */
  const HEADER: nat := 9

  datatype Tlv = Tlv(kind: Byte, value: seq<Byte>)

  /** A packet being read: `remaining` bytes of its value are still to come. */
  datatype Partial = Partial(kind: Byte, value: seq<Byte>, remaining: nat)

  datatype Outcome = Outcome(packet: Partial, consumed: nat, finished: bool)

  /** A packet whose size fits the size_t arithmetic of the reader. */
  predicate Fits(p: Tlv) {
    HEADER + |p.value| < U64_LIMIT
  }

  function Packed(p: Tlv): (bytes: seq<Byte>)
    ensures |bytes| == HEADER + |p.value|
  {
    [p.kind] + LittleEndian(|p.value|, 8) + p.value
  }

  function LengthField(buf: seq<Byte>): (n: nat)
    requires |buf| >= HEADER
    ensures n < U64_LIMIT
  {
    WidthLimits();
    FromLittleEndian(buf[1..HEADER])
  }

  /** The header announces a value whose end is addressable. */
  predicate Addressable(buf: seq<Byte>) {
    |buf| >= HEADER ==> HEADER + LengthField(buf) < U64_LIMIT
  }

  /** Moves as much of the value as there is from `buf`, starting at `at`. */
  function Fill(p: Partial, buf: seq<Byte>, at: nat): Outcome
    requires at <= |buf|
  {
    var n := Min(p.remaining, |buf| - at);
    Outcome(Partial(p.kind, p.value + buf[at..at + n], p.remaining - n), at + n, n == p.remaining)
  }

  /** `Packet::partial_unpack`; a buffer too short for the header leaves `finished` as it was. */
  function PartialUnpack(p: Partial, front: bool, buf: seq<Byte>, finished: bool): Outcome {
    if !front then Fill(p, buf, 0)
    else if |buf| < 1 then Outcome(Partial(NONE, [], 0), 0, finished)
    else if |buf| < HEADER then Outcome(Partial(NONE, [], 0), 1, finished)
    else Fill(Partial(buf[0], [], LengthField(buf)), buf, HEADER)
  }

  /** The packet at the front of `buf`, if all of it is there. */
  function FirstPacket(buf: seq<Byte>): Option<Tlv> {
    if |buf| < HEADER || HEADER + LengthField(buf) > |buf| then None
    else Some(Tlv(buf[0], buf[HEADER..HEADER + LengthField(buf)]))
  }

  /** The packet and the result after `unpack`; -1 stands for a packet that is not all there. */
  datatype Whole = Whole(packet: Partial, consumed: int)

  /** `Packet::unpack`: a failure clears type and value, and leaves the remaining length that was
      announced, or the one from before if the buffer is too short to announce any. */
  function UnpackWhole(remainingBefore: nat, buf: seq<Byte>): Whole {
    if |buf| < HEADER then Whole(Partial(NONE, [], remainingBefore), -1)
    else if HEADER + LengthField(buf) > |buf| then Whole(Partial(NONE, [], LengthField(buf)), -1)
    else
      var end := HEADER + LengthField(buf);
      Whole(Partial(buf[0], buf[HEADER..end], 0), end)
  }

  class Packet {
    var kind: Byte
    var value: seq<Byte>
    var remaining: nat

    constructor ()
      ensures View() == Partial(NONE, [], 0)
    {
      kind, value, remaining := NONE, [], 0;
    }

    ghost function View(): Partial
      reads this
    {
      Partial(kind, value, remaining)
    }

    method Pack() returns (packed: seq<Byte>)
      ensures packed == Packed(Tlv(kind, value))
    {
      packed := [kind];
      packed := packed + LittleEndian(|value|, 8);
      packed := packed + value;
    }

    /** Reads one whole packet, or returns -1. */
    method Unpack(buf: seq<Byte>) returns (consumed: int)
      requires Addressable(buf)
      modifies this
      ensures Whole(View(), consumed) == UnpackWhole(old(remaining), buf)
    {
      var pos := 0;
      kind, value := NONE, [];
      if pos + 1 > |buf| {
        return -1;
      }
      kind := buf[pos];
      pos := pos + 1;
      if pos + 8 > |buf| {
        kind := NONE;
        return -1;
      }
      remaining := LengthField(buf);
      pos := pos + 8;
      if pos + remaining > |buf| {
        kind := NONE;
        return -1;
      }
      value := value + buf[pos..pos + remaining];
      pos := pos + remaining;
      remaining := 0;
      return pos;
    }

    /** Reads as much of the packet as `buf` holds. */
    method ReadPart(front: bool, buf: seq<Byte>, finishedBefore: bool) returns (pos: nat, finished: bool)
      requires front ==> Addressable(buf)
      modifies this
      ensures Outcome(View(), pos, finished) == PartialUnpack(old(View()), front, buf, finishedBefore)
    {
      pos, finished := 0, finishedBefore;
      if front {
        kind, value, remaining := NONE, [], 0;
        if pos + 1 > |buf| {
          return;
        }
        kind := buf[pos];
        pos := pos + 1;
        if pos + 8 > |buf| {
          kind := NONE;
          return;
        }
        remaining := LengthField(buf);
        pos := pos + 8;
      }
      if pos + remaining > |buf| {
        var toRead := |buf| - pos;
        value := value + buf[pos..pos + toRead];
        pos := pos + toRead;
        remaining := remaining - toRead;
      } else {
        value := value + buf[pos..pos + remaining];
        pos := pos + remaining;
        remaining := 0;
      }
      finished := remaining == 0;
    }
  }

  // ---- one packet, one buffer ----

  lemma HeaderOf(p: Tlv, rest: seq<Byte>)
    requires Fits(p)
    ensures LengthField(Packed(p) + rest) == |p.value|
    ensures (Packed(p) + rest)[0] == p.kind
    ensures (Packed(p) + rest)[HEADER..] == p.value + rest
  {
    hide LittleEndian, FromLittleEndian;
    var len := LittleEndian(|p.value|, 8);
    var bytes := [p.kind] + len + p.value + rest;
    assert bytes == Packed(p) + rest;
    assert bytes[1..HEADER] == len;
    assert bytes[HEADER..] == p.value + rest;
    LengthRoundTrip(|p.value|);
  }

  lemma LengthRoundTrip(n: nat)
    requires n < U64_LIMIT
    ensures FromLittleEndian(LittleEndian(n, 8)) == n
  {
    WidthLimits();
    LittleEndianRoundTrip(n, 8);
  }

  /** Packing and reading back gives the packet, whatever follows it. */
  lemma UnpackPack(p: Tlv, rest: seq<Byte>)
    requires Fits(p)
    ensures FirstPacket(Packed(p) + rest) == Some(p)
  {
    HeaderOf(p, rest);
    var buf := Packed(p) + rest;
    assert buf[HEADER..HEADER + |p.value|] == buf[HEADER..][..|p.value|] == p.value;
  }

  /** The packet at the front is the one packet whose bytes the buffer begins with. */
  lemma FirstPacketIff(buf: seq<Byte>, p: Tlv)
    requires Addressable(buf)
    ensures FirstPacket(buf) == Some(p) <==> Fits(p) && Packed(p) <= buf
  {
    hide LittleEndian, FromLittleEndian;
    if FirstPacket(buf) == Some(p) {
      LittleEndianOnto(buf[1..HEADER]);
      assert Packed(p) == buf[..HEADER + |p.value|];
    }
    if Fits(p) && Packed(p) <= buf {
      UnpackPack(p, buf[|Packed(p)|..]);
      assert Packed(p) + buf[|Packed(p)|..] == buf;
    }
  }

  /** `unpack` succeeds exactly when the buffer holds all of the packet at its front, and then
      gives that packet; it fails otherwise. */
  lemma UnpackTakesFirst(remainingBefore: nat, buf: seq<Byte>)
    ensures var w := UnpackWhole(remainingBefore, buf);
            match FirstPacket(buf)
            case Some(p) => w == Whole(Partial(p.kind, p.value, 0), HEADER + |p.value|)
            case None => w.consumed == -1 && w.packet.kind == NONE && w.packet.value == []
  {
  }

  /** A failed `unpack` leaves the packet as a new one if and only if the buffer has no whole header
      and nothing was left to read before. */
  lemma FailedUnpackResetsIff(remainingBefore: nat, buf: seq<Byte>)
    requires FirstPacket(buf).None?
    ensures UnpackWhole(remainingBefore, buf).packet == Partial(NONE, [], 0)
       <==> |buf| < HEADER && remainingBefore == 0
  {
  }

  /** A failure that does not reset a new packet: a header that announces five bytes, and no more. */
  lemma FailedUnpackKeepsLength()
    ensures UnpackWhole(0, [KEY_LIST] + LittleEndian(5, 8)) == Whole(Partial(NONE, [], 5), -1)
  {
    var p := Tlv(KEY_LIST, [0, 0, 0, 0, 0]);
    var buf := [KEY_LIST] + LittleEndian(5, 8);
    HeaderOf(p, []);
    assert (Packed(p) + [])[1..HEADER] == LittleEndian(5, 8) == buf[1..HEADER];
  }

  // ---- one packet, many buffers ----

  function Flat(chunks: seq<seq<Byte>>): seq<Byte> {
    if chunks == [] then [] else chunks[0] + Flat(chunks[1..])
  }

  datatype Fed = Fed(outcome: Outcome, calls: nat)

  /** Calls `partial_unpack` on one buffer after the other until it has finished. */
  function Feed(p: Partial, front: bool, chunks: seq<seq<Byte>>): Fed
    decreases |chunks|
  {
    if chunks == [] then Fed(Outcome(p, 0, false), 0)
    else
      var o := PartialUnpack(p, front, chunks[0], false);
      if o.finished then Fed(o, 1)
      else
        var r := Feed(o.packet, false, chunks[1..]);
        Fed(r.outcome.(consumed := o.consumed + r.outcome.consumed), 1 + r.calls)
  }

  lemma {:induction false} FeedValue(p: Partial, chunks: seq<seq<Byte>>)
    requires p.remaining > 0
    ensures var o, bytes := Feed(p, false, chunks).outcome, Flat(chunks);
            var n := Min(p.remaining, |bytes|);
            && o.consumed == n
            && o.finished == (n == p.remaining)
            && o.packet == Partial(p.kind, p.value + bytes[..n], p.remaining - n)
    decreases |chunks|
  {
    if chunks != [] {
      var first, bytes := chunks[0], Flat(chunks);
      var o := PartialUnpack(p, false, first, false);
      if !o.finished {
        FeedValue(o.packet, chunks[1..]);
        var n := Min(p.remaining - |first|, |Flat(chunks[1..])|);
        assert bytes[..|first| + n] == first + Flat(chunks[1..])[..n];
        assert p.value + first + Flat(chunks[1..])[..n] == p.value + bytes[..|first| + n];
      } else {
        assert bytes[..p.remaining] == first[..p.remaining];
      }
    }
  }

  /** Cutting the bytes into buffers anywhere, but not inside the header, changes nothing: the
      same packet comes out after the same number of bytes, `finished` turns true exactly when
      the whole packet is there, and until then every buffer is used up. */
  lemma ChunkingIsIrrelevant(p: Partial, chunks: seq<seq<Byte>>)
    requires chunks != [] && |chunks[0]| >= HEADER && Addressable(chunks[0])
    ensures var o := Feed(p, true, chunks).outcome;
            match FirstPacket(Flat(chunks))
            case Some(whole) =>
              o.finished && o.packet == Partial(whole.kind, whole.value, 0) && o.consumed == HEADER + |whole.value|
            case None => !o.finished && o.consumed == |Flat(chunks)|
  {
    hide LittleEndian, FromLittleEndian;
    var first, bytes := chunks[0], Flat(chunks);
    var o := PartialUnpack(p, true, first, false);
    assert bytes[1..HEADER] == first[1..HEADER];
    assert bytes[0] == first[0];
    var len := LengthField(first);
    if o.finished {
      assert bytes[HEADER..HEADER + len] == first[HEADER..HEADER + len];
    } else {
      FeedValue(o.packet, chunks[1..]);
      var n := Min(HEADER + len - |first|, |Flat(chunks[1..])|);
      assert bytes[HEADER..|first| + n] == first[HEADER..] + Flat(chunks[1..])[..n];
    }
  }

  /** Cutting inside the header loses the packet: whatever was sent, the next buffer makes it an empty
      packet of no type, read to its end after at most one byte. */
  lemma CutHeaderIsLost(p: Partial, chunks: seq<seq<Byte>>)
    requires |chunks| > 1 && |chunks[0]| < 9
    ensures Feed(p, true, chunks).outcome == Outcome(Partial(0, [], 0), if chunks[0] == [] then 0 else 1, true)
  {
    var o := PartialUnpack(p, true, chunks[0], false);
    var r := PartialUnpack(o.packet, false, chunks[1], false);
    assert r == Outcome(Partial(NONE, [], 0), 0, true);
  }

  /** So cutting changes nothing if and only if the header is in one buffer. */
  lemma ChunkingIff(p: Partial, chunks: seq<seq<Byte>>)
    requires |chunks| > 1 && Addressable(chunks[0]) && FirstPacket(Flat(chunks)).Some?
    ensures var o, whole := Feed(p, true, chunks).outcome, FirstPacket(Flat(chunks)).value;
            o == Outcome(Partial(whole.kind, whole.value, 0), 9 + |whole.value|, true) <==> |chunks[0]| >= 9
  {
    if |chunks[0]| >= HEADER {
      ChunkingIsIrrelevant(p, chunks);
    } else {
      CutHeaderIsLost(p, chunks);
    }
  }

  // ---- how many buffers ----

  const BUFFER_SIZE: nat := 4096

  predicate Buffers(chunks: seq<seq<Byte>>) {
    forall i | 0 <= i < |chunks| :: |chunks[i]| == BUFFER_SIZE
  }

  /** How often the buffer is refilled while a packet with `len` bytes of value is read. */
  function Refills(len: nat): nat {
    (HEADER + len + BUFFER_SIZE - 1) / BUFFER_SIZE - 1
  }

  lemma {:induction false} FeedCalls(p: Partial, chunks: seq<seq<Byte>>)
    requires p.remaining > 0 && Buffers(chunks)
    requires BUFFER_SIZE * |chunks| >= p.remaining
    ensures Feed(p, false, chunks).calls == (p.remaining + BUFFER_SIZE - 1) / BUFFER_SIZE
    decreases |chunks|
  {
    var o := PartialUnpack(p, false, chunks[0], false);
    if !o.finished {
      FeedCalls(o.packet, chunks[1..]);
    }
  }

  lemma {:induction false} FlatSize(chunks: seq<seq<Byte>>)
    requires Buffers(chunks)
    ensures |Flat(chunks)| == BUFFER_SIZE * |chunks|
  {
    if chunks != [] {
      FlatSize(chunks[1..]);
    }
  }

  /** Whatever the buffers hold, reading a packet takes the first buffer and exactly
      `Refills(len)` more, and every call before the last uses up its whole buffer: the branch
      for a partly used buffer is never taken inside the loop. */
  lemma RefillCount(p: Partial, chunks: seq<seq<Byte>>, k: nat)
    requires Buffers(chunks) && chunks != [] && Addressable(chunks[0])
    requires |chunks| > Refills(LengthField(chunks[0]))
    ensures var len := LengthField(chunks[0]);
            && Feed(p, true, chunks).calls == 1 + Refills(len) == (9 + len + 4095) / 4096
            && Feed(p, true, chunks).outcome.finished
            && Feed(p, true, chunks).outcome.consumed == HEADER + len
            && (0 < k <= Refills(len) ==>
                  && !Feed(p, true, chunks[..k]).outcome.finished
                  && Feed(p, true, chunks[..k]).outcome.consumed == BUFFER_SIZE * k)
  {
    var len := LengthField(chunks[0]);
    var o := PartialUnpack(p, true, chunks[0], false);
    if !o.finished {
      FeedCalls(o.packet, chunks[1..]);
    }
    FlatSize(chunks);
    HeaderOfFlat(chunks);
    ChunkingIsIrrelevant(p, chunks);
    if 0 < k <= Refills(len) {
      FlatSize(chunks[..k]);
      HeaderOfFlat(chunks[..k]);
      ChunkingIsIrrelevant(p, chunks[..k]);
    }
  }

  lemma HeaderOfFlat(chunks: seq<seq<Byte>>)
    requires chunks != [] && |chunks[0]| >= HEADER
    ensures |Flat(chunks)| >= HEADER && LengthField(Flat(chunks)) == LengthField(chunks[0])
  {
    assert Flat(chunks)[1..HEADER] == chunks[0][1..HEADER];
  }
}
