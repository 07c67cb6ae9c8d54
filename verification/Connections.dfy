/** The receive side of a connection: a fixed buffer refilled from a stream of bytes. */
module Connections {
  import opened Bytes
  import opened Wrappers
  import opened Packets

  /** Where the buffer stands: bytes in it, and what the receives to come may deliver. */
  datatype Level = Level(filled: nat, grants: seq<nat>)

  /**
    Reads one packet of `size` bytes. `filled` bytes of the `total` bytes still to come from the
    peer are in the buffer; `grants` says how much each later receive may deliver. None when at
    some point the buffer holds fewer of the packet's bytes than it could: the reader does not
    know how full its buffer is, and would take the zeros behind the data for data.
   */
  function AfterPacket(filled: nat, total: nat, grants: seq<nat>, size: nat): Option<Level>
    decreases size
  {
    if filled < Min(BUFFER_SIZE, size) then None
    else if size <= BUFFER_SIZE then Some(Level(filled - size, grants))
    else if grants == [] || filled > BUFFER_SIZE || total < BUFFER_SIZE then None
    else
      AfterPacket(Min(grants[0], Min(BUFFER_SIZE, total - BUFFER_SIZE)), total - BUFFER_SIZE, grants[1..],
                  size - BUFFER_SIZE)
  }

  /** One receive and one packet for each of `sizes`. */
  function AfterPackets(filled: nat, total: nat, grants: seq<nat>, sizes: seq<nat>): Option<Level>
    decreases |sizes|
  {
    if sizes == [] then Some(Level(filled, grants))
    else if grants == [] || filled > BUFFER_SIZE || total < filled then None
    else
      match AfterPacket(Got(filled, total, grants), total, grants[1..], sizes[0])
      case None => None
      case Some(level) =>
        if total < sizes[0] then None else AfterPackets(level.filled, total - sizes[0], level.grants, sizes[1..])
  }

  function Stream(packets: seq<Tlv>): seq<Byte> {
    if packets == [] then [] else Packed(packets[0]) + Stream(packets[1..])
  }

  function Sizes(packets: seq<Tlv>): seq<nat> {
    seq(|packets|, i requires 0 <= i < |packets| => HEADER + |packets[i].value|)
  }

  function Got(filled: nat, total: nat, grants: seq<nat>): nat
    requires grants != [] && filled <= BUFFER_SIZE && filled <= total
  {
    filled + Min(grants[0], Min(BUFFER_SIZE - filled, total - filled))
  }

  /** The bytes in the buffer after a receive; without a grant nothing comes. */
  function Received(filled: nat, total: nat, grants: seq<nat>): (n: nat)
    requires filled <= BUFFER_SIZE && filled <= total
    ensures filled <= n <= BUFFER_SIZE && n <= total
  {
    if grants == [] then filled else Got(filled, total, grants)
  }

  function Later(grants: seq<nat>): seq<nat> {
    if grants == [] then [] else grants[1..]
  }

  /** The buffer when the first `received` bytes of the stream have come: zeros behind them. */
  function Padded(stream: seq<Byte>, received: nat): (buf: seq<Byte>)
    requires received <= |stream| && received <= BUFFER_SIZE
    ensures |buf| == BUFFER_SIZE
  {
    stream[..received] + seq(BUFFER_SIZE - received, _ => 0)
  }

  /** A packet, the stream behind it, and where the buffer stands. */
  datatype Taken = Taken(packet: Partial, rest: seq<Byte>, level: Level)

  /** What `Connection::unpack` does: it reads from the whole buffer, received or not, discards what
      it has read, and receives and reads again until the packet is finished. None when a read
      takes more than has been received: then zeros have been taken for data, and subtracting
      what was read from the buffer position goes below zero or is replaced by zero. */
  function Reads(was: Partial, front: bool, filled: nat, pending: seq<Byte>, grants: seq<nat>): Option<Taken>
    requires filled <= |pending| && filled <= BUFFER_SIZE
    decreases |pending|, 1
  {
    AfterRead(PartialUnpack(was, front, Padded(pending, filled), false), filled, pending, grants)
  }

  function AfterRead(o: Outcome, filled: nat, pending: seq<Byte>, grants: seq<nat>): Option<Taken>
    requires filled <= |pending| && filled <= BUFFER_SIZE
    decreases |pending|, 0
  {
    if o.consumed > filled then None
    else
      var rest := pending[o.consumed..];
      if o.finished || o.consumed == 0 then Some(Taken(o.packet, rest, Level(filled - o.consumed, grants)))
      else Reads(o.packet, false, Received(filled - o.consumed, |rest|, grants), rest, Later(grants))
  }

  lemma LevelOfNext(filled: nat, total: nat, grants: seq<nat>, packets: seq<Tlv>)
    requires packets != [] && AfterPackets(filled, total, grants, Sizes(packets)).Some?
    ensures grants != [] && filled <= BUFFER_SIZE && filled <= total
    ensures var size := |Packed(packets[0])|;
            var next := AfterPacket(Got(filled, total, grants), total, grants[1..], size);
            && next.Some? && size <= total
            && AfterPackets(filled, total, grants, Sizes(packets))
               == AfterPackets(next.value.filled, total - size, next.value.grants, Sizes(packets[1..]))
  {
    hide AfterPacket, Packed, LittleEndian;
    assert Sizes(packets)[0] == |Packed(packets[0])| && Sizes(packets)[1..] == Sizes(packets[1..]);
  }

  lemma StreamOfNext(packets: seq<Tlv>, rest: seq<Byte>)
    requires packets != []
    ensures Stream(packets) + rest == Packed(packets[0]) + (Stream(packets[1..]) + rest)
  {
    hide Packed, LittleEndian;
  }

  class Connection {
    const buffer: array<Byte>
    var filled: nat
    var incoming: seq<Byte>      // sent by the peer and not yet received
    var grants: seq<nat>          // how many bytes the next receives may deliver

    ghost predicate Valid()
      reads this, buffer
    {
      && buffer.Length == BUFFER_SIZE
      && filled <= BUFFER_SIZE
      && forall i | filled <= i < BUFFER_SIZE :: buffer[i] == 0
    }

    /** Every byte of the peer that has not been unpacked. */
    ghost function Pending(): seq<Byte>
      requires Valid()
      reads this, buffer
    {
      buffer[..filled] + incoming
    }

    constructor (incoming: seq<Byte>, grants: seq<nat>)
      ensures Valid() && fresh(buffer)
      ensures Pending() == incoming && filled == 0 && this.grants == grants
    {
      buffer := new Byte[BUFFER_SIZE](_ => 0);
      filled := 0;
      this.incoming := incoming;
      this.grants := grants;
    }

    /** One `recv` into the free part of the buffer, after at most four that would have had to wait.
        It asks for no bytes, and gets none, when the buffer is full; otherwise -1 says that
        nothing has come. */
    method ReceiveData() returns (received: int)
      requires Valid()
      modifies this`filled, this`incoming, this`grants, buffer
      ensures Valid() && Pending() == old(Pending())
      ensures filled == Received(old(filled), |old(Pending())|, old(grants)) && grants == Later(old(grants))
      ensures filled == old(filled) + if old(grants) == [] then 0
                                      else Min(old(grants)[0], Min(4096 - old(filled), |old(incoming)|))
      ensures received == if old(filled) == BUFFER_SIZE then 0
                          else if filled == old(filled) then -1
                          else filled - old(filled)
    {
      if grants == [] {
        return if filled == BUFFER_SIZE then 0 else -1;
      }
      var n := Min(grants[0], Min(BUFFER_SIZE - filled, |incoming|));
      ghost var was := buffer[..filled];
      for i := 0 to n
        modifies buffer
        invariant buffer[..filled] == was
        invariant buffer[filled..filled + i] == incoming[..i]
        invariant forall j | filled + n <= j < BUFFER_SIZE :: buffer[j] == 0
      {
        buffer[filled + i] := incoming[i];
        assert incoming[..i + 1] == incoming[..i] + [incoming[i]];
      }
      assert buffer[..filled + n] == was + incoming[..n];
      assert incoming == incoming[..n] + incoming[n..];
      filled := filled + n;
      incoming := incoming[n..];
      grants := grants[1..];
      return if filled - n == BUFFER_SIZE then 0 else if n == 0 then -1 else n;
    }

    /** Moves what follows the first `parsed` bytes to the front and zeroes the rest. */
    method Discard(parsed: nat)
      requires Valid() && parsed <= filled
      modifies this`filled, buffer
      ensures Valid() && filled == old(filled) - parsed && Pending() == old(Pending())[parsed..]
    {
      ghost var was := buffer[..];
      if parsed >= BUFFER_SIZE {
        for i := 0 to BUFFER_SIZE
          invariant forall j | 0 <= j < i :: buffer[j] == 0
        {
          buffer[i] := 0;
        }
        filled := 0;
      } else {
        for i := 0 to BUFFER_SIZE - parsed
          modifies buffer
          invariant forall j | 0 <= j < i :: buffer[j] == was[parsed + j]
          invariant forall j | i <= j < BUFFER_SIZE :: buffer[j] == was[j]
        {
          buffer[i] := buffer[parsed + i];
        }
        filled := filled - parsed;
        for i := filled to BUFFER_SIZE
          modifies buffer
          invariant forall j | 0 <= j < filled :: buffer[j] == was[parsed + j]
          invariant forall j | filled <= j < i :: buffer[j] == 0
        {
          buffer[i] := 0;
        }
      }
      assert buffer[..filled] == was[..old(filled)][parsed..];
    }

    /** One turn of the refill loop. */
    method Refill(packet: Packet, parsed: nat) returns (parsed': nat, finished: bool)
      requires Valid() && 0 < parsed <= filled && packet.remaining > 0
      modifies packet, this`filled, this`incoming, this`grants, buffer
      ensures Valid() && parsed' > 0 && packet.remaining < old(packet.remaining)
      ensures !finished ==> packet.remaining > 0
      ensures AfterRead(Outcome(packet.View(), parsed', finished), filled, Pending(), grants)
           == AfterRead(Outcome(old(packet.View()), parsed, false), old(filled), old(Pending()), old(grants))
    {
      Discard(parsed);
      var _ := ReceiveData();
      BufferIsPadded();
      parsed', finished := packet.ReadPart(false, buffer[..], false);
    }

    lemma BufferIsPadded()
      requires Valid()
      ensures filled <= |Pending()| && buffer[..] == Padded(Pending(), filled)
    {
    }

    /** Unpacks the packet at the front of the stream, refilling the buffer as often as needed.
        It stops where the code would go on with bytes that were not received; `exact` says
        whether it did not have to. */
    method Unpack(packet: Packet) returns (finished: bool, exact: bool)
      requires Valid() && Addressable(buffer[..])
      modifies packet, this`filled, this`incoming, this`grants, buffer
      ensures exact <==> Reads(old(packet.View()), true, old(filled), old(Pending()), old(grants)).Some?
      ensures exact ==> finished && Valid()
      ensures exact ==>
                Reads(old(packet.View()), true, old(filled), old(Pending()), old(grants))
                == Some(Taken(packet.View(), Pending(), Level(filled, grants)))
    {
      ghost var goal := Reads(packet.View(), true, filled, Pending(), grants);
      BufferIsPadded();
      var parsed: nat;
      parsed, finished := packet.ReadPart(true, buffer[..], false);
      while !finished && parsed > 0
        invariant Valid() && parsed > 0 && (!finished ==> packet.remaining > 0)
        invariant AfterRead(Outcome(packet.View(), parsed, finished), filled, Pending(), grants) == goal
        decreases packet.remaining
      {
        if parsed > filled {
          return false, false;
        }
        parsed, finished := Refill(packet, parsed);
      }
      if parsed > filled {
        return finished, false;
      }
      Discard(parsed);
      exact := true;
    }

    /** Receives once and unpacks the next packet of the stream. */
    method UnpackNext(ghost p: Tlv, ghost rest: seq<Byte>) returns (packet: Packet)
      requires Valid() && Fits(p) && Pending() == Packed(p) + rest && grants != []
      requires AfterPacket(Got(filled, |Pending()|, grants), |Pending()|, grants[1..], |Packed(p)|).Some?
      modifies this`filled, this`incoming, this`grants, buffer
      ensures fresh(packet) && packet.View() == Partial(p.kind, p.value, 0)
      ensures Valid() && Pending() == rest
      ensures AfterPacket(Got(old(filled), |old(Pending())|, old(grants)), |old(Pending())|, old(grants)[1..],
                          |Packed(p)|)
           == Some(Level(filled, grants))
    {
      var _ := ReceiveData();
      packet := new Packet();
      BufferIsPadded();
      FirstRead(packet.View(), p, rest, buffer[..], filled, Pending());
      ReadsExactlyWhenFilled(packet.View(), p, rest, filled, Pending(), grants);
      var _, exact := Unpack(packet);
    }

    /** The packets still to come, and where the buffer will stand after them. */
    ghost predicate Ready(packets: seq<Tlv>, rest: seq<Byte>, goal: Level)
      reads this, buffer
    {
      && Valid()
      && Pending() == Stream(packets) + rest
      && AfterPackets(filled, |Pending()|, grants, Sizes(packets)) == Some(goal)
    }

    method UnpackFirst(ghost packets: seq<Tlv>, ghost rest: seq<Byte>, ghost goal: Level) returns (first: Tlv)
      requires packets != [] && Fits(packets[0]) && Ready(packets, rest, goal)
      modifies this`filled, this`incoming, this`grants, buffer
      ensures first == packets[0] && Ready(packets[1..], rest, goal)
    {
      hide AfterPacket, AfterPackets, Stream, Sizes, Packed, Got;
      LevelOfNext(filled, |Pending()|, grants, packets);
      StreamOfNext(packets, rest);
      ghost var total := |Pending()|;
      var packet := UnpackNext(packets[0], Stream(packets[1..]) + rest);
      assert |Pending()| == total - |Packed(packets[0])|;
      first := Tlv(packet.kind, packet.value);
    }

    /** Receives and unpacks one packet after the other. */
    method UnpackAll(ghost packets: seq<Tlv>, ghost rest: seq<Byte>, ghost goal: Level, count: nat)
      returns (unpacked: seq<Tlv>)
      requires count == |packets| && forall i | 0 <= i < |packets| :: Fits(packets[i])
      requires Ready(packets, rest, goal)
      modifies this`filled, this`incoming, this`grants, buffer
      ensures unpacked == packets
      ensures Valid() && Pending() == rest && Level(filled, grants) == goal
    {
      unpacked := [];
      for i := 0 to count
        invariant unpacked == packets[..i]
        invariant Ready(packets[i..], rest, goal)
      {
        var first := UnpackFirst(packets[i..], rest, goal);
        unpacked := unpacked + [first];
        assert packets[i..][1..] == packets[i + 1..];
      }
      assert packets[count..] == [] && Stream([]) + rest == rest && Sizes([]) == [];
    }
  }

  /** The first read of a packet takes real bytes only, and all of the buffer or the packet. */
  lemma FirstRead(was: Partial, p: Tlv, rest: seq<Byte>, buf: seq<Byte>, filled: nat, pending: seq<Byte>)
    requires Fits(p) && pending == Packed(p) + rest
    requires |buf| == BUFFER_SIZE && Min(BUFFER_SIZE, |Packed(p)|) <= filled <= |pending|
    requires filled <= BUFFER_SIZE && buf[..filled] == pending[..filled]
    ensures Addressable(buf)
    ensures var n := Min(BUFFER_SIZE, |Packed(p)|);
            && PartialUnpack(was, true, buf, false)
               == Outcome(Partial(p.kind, p.value[..n - HEADER], |Packed(p)| - n), n, n == |Packed(p)|)
            && pending[n..] == p.value[n - HEADER..] + rest
  {
    hide LittleEndian, FromLittleEndian, Packed;
    var n := Min(BUFFER_SIZE, |Packed(p)|);
    HeaderOf(p, rest);
    SameSlice(buf, pending, filled, 0, 1);
    SameSlice(buf, pending, filled, 1, HEADER);
    SameSlice(buf, pending, filled, HEADER, n);
    SliceLater(pending, HEADER, n);
    Cut(p.value, rest, n - HEADER);
    assert buf[0] == buf[0..1][0] == p.kind;
    assert [] + buf[HEADER..n] == buf[HEADER..n];
  }

  lemma SameSlice(a: seq<Byte>, b: seq<Byte>, filled: nat, from: nat, to: nat)
    requires filled <= |a| && filled <= |b| && a[..filled] == b[..filled] && from <= to <= filled
    ensures a[from..to] == b[from..to]
  {
  }

  lemma SliceLater(s: seq<Byte>, from: nat, to: nat)
    requires from <= to <= |s|
    ensures s[from..to] == s[from..][..to - from] && s[to..] == s[from..][to - from..]
  {
  }

  lemma Cut(a: seq<Byte>, b: seq<Byte>, n: nat)
    requires n <= |a|
    ensures (a + b)[..n] == a[..n] && (a + b)[n..] == a[n..] + b
  {
  }

  /** So does a later one. */
  lemma NextRead(was: Partial, value: seq<Byte>, rest: seq<Byte>, buf: seq<Byte>, filled: nat, pending: seq<Byte>)
    requires pending == value + rest && was.remaining == |value|
    requires |buf| == BUFFER_SIZE && Min(BUFFER_SIZE, |value|) <= filled <= |pending|
    requires filled <= BUFFER_SIZE && buf[..filled] == pending[..filled]
    ensures var n := Min(BUFFER_SIZE, |value|);
            && PartialUnpack(was, false, buf, false)
               == Outcome(Partial(was.kind, was.value + value[..n], |value| - n), n, n == |value|)
            && pending[n..] == value[n..] + rest
  {
  }

  // ---- exactly when a packet is read from received bytes ----

  lemma PaddedBegins(stream: seq<Byte>, received: nat)
    requires received <= |stream| && received <= BUFFER_SIZE
    ensures Padded(stream, received)[..received] == stream[..received]
  {
  }

  lemma {:induction false} LaterReads(
    was: Partial, value: seq<Byte>, rest: seq<Byte>, filled: nat, pending: seq<Byte>, grants: seq<nat>)
    requires value != [] && was.remaining == |value| && pending == value + rest
    requires filled <= |pending| && filled <= BUFFER_SIZE
    ensures Reads(was, false, filled, pending, grants)
         == match AfterPacket(filled, |pending|, grants, |value|)
            case None => None
            case Some(level) => Some(Taken(Partial(was.kind, was.value + value, 0), rest, level))
    decreases |value|
  {
    PaddedBegins(pending, filled);
    if filled >= Min(BUFFER_SIZE, |value|) {
      hide PartialUnpack, Padded;
      NextRead(was, value, rest, Padded(pending, filled), filled, pending);
      if |value| > BUFFER_SIZE {
        var read := Partial(was.kind, was.value + value[..BUFFER_SIZE], |value| - BUFFER_SIZE);
        var later := pending[BUFFER_SIZE..];
        LaterReads(read, value[BUFFER_SIZE..], rest, Received(0, |later|, grants), later, Later(grants));
        assert read.value + value[BUFFER_SIZE..] == was.value + value;
      } else {
        assert value[..|value|] == value && value[|value|..] + rest == rest;
      }
    }
  }

  /**
    `Connection::unpack` as a whole: it reads the packet from received bytes only, and leaves the
    buffer position exact, if and only if at each of its reads the buffer holds all that is left
    of the packet or is full.
   */
  lemma ReadsExactlyWhenFilled(
    was: Partial, p: Tlv, rest: seq<Byte>, filled: nat, pending: seq<Byte>, grants: seq<nat>)
    requires Fits(p) && pending == Packed(p) + rest && filled <= |pending| && filled <= BUFFER_SIZE
    ensures Reads(was, true, filled, pending, grants)
         == match AfterPacket(filled, |pending|, grants, |Packed(p)|)
            case None => None
            case Some(level) => Some(Taken(Partial(p.kind, p.value, 0), rest, level))
  {
    hide PartialUnpack, Padded, Packed;
    PaddedBegins(pending, filled);
    if filled >= Min(BUFFER_SIZE, |Packed(p)|) {
      FirstRead(was, p, rest, Padded(pending, filled), filled, pending);
      if |Packed(p)| > BUFFER_SIZE {
        var n := BUFFER_SIZE - HEADER;
        var read := Partial(p.kind, p.value[..n], |p.value| - n);
        var later := pending[BUFFER_SIZE..];
        LaterReads(read, p.value[n..], rest, Received(0, |later|, grants), later, Later(grants));
        assert p.value[..n] + p.value[n..] == p.value;
      } else {
        assert p.value[..|p.value|] == p.value && p.value[|p.value|..] + rest == rest;
      }
    } else {
      OnlyRealBytesIffFilled(was, p, rest, filled);
    }
  }

  // ---- receives that keep up ----

  function TotalOf(sizes: seq<nat>): nat {
    if sizes == [] then 0 else sizes[0] + TotalOf(sizes[1..])
  }

  /** How many receives the packets take: one each, and one for every refill. */
  function ReceivesFor(sizes: seq<nat>): nat {
    if sizes == [] then 0 else (sizes[0] + BUFFER_SIZE - 1) / BUFFER_SIZE + ReceivesFor(sizes[1..])
  }

  predicate Eager(grants: seq<nat>) {
    forall i | 0 <= i < |grants| :: grants[i] >= BUFFER_SIZE
  }

  lemma {:induction false} EagerPacket(total: nat, grants: seq<nat>, size: nat)
    requires 0 < size <= total && Eager(grants) && |grants| + 1 >= (size + BUFFER_SIZE - 1) / BUFFER_SIZE
    ensures var level := AfterPacket(Min(BUFFER_SIZE, total), total, grants, size);
            && level.Some? && Eager(level.value.grants)
            && level.value.filled <= BUFFER_SIZE && level.value.filled <= total - size
            && |level.value.grants| == |grants| + 1 - (size + BUFFER_SIZE - 1) / BUFFER_SIZE
    decreases size
  {
    if size > BUFFER_SIZE {
      EagerPacket(total - BUFFER_SIZE, grants[1..], size - BUFFER_SIZE);
    }
  }

  /** If all packets have been sent and each receive takes all that fits into the buffer, the
      receives keep up with the packets, whatever their sizes. */
  lemma {:induction false} EagerReceivesKeepUp(filled: nat, total: nat, grants: seq<nat>, sizes: seq<nat>)
    requires filled <= BUFFER_SIZE && filled <= total && TotalOf(sizes) <= total
    requires (forall i | 0 <= i < |sizes| :: sizes[i] > 0) && Eager(grants) && |grants| >= ReceivesFor(sizes)
    ensures AfterPackets(filled, total, grants, sizes).Some?
    decreases |sizes|
  {
    if sizes != [] {
      EagerPacket(total, grants[1..], sizes[0]);
      var level := AfterPacket(Min(BUFFER_SIZE, total), total, grants[1..], sizes[0]).value;
      EagerReceivesKeepUp(level.filled, total - sizes[0], level.grants, sizes[1..]);
    }
  }

  // ---- why the reads must keep up ----

  /** The first call on a buffer uses only bytes that were received exactly when the buffer holds
      all of the packet, or is full. Otherwise `_r_buf_pos -= parsed_pos` goes below zero or the
      packet is filled up with zeros. */
  lemma OnlyRealBytesIffFilled(was: Partial, p: Tlv, rest: seq<Byte>, received: nat)
    requires Fits(p) && received <= |Packed(p) + rest| && received <= BUFFER_SIZE
    ensures var o := PartialUnpack(was, true, Padded(Packed(p) + rest, received), false);
            o.consumed <= received <==> received >= Min(BUFFER_SIZE, |Packed(p)|)
  {
    var stream := Packed(p) + rest;
    var buf := Padded(stream, received);
    if received >= HEADER {
      HeaderOf(p, rest);
      assert buf[..received] == stream[..received];
      SameSlice(buf, stream, received, 1, HEADER);
    }
  }

  /** A packet of eleven bytes of which ten have arrived is taken to be complete. */
  lemma ZeroTakenForData()
    ensures var p := Tlv(KEY_LIST, [7, 7]);
            && Min(BUFFER_SIZE, |Packed(p)|) == 11
            && PartialUnpack(Partial(NONE, [], 0), true, Padded(Packed(p), 10), false)
               == Outcome(Partial(KEY_LIST, [7, 0], 0), 11, true)
  {
    var p := Tlv(KEY_LIST, [7, 7]);
    var buf := Padded(Packed(p), 10);
    HeaderOf(p, []);
    assert Packed(p) + [] == Packed(p);
    SameSlice(buf, Packed(p), 10, 1, HEADER);
    assert Packed(p)[HEADER..][0] == 7;
    assert buf[9] == 7 && buf[10] == 0;
    assert buf[HEADER..11] == [7, 0];
  }

  /** If the missing byte is a zero, the packet is right by accident; the buffer position is not. */
  lemma RightByAccident()
    ensures var p := Tlv(KEY_LIST, [7, 0]);
            && PartialUnpack(Partial(NONE, [], 0), true, Padded(Packed(p), 10), false)
               == Outcome(Partial(KEY_LIST, [7, 0], 0), 11, true)
            && Reads(Partial(NONE, [], 0), true, 10, Packed(p), []).None?
  {
    var p := Tlv(KEY_LIST, [7, 0]);
    var buf := Padded(Packed(p), 10);
    HeaderOf(p, []);
    assert Packed(p) + [] == Packed(p);
    SameSlice(buf, Packed(p), 10, 1, HEADER);
    assert Packed(p)[HEADER..][0] == 7;
    assert buf[9] == 7 && buf[10] == 0;
    assert buf[HEADER..11] == [7, 0];
  }
}
