/** The payloads of the protocol's packets, and the byte stream that carries them. */
module Messages {
  import opened Bytes
  import opened Connections
  import opened DataFrames
  import opened Frames
  import opened KVStores
  import opened Packets
  import opened Serializable
  import opened Wrappers
  import Protocol

  datatype Message = Keys(names: seq<Str>) | Ask(key: Str) | Reply(key: Str, value: Option<Frame>)

  // ---- lists of keys ----

  function EncodeKeys(names: seq<Str>): seq<Byte>
    requires forall n | n in names :: |n| < U64_LIMIT
  {
    if names == [] then [] else EncodeString(names[0]) + EncodeKeys(names[1..])
  }

  /** The keys read before the end of the data, or before a key that is cut off. */
  datatype KeysRead = KeysRead(names: seq<Str>, ok: bool)

  function DecodeKeys(data: seq<Byte>, pos: nat): KeysRead
    decreases |data| - pos
  {
    if pos >= |data| then KeysRead([], true)
    else
      var name := DecodeString(data, pos);
      if !name.Ok? then KeysRead([], false)
      else
        var rest := DecodeKeys(data, name.next);
        KeysRead([name.value] + rest.names, rest.ok)
  }

  lemma FirstOfKeys(names: seq<Str>)
    requires names != [] && forall n | n in names :: |n| < U64_LIMIT
    ensures EncodeKeys(names) == EncodeString(names[0]) + EncodeKeys(names[1..])
    ensures |EncodeString(names[0])| > 0
  {
  }

  lemma FirstKey(names: seq<Str>, data: seq<Byte>, pos: nat)
    requires names != [] && forall n | n in names :: |n| < U64_LIMIT
    requires At(data, pos, EncodeKeys(names)) && pos + |EncodeKeys(names)| == |data|
    ensures var next := pos + |EncodeString(names[0])|;
            && pos < next && DecodeString(data, pos) == Ok(names[0], next)
            && At(data, next, EncodeKeys(names[1..])) && next + |EncodeKeys(names[1..])| == |data|
  {
    hide At, DecodeString, EncodeString, EncodeKeys;
    FirstOfKeys(names);
    AtSplit(data, pos, EncodeString(names[0]), EncodeKeys(names[1..]));
    StringRoundTrip(data, pos, names[0]);
  }

  lemma DecodeKeysNext(data: seq<Byte>, pos: nat, name: Str, next: nat, names: seq<Str>)
    requires pos < |data| && DecodeString(data, pos) == Ok(name, next)
    requires DecodeKeys(data, next) == KeysRead(names, true)
    ensures DecodeKeys(data, pos) == KeysRead([name] + names, true)
  {
    hide DecodeString;
  }

  lemma DecodeNoKeys(data: seq<Byte>)
    ensures DecodeKeys(data, |data|) == KeysRead([], true)
  {
  }

  lemma {:induction false} KeysRoundTrip(names: seq<Str>, data: seq<Byte>, pos: nat)
    requires forall n | n in names :: |n| < U64_LIMIT
    requires At(data, pos, EncodeKeys(names)) && pos + |EncodeKeys(names)| == |data|
    ensures DecodeKeys(data, pos) == KeysRead(names, true)
    decreases |names|
  {
    hide At, DecodeString, EncodeString, EncodeKeys, DecodeKeys;
    if names == [] {
      NoKeys();
      DecodeNoKeys(data);
    } else {
      FirstKey(names, data, pos);
      var next := pos + |EncodeString(names[0])|;
      KeysRoundTrip(names[1..], data, next);
      DecodeKeysNext(data, pos, names[0], next, names[1..]);
      assert names == [names[0]] + names[1..];
    }
  }

  lemma CutString(data: seq<Byte>, pos: nat, s: Str, m: nat)
    requires |s| < U64_LIMIT && 0 < m < |EncodeString(s)| && pos + m == |data|
    requires data[pos..] == EncodeString(s)[..m]
    ensures DecodeString(data, pos) == Short
  {
    hide EncodeSize, DecodeSize;
    if m >= 8 {
      assert data[pos..pos + 8] == data[pos..][..8] == EncodeSize(|s|);
      SizeRoundTrip(data, pos, |s|);
    } else {
      NoSize(data, pos);
    }
  }

  lemma NoSize(data: seq<Byte>, pos: nat)
    requires |data| < pos + 8
    ensures DecodeSize(data, pos) == Short
  {
  }

  /** A list that is cut off, m bytes into a string, is read up to that string; it is refused unless the
      cut is between two strings. */
  lemma {:induction false} KeysCutOff(names: seq<Str>, s: Str, m: nat, data: seq<Byte>, pos: nat)
    requires (forall n | n in names :: |n| < U64_LIMIT) && |s| < U64_LIMIT && m < |EncodeString(s)| && pos <= |data|
    requires data[pos..] == EncodeKeys(names) + EncodeString(s)[..m]
    ensures DecodeKeys(data, pos) == KeysRead(names, m == 0)
    decreases |names|
  {
    hide EncodeString, DecodeString;
    if names == [] {
      assert data[pos..] == EncodeString(s)[..m];
      if m > 0 {
        CutString(data, pos, s, m);
      }
    } else {
      var first, cut := EncodeString(names[0]), EncodeString(s)[..m];
      FirstOfKeys(names);
      Regroup(first, EncodeKeys(names[1..]), cut);
      FirstOfMany(data, pos, names[0], EncodeKeys(names[1..]) + cut);
      KeysCutOff(names[1..], s, m, data, pos + |first|);
      assert names == [names[0]] + names[1..];
    }
  }

  lemma FirstOfMany(data: seq<Byte>, pos: nat, s: Str, rest: seq<Byte>)
    requires |s| < U64_LIMIT && pos <= |data| && data[pos..] == EncodeString(s) + rest
    ensures pos + |EncodeString(s)| <= |data| && data[pos + |EncodeString(s)|..] == rest
    ensures DecodeString(data, pos) == Ok(s, pos + |EncodeString(s)|)
  {
    hide EncodeString, DecodeString;
    var bytes := EncodeString(s);
    assert data[pos..pos + |bytes|] == data[pos..][..|bytes|];
    assert data[pos + |bytes|..] == data[pos..][|bytes|..];
    StringRoundTrip(data, pos, s);
  }

  lemma {:induction false} EncodeKeysSnoc(names: seq<Str>, name: Str)
    requires (forall n | n in names :: |n| < U64_LIMIT) && |name| < U64_LIMIT
    ensures EncodeKeys(names + [name]) == EncodeKeys(names) + EncodeString(name)
  {
    if names == [] {
      assert [name][1..] == [];
      assert EncodeKeys([]) == [];
      assert EncodeString(name) + [] == EncodeString(name) == [] + EncodeString(name);
    } else {
      EncodeKeysSnoc(names[1..], name);
      assert (names + [name])[1..] == names[1..] + [name];
      Regroup(EncodeString(names[0]), EncodeKeys(names[1..]), EncodeString(name));
    }
  }

  lemma NoKeys()
    ensures EncodeKeys([]) == []
  {
  }

  // ---- payloads ----

  predicate MessageFits(m: Message) {
    match m
    case Keys(names) => (forall n | n in names :: |n| < U64_LIMIT) && HEADER + |EncodeKeys(names)| < U64_LIMIT
    case Ask(key) => HEADER + 8 + |key| < U64_LIMIT
    case Reply(key, value) =>
      && |key| < U64_LIMIT
      && (value.Some? ==> Typed(value.value) && FrameFits(value.value))
      && HEADER + |EncodeReply(key, value)| < U64_LIMIT
  }

  function EncodeReply(key: Str, value: Option<Frame>): seq<Byte>
    requires |key| < U64_LIMIT && (value.Some? ==> Typed(value.value) && FrameFits(value.value))
  {
    [if value.Some? then 1 else 0]
    + (EncodeString(key) + if value.Some? then EncodeFrame(value.value) else [])
  }

  function DecodeReply(data: seq<Byte>): Decoded<Message> {
    if data == [] then Broken
    else
      var key := DecodeString(data, 1);
      if !key.Ok? then key.Failed()
      else if data[0] == 0 then Ok(Reply(key.value, None), key.next)
      else
        var frame := DecodeFrame(data, key.next);
        if frame.Ok? then Ok(Reply(key.value, Some(frame.value)), frame.next) else frame.Failed()
  }

  lemma ReplyRoundTrip(key: Str, value: Option<Frame>)
    requires |key| < U64_LIMIT && (value.Some? ==> Typed(value.value) && FrameFits(value.value))
    ensures DecodeReply(EncodeReply(key, value)) == Ok(Reply(key, value), |EncodeReply(key, value)|)
  {
    hide At, DecodeString, DecodeFrame, EncodeFrame, EncodeString;
    var data := EncodeReply(key, value);
    var frame := if value.Some? then EncodeFrame(value.value) else [];
    AtMiddle([data[0]], EncodeString(key) + frame, []);
    assert [data[0]] + (EncodeString(key) + frame) + [] == data;
    AtSplit(data, 1, EncodeString(key), frame);
    StringRoundTrip(data, 1, key);
    if value.Some? {
      FrameRoundTrip(value.value, data, 1 + |EncodeString(key)|);
    }
  }

  /** The packet of a message. */
  function PacketOf(m: Message): (p: Tlv)
    requires MessageFits(m)
    ensures Fits(p)
  {
    match m
    case Keys(names) => Tlv(KEY_LIST, EncodeKeys(names))
    case Ask(key) => Tlv(VALUE_REQUEST, EncodeString(key))
    case Reply(key, value) => Tlv(VALUE_RESPONSE, EncodeReply(key, value))
  }

  /** What a node understands of a packet; None for another kind or a payload that is cut off. */
  function MessageOf(p: Tlv): Option<Message> {
    if p.kind == KEY_LIST then
      var keys := DecodeKeys(p.value, 0);
      if keys.ok then Some(Keys(keys.names)) else None
    else if p.kind == VALUE_REQUEST then
      var key := DecodeString(p.value, 0);
      if key.Ok? then Some(Ask(key.value)) else None
    else if p.kind == VALUE_RESPONSE then
      var reply := DecodeReply(p.value);
      if reply.Ok? then Some(reply.value) else None
    else
      None
  }

  /** A node understands every message as it was sent. */
  lemma MessageRoundTrip(m: Message)
    requires MessageFits(m)
    ensures MessageOf(PacketOf(m)) == Some(m)
  {
    hide DecodeKeys, DecodeString, DecodeReply;
    match m
    case Keys(names) =>
      AtWhole(EncodeKeys(names));
      KeysRoundTrip(names, EncodeKeys(names), 0);
    case Ask(key) =>
      AtWhole(EncodeString(key));
      StringRoundTrip(EncodeString(key), 0, key);
    case Reply(key, value) =>
      ReplyRoundTrip(key, value);
  }

  lemma AtWhole(bytes: seq<Byte>)
    ensures At(bytes, 0, bytes)
  {
  }

  // ---- the handlers ----

  /** `_send_keys`: the local keys in the order in which the hash set yields them. */
  method SendKeys(store: KVStore) returns (packet: Tlv, ghost order: seq<Str>)
    requires forall name | name in store.localMap :: |name| < U64_LIMIT
    ensures |order| == |store.localMap| && (set name | name in order) == store.localMap.Keys
    ensures packet.kind == 0x09 && DecodeKeys(packet.value, 0) == KeysRead(order, true)
    ensures packet.value == EncodeKeys(order)
  {
    hide EncodeKeys, EncodeString, DecodeKeys, At;
    var rest := store.GetLocalKeys();
    var bytes := [];
    order := [];
    NoKeys();
    while rest != {}
      invariant rest <= store.localMap.Keys && |order| + |rest| == |store.localMap.Keys|
      invariant forall name :: name in order <==> name in store.localMap && name !in rest
      invariant bytes == EncodeKeys(order)
      decreases |rest|
    {
      var name :| name in rest;
      EncodeKeysSnoc(order, name);
      var serialized := SerializeString(name);
      bytes, order, rest := bytes + serialized, order + [name], rest - {name};
    }
    packet := Tlv(KEY_LIST, bytes);
    AtWhole(bytes);
    KeysRoundTrip(order, bytes, 0);
  }

  /** The remote keys after recording every name for `node`, in order. */
  function LearnedAll(others: map<Str, Protocol.NodeId>, names: seq<Str>, node: Protocol.NodeId)
    : (all: map<Str, Protocol.NodeId>)
    ensures forall k :: k in all <==> k in others || k in names
    ensures forall k | k in all :: all[k] == if k in names then node else others[k]
    decreases |names|
  {
    if names == [] then others else LearnedAll(Protocol.Learned(others, names[0], node), names[1..], node)
  }

  /** `_update_keys`: records the peer's keys until the end, or up to a name that is cut off. */
  method UpdateKeys(store: KVStore, packet: Tlv, node: Protocol.NodeId) returns (ok: bool)
    requires store.Valid()
    modifies store`otherNodes
    ensures store.Valid()
    ensures ok <==> packet.kind == 0x09 && DecodeKeys(packet.value, 0).ok
    ensures store.Others() == if packet.kind == 0x09
                              then LearnedAll(old(store.Others()), DecodeKeys(packet.value, 0).names, node)
                              else old(store.Others())
  {
    if packet.kind != KEY_LIST {
      return false;
    }
    var pos := 0;
    ghost var all := DecodeKeys(packet.value, 0);
    while pos < |packet.value|
      invariant store.Valid()
      invariant all.ok == DecodeKeys(packet.value, pos).ok
      invariant LearnedAll(old(store.Others()), all.names, node)
             == LearnedAll(store.Others(), DecodeKeys(packet.value, pos).names, node)
      decreases |packet.value| - pos
    {
      var name := DeserializeString(packet.value, pos);
      if !name.Ok? {
        return false;
      }
      store.AddNonlocal(Key(name.value, node));
      pos := name.next;
    }
    return true;
  }

  /** `_get_requested_value`: the answer to a request, from the local map alone. */
  method GetRequestedValue(store: KVStore, key: Str) returns (packet: Tlv)
    requires MessageFits(Reply(key, Protocol.Lookup(store.localMap, key)))
    ensures packet.kind == 0x08 && packet == PacketOf(Reply(key, Protocol.Lookup(store.localMap, key)))
  {
    var value := store.GetLocal(key);
    var bytes := [if value.Some? then 1 else 0];
    var name := SerializeString(key);
    if value.Some? {
      bytes := bytes + (name + EncodeFrame(value.value));
    } else {
      assert name + [] == name;
      bytes := bytes + name;
    }
    return Tlv(VALUE_RESPONSE, bytes);
  }

  /** The first half of `_parse_request_response`: the key and the frame of a response, or none. */
  method ReadReply(data: seq<Byte>) returns (key: Decoded<Str>, df: DataFrame?)
    ensures key.Short? <==> DecodeReply(data).Short?
    ensures key.Broken? <==> DecodeReply(data).Broken?
    ensures df != null ==> fresh(df) && df.Valid()
    ensures key.Ok? ==>
              DecodeReply(data) == Ok(Reply(key.value, if df == null then None else Some(df.View())), key.next)
  {
    hide DecodeString, DecodeFrame, DataFrame.Valid, DataFrame.View;
    df := null;
    if data == [] {
      return Broken, null;
    }
    key := DeserializeString(data, 1);
    if key.Ok? && data[0] != 0 {
      var frame := DataFrame.Deserialize(data, key.next);
      if !frame.Ok? {
        return frame.Failed(), null;
      }
      return Ok(key.value, frame.next), frame.value;
    }
  }

  // ---- the byte stream refines the protocol's wire ----

  /** What a packet of the protocol looks like to the nodes: its tags are not sent. */
  function Content(p: Protocol.Packet): Message {
    match p
    case KeyList(names) => Keys(names)
    case ValueRequest(key, _) => Ask(key)
    case ValueResponse(answer) => Reply(answer.key, answer.value)
  }

  predicate WireFits(wire: seq<Protocol.Packet>) {
    forall i | 0 <= i < |wire| :: MessageFits(Content(wire[i]))
  }

  function Contents(wire: seq<Protocol.Packet>): seq<Message> {
    seq(|wire|, i requires 0 <= i < |wire| => Content(wire[i]))
  }

  function PacketsOf(wire: seq<Protocol.Packet>): (packets: seq<Tlv>)
    requires WireFits(wire)
    ensures |packets| == |wire|
  {
    seq(|wire|, i requires 0 <= i < |wire| => PacketOf(Content(wire[i])))
  }

  /** The bytes of a wire, as `_send_packet` puts them on the socket. */
  function BytesOf(wire: seq<Protocol.Packet>): seq<Byte>
    requires WireFits(wire)
  {
    Stream(PacketsOf(wire))
  }

  lemma {:induction false} StreamSnoc(packets: seq<Tlv>, p: Tlv)
    ensures Stream(packets + [p]) == Stream(packets) + Packed(p)
  {
    if packets == [] {
      assert [p][1..] == [] && Stream([]) == [];
      assert Packed(p) + [] == Packed(p) == [] + Packed(p);
    } else {
      StreamSnoc(packets[1..], p);
      assert (packets + [p])[1..] == packets[1..] + [p];
      Regroup(Packed(packets[0]), Stream(packets[1..]), Packed(p));
    }
  }

  /** Sending a packet appends its bytes. */
  lemma SendAppends(wire: seq<Protocol.Packet>, p: Protocol.Packet)
    requires WireFits(wire) && MessageFits(Content(p))
    ensures WireFits(wire + [p]) && BytesOf(wire + [p]) == BytesOf(wire) + Packed(PacketOf(Content(p)))
  {
    hide MessageFits, PacketOf, Packed;
    StreamSnoc(PacketsOf(wire), PacketOf(Content(p)));
    assert PacketsOf(wire + [p]) == PacketsOf(wire) + [PacketOf(Content(p))];
  }

  /** The first packet of the bytes is the oldest packet of the wire, and the bytes behind it are
      those of the other packets. */
  lemma ReceiveTakesOldest(wire: seq<Protocol.Packet>, rest: seq<Byte>)
    requires WireFits(wire) && wire != []
    ensures WireFits(wire[1..])
    ensures var bytes := BytesOf(wire) + rest;
            var first := FirstPacket(bytes);
            && first.Some? && MessageOf(first.value) == Some(Content(wire[0]))
            && |Packed(first.value)| <= |bytes|
            && bytes[|Packed(first.value)|..] == BytesOf(wire[1..]) + rest
  {
    hide MessageFits, PacketOf, Packed, MessageOf, FirstPacket;
    var p := PacketOf(Content(wire[0]));
    assert PacketsOf(wire)[0] == p && PacketsOf(wire)[1..] == PacketsOf(wire[1..]);
    StreamOfNext(PacketsOf(wire), rest);
    UnpackPack(p, BytesOf(wire[1..]) + rest);
    MessageRoundTrip(Content(wire[0]));
  }

  /** Bytes can be read as packets in one way only. */
  lemma {:induction false} BytesDetermineContents(wire: seq<Protocol.Packet>, other: seq<Protocol.Packet>)
    requires WireFits(wire) && WireFits(other) && BytesOf(wire) == BytesOf(other)
    ensures Contents(wire) == Contents(other)
  {
    hide BytesOf, WireFits, FirstPacket, MessageOf, Content, Contents, Packed;
    if wire == [] {
      NoneOrOldest(other);
    } else {
      NoneOrOldest(wire);
      NoneOrOldest(other);
      BytesDetermineContents(wire[1..], other[1..]);
      ContentsStep(wire);
      ContentsStep(other);
    }
  }

  lemma ContentsStep(wire: seq<Protocol.Packet>)
    requires wire != []
    ensures Contents(wire) == [Content(wire[0])] + Contents(wire[1..])
  {
  }

  /** The bytes of a wire end it, or begin with its oldest packet. */
  lemma NoneOrOldest(wire: seq<Protocol.Packet>)
    requires WireFits(wire)
    ensures BytesOf([]) == []
    ensures wire == [] ==> FirstPacket(BytesOf(wire)).None?
    ensures wire != [] ==>
              && WireFits(wire[1..])
              && var first := FirstPacket(BytesOf(wire));
                 && first.Some? && MessageOf(first.value) == Some(Content(wire[0]))
                 && |Packed(first.value)| <= |BytesOf(wire)|
                 && BytesOf(wire)[|Packed(first.value)|..] == BytesOf(wire[1..])
  {
    if wire != [] {
      hide BytesOf, WireFits, FirstPacket, MessageOf, Content;
      ReceiveTakesOldest(wire, []);
      assert BytesOf(wire) + [] == BytesOf(wire) && BytesOf(wire[1..]) + [] == BytesOf(wire[1..]);
    }
  }

  /** A node that receives and unpacks one packet after the other understands exactly the
      messages on the wire, in order, as long as its reads keep up with the packets. */
  method ReceiveMessages(connection: Connection, ghost wire: seq<Protocol.Packet>, ghost rest: seq<Byte>,
                         ghost goal: Level, count: nat) returns (messages: seq<Option<Message>>)
    requires WireFits(wire) && count == |wire| && connection.Ready(PacketsOf(wire), rest, goal)
    modifies connection`filled, connection`incoming, connection`grants, connection.buffer
    ensures |messages| == count && forall i | 0 <= i < count :: messages[i] == Some(Content(wire[i]))
    ensures connection.Valid() && connection.Pending() == rest
  {
    hide MessageFits, PacketOf, MessageOf;
    var packets := connection.UnpackAll(PacketsOf(wire), rest, goal, count);
    messages := [];
    for i := 0 to count
      modifies {}
      invariant |messages| == i && forall j | 0 <= j < i :: messages[j] == Some(Content(wire[j]))
    {
      MessageRoundTrip(Content(wire[i]));
      messages := messages + [MessageOf(packets[i])];
    }
  }
}
