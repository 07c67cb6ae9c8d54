/** What is under way on a connection and what its packets carry: the parts of the invariant that
    speak about both ends. */
module ProtocolInvariant {
  import opened Bytes
  import opened Wrappers
  import opened Protocol
  import opened EndpointInvariant

  // ---- the round trips under way ----

  /** The response the worker has taken off the wire and not yet matched. */
  function Unmatched(w: WorkerState): seq<Id> {
    match w
    case Matching(answer) => [answer.tag]
    case Scanning(_, answer) => [answer.tag]
    case Comparing(_, answer) => [answer.tag]
    case _ => []
  }

  /** The waiting request whose packet the worker has still to send. */
  function Unsent(w: WorkerState): seq<Id> {
    match w
    case Filed(id, _) => [id]
    case Sending(id, _) => [id]
    case _ => []
  }

  /** The peer's request the worker is answering. */
  function UnderAnswer(w: WorkerState): seq<Id> {
    match w
    case Looking(_, tag) => [tag]
    case Replying(answer) => [answer.tag]
    case _ => []
  }

  function AskedTag(p: Packet): seq<Id> {
    if p.ValueRequest? then [p.tag] else []
  }

  function AnsweredTag(p: Packet): seq<Id> {
    if p.ValueResponse? then [p.answer.tag] else []
  }

  function Asked(wire: seq<Packet>): seq<Id> {
    if wire == [] then [] else AskedTag(wire[0]) + Asked(wire[1..])
  }

  function Answered(wire: seq<Packet>): seq<Id> {
    if wire == [] then [] else AnsweredTag(wire[0]) + Answered(wire[1..])
  }

  /** The round trips no longer, or not yet, in the hands of this end's worker. */
  function InFlight(back: seq<Packet>, peer: WorkerState, out: seq<Packet>): seq<Id> {
    Answered(back) + UnderAnswer(peer) + Asked(out)
  }

  /** The round trips of one end, the one nearest completion first: being matched, answered
      and on the way back, being answered by the peer, on the way out, still to be sent. */
  function RoundTrips(w: WorkerState, back: seq<Packet>, peer: WorkerState, out: seq<Packet>): seq<Id> {
    Unmatched(w) + InFlight(back, peer, out) + Unsent(w)
  }

  lemma Assoc(a: seq<Id>, b: seq<Id>, c: seq<Id>)
    ensures a + (b + c) == a + b + c
  {
  }

  /** Moving one part of a concatenation across a boundary. */
  lemma Shift(a: seq<Id>, x: seq<Id>, u: seq<Id>, v: seq<Id>, k: seq<Id>, r: seq<Id>)
    requires || (x == [] && u == [] && k == v + r)
             || (x == u && v == [] && k == r)
             || (x == [] && u == v && k == r)
    ensures (a + x) + v + r == a + u + k
  {
  }

  lemma {:induction false} AskedSnoc(wire: seq<Packet>, p: Packet)
    ensures Asked(wire + [p]) == Asked(wire) + AskedTag(p)
  {
    if wire == [] {
      assert wire + [p] == [p];
    } else {
      assert (wire + [p])[1..] == wire[1..] + [p];
      AskedSnoc(wire[1..], p);
      Assoc(AskedTag(wire[0]), Asked(wire[1..]), AskedTag(p));
    }
  }

  lemma {:induction false} AnsweredSnoc(wire: seq<Packet>, p: Packet)
    ensures Answered(wire + [p]) == Answered(wire) + AnsweredTag(p)
  {
    if wire == [] {
      assert wire + [p] == [p];
    } else {
      assert (wire + [p])[1..] == wire[1..] + [p];
      AnsweredSnoc(wire[1..], p);
      Assoc(AnsweredTag(wire[0]), Answered(wire[1..]), AnsweredTag(p));
    }
  }

  lemma SentTags(wire: seq<Packet>, w: WorkerState)
    ensures Answered(wire + Sent(w)) == Answered(wire) + if w.Replying? then [w.answer.tag] else []
    ensures Asked(wire + Sent(w)) == Asked(wire) + if w.Sending? then [w.id] else []
  {
    if Sent(w) == [] {
      assert wire + Sent(w) == wire;
    } else {
      assert Sent(w) == [Sent(w)[0]];
      AskedSnoc(wire, Sent(w)[0]);
      AnsweredSnoc(wire, Sent(w)[0]);
    }
  }

  /** `back` after the worker `w` has taken its next packet, if it takes one. */
  function Rest(w: WorkerState, hasData: bool, back: seq<Packet>): seq<Packet> {
    if w.Receiving? && hasData && back != [] then back[1..] else back
  }

  function PacketFor(hasData: bool, back: seq<Packet>): Option<Packet> {
    if hasData && back != [] then Some(back[0]) else None
  }

  predicate TakesResponse(w: WorkerState, hasData: bool, back: seq<Packet>) {
    w.Receiving? && hasData && back != [] && back[0].ValueResponse?
  }

  lemma TakenTags(w: WorkerState, hasData: bool, wire: seq<Packet>)
    ensures var p := PacketFor(hasData, wire);
            var taken := if w.Receiving? && p.Some? then p else None;
            && Answered(wire)
               == (if taken.Some? then AnsweredTag(taken.value) else []) + Answered(Rest(w, hasData, wire))
            && Asked(wire) == (if taken.Some? then AskedTag(taken.value) else []) + Asked(Rest(w, hasData, wire))
  {
  }

  lemma InFlightAtMyStep(w: WorkerState, hasData: bool, back: seq<Packet>, peer: WorkerState, out: seq<Packet>)
    ensures var before := InFlight(back, peer, out);
            var after := InFlight(Rest(w, hasData, back), peer, out + Sent(w));
            if TakesResponse(w, hasData, back) then before == [back[0].answer.tag] + after
            else after == before + if w.Sending? then [w.id] else []
  {
    SentTags(out, w);
    TakenTags(w, hasData, back);
    var rest := Answered(Rest(w, hasData, back));
    if TakesResponse(w, hasData, back) {
      var tag := [back[0].answer.tag];
      Assoc(tag, rest, UnderAnswer(peer));
      Assoc(tag, rest + UnderAnswer(peer), Asked(out));
    } else {
      assert Answered(back) == rest;
      Assoc(rest + UnderAnswer(peer), Asked(out), if w.Sending? then [w.id] else []);
    }
  }

  lemma PeerMoves(p: Endpoint, i: Input)
    requires WorkerEnabled(p, i)
    ensures var next, w := WorkerApply(p, i).worker, p.worker;
            if w.Replying? then UnderAnswer(w) == [w.answer.tag] && UnderAnswer(next) == []
            else if w.Receiving? then
              && UnderAnswer(w) == []
              && UnderAnswer(next) == (if i.packet.Some? then AskedTag(i.packet.value) else [])
            else UnderAnswer(next) == UnderAnswer(w)
  {
  }

  lemma InFlightAtPeerStep(p: Endpoint, i: Input, hasData: bool, back: seq<Packet>, out: seq<Packet>)
    requires WorkerEnabled(p, i) && i.packet == PacketFor(hasData, out)
    ensures InFlight(back + Sent(p.worker), WorkerApply(p, i).worker, Rest(p.worker, hasData, out))
            == InFlight(back, p.worker, out)
  {
    SentTags(back, p.worker);
    TakenTags(p.worker, hasData, out);
    PeerMoves(p, i);
    var w := p.worker;
    Shift(Answered(back), if w.Replying? then [w.answer.tag] else [], UnderAnswer(w),
          UnderAnswer(WorkerApply(p, i).worker), Asked(out), Asked(Rest(w, hasData, out)));
  }

  /** How a worker step moves a request between the worker's hands and the waiting list. */
  lemma WorkerMoves(e: Endpoint, i: Input)
    requires HeadMatches(e) && Answering(e) && WorkerEnabled(e, i)
    ensures var f, w := WorkerApply(e, i), e.worker;
            if w.Comparing? then
              && Unmatched(w) == [w.answer.tag] && Unmatched(f.worker) == []
              && Unsent(w) == Unsent(f.worker) == [] && f.waiting == e.waiting[1..]
            else if w.Filing? then
              && Unmatched(w) == Unmatched(f.worker) == Unsent(w) == []
              && Unsent(f.worker) == [w.id] && f.waiting == e.waiting + [w.id]
            else if w.Sending? then
              && Unmatched(w) == Unmatched(f.worker) == Unsent(f.worker) == []
              && Unsent(w) == [w.id] && f.waiting == e.waiting
            else if w.Receiving? then
              && Unmatched(w) == Unsent(w) == Unsent(f.worker) == [] && f.waiting == e.waiting
              && Unmatched(f.worker) == (if i.packet.Some? then AnsweredTag(i.packet.value) else [])
            else
              Unmatched(f.worker) == Unmatched(w) && Unsent(f.worker) == Unsent(w) && f.waiting == e.waiting
  {
  }

  /** The waiting list and the round trips change together. */
  lemma Advance(
    waiting: seq<Id>, u: seq<Id>, b: seq<Id>, s: seq<Id>,
    waiting': seq<Id>, u': seq<Id>, b': seq<Id>, s': seq<Id>, id: Id)
    requires waiting == u + b + s
    requires || (u == [id] && u' == [] && s == s' == [] && b' == b && waiting' == waiting[1..])
             || (u == u' == s == [] && s' == [id] && b' == b && waiting' == waiting + [id])
             || (u == u' == s' == [] && s == [id] && b' == b + [id] && waiting' == waiting)
             || (u == s == s' == [] && u' == [id] && b == [id] + b' && waiting' == waiting)
             || (u == u' && b == b' && s == s' && waiting' == waiting)
    ensures waiting' == u' + b' + s'
  {
  }

  /** A worker step at this end keeps the waiting list equal to the round trips under way. */
  lemma MyStepKeepsOrder(e: Endpoint, i: Input, hasData: bool, back: seq<Packet>, peer: WorkerState, out: seq<Packet>)
    requires e.waiting == RoundTrips(e.worker, back, peer, out)
    requires HeadMatches(e) && Answering(e) && WorkerEnabled(e, i) && i.packet == PacketFor(hasData, back)
    ensures var f := WorkerApply(e, i);
            f.waiting == RoundTrips(f.worker, Rest(e.worker, hasData, back), peer, out + Sent(e.worker))
  {
    WorkerMoves(e, i);
    InFlightAtMyStep(e.worker, hasData, back, peer, out);
    var w, f := e.worker, WorkerApply(e, i);
    var id := if w.Comparing? then w.answer.tag else if w.Filing? || w.Sending? then w.id
              else if TakesResponse(w, hasData, back) then back[0].answer.tag else 0;
    Advance(e.waiting, Unmatched(w), InFlight(back, peer, out), Unsent(w),
            f.waiting, Unmatched(f.worker), InFlight(Rest(w, hasData, back), peer, out + Sent(w)), Unsent(f.worker),
            id);
  }

  // ---- what packets and workers carry ----

  predicate Pushed(p: Phase) {
    !p.Created? && !p.Queueing?
  }

  predicate Done(p: Phase) {
    p.Woken? || p.Reading? || p.Returned?
  }

  /** Version `at` maps `key` to `value`. */
  predicate Held(versions: seq<Store>, at: nat, key: Str, value: Option<Frames.Frame>) {
    at < |versions| && value.Some? && value == Lookup(versions[at], key)
  }

  predicate GoodQuestion(asker: Endpoint, key: Str, tag: Id) {
    tag in asker.reqs && asker.reqs[tag].key == key && Pushed(asker.reqs[tag].phase)
  }

  /** The answer holds what the answering node held at a time since the request was pushed. */
  predicate GoodAnswer(asker: Endpoint, versions: seq<Store>, a: Answer) {
    && GoodQuestion(asker, a.key, a.tag)
    && asker.reqs[a.tag].since <= a.stamp
    && Held(versions, a.stamp, a.key, a.value)
  }

  predicate Known(versions: seq<Store>, keys: seq<Str>) {
    versions != [] && forall k | k in keys :: k in Newest(versions)
  }

  predicate GoodPacket(p: Packet, mine: Endpoint, theirs: Endpoint, versions: seq<Store>) {
    match p
    case KeyList(keys) => Known(versions, keys)
    case ValueRequest(key, tag) => GoodQuestion(mine, key, tag)
    case ValueResponse(answer) => GoodAnswer(theirs, versions, answer)
  }

  /** Every packet `mine` has sent and `theirs` not yet read; `versions` is the sender's. */
  ghost predicate GoodWire(wire: seq<Packet>, mine: Endpoint, theirs: Endpoint, versions: seq<Store>) {
    forall n | 0 <= n < |wire| :: GoodPacket(wire[n], mine, theirs, versions)
  }

  predicate GoodWorker(
    w: WorkerState, mine: Endpoint, theirs: Endpoint, myVersions: seq<Store>, theirVersions: seq<Store>)
  {
    match w
    case Matching(answer) => GoodAnswer(mine, theirVersions, answer)
    case Scanning(_, answer) => GoodAnswer(mine, theirVersions, answer)
    case Comparing(_, answer) => GoodAnswer(mine, theirVersions, answer)
    case Looking(key, tag) => GoodQuestion(theirs, key, tag)
    case Replying(answer) => GoodAnswer(theirs, myVersions, answer)
    case Learning(keys) => Known(theirVersions, keys)
    case Announcing(keys) => Known(myVersions, keys)
    case TakingWaiting(id, key) => GoodQuestion(mine, key, id)
    case Filing(id, key) => GoodQuestion(mine, key, id)
    case Filed(id, key) => GoodQuestion(mine, key, id)
    case Sending(id, key) => GoodQuestion(mine, key, id)
    case _ => true
  }

  /** What each request records: its key is held by the peer, its times are in order,
      and once answered its value is what the peer held at its stamp. */
  ghost predicate Recorded(e: Endpoint, versions: seq<Store>) {
    && versions != []
    && forall id | id in e.reqs ::
         var r := e.reqs[id];
         && r.since < |versions|
         && r.key in Newest(versions)
         && (Done(r.phase) ==> r.since <= r.stamp && Held(versions, r.stamp, r.key, r.value))
  }

  /** No step forgets a request, changes its key, or changes when it was pushed. */
  ghost predicate Extends(e: Endpoint, f: Endpoint) {
    forall id | id in e.reqs ::
      && id in f.reqs && f.reqs[id].key == e.reqs[id].key
      && (Pushed(e.reqs[id].phase) ==> Pushed(f.reqs[id].phase) && f.reqs[id].since == e.reqs[id].since)
  }

  /** No step forgets a version, and the newest one keeps all keys. */
  ghost predicate Grows(v: seq<Store>, w: seq<Store>) {
    v != [] && v <= w && forall k | k in Newest(v) :: k in Newest(w)
  }

  lemma RequesterExtends(e: Endpoint, id: Id, a: Action, now: nat)
    requires RequesterEnabled(e, id, a)
    ensures Extends(e, RequesterApply(e, id, a, now))
  {
  }

  lemma WorkerExtends(e: Endpoint, i: Input)
    requires WorkerEnabled(e, i)
    ensures Extends(e, WorkerApply(e, i))
  {
  }

  lemma PutGrows(versions: seq<Store>, key: Str, value: Frames.Frame)
    requires versions != []
    ensures Grows(versions, versions + [Newest(versions)[key := value]])
  {
  }

  lemma GoodWireStays(
    wire: seq<Packet>, mine: Endpoint, theirs: Endpoint, v: seq<Store>,
    mine': Endpoint, theirs': Endpoint, w: seq<Store>)
    requires GoodWire(wire, mine, theirs, v) && Extends(mine, mine') && Extends(theirs, theirs') && Grows(v, w)
    ensures GoodWire(wire, mine', theirs', w)
  {
  }

  lemma GoodWorkerStays(
    x: WorkerState, mine: Endpoint, theirs: Endpoint, v: seq<Store>, u: seq<Store>,
    mine': Endpoint, theirs': Endpoint, v': seq<Store>, u': seq<Store>)
    requires GoodWorker(x, mine, theirs, v, u)
    requires Extends(mine, mine') && Extends(theirs, theirs') && Grows(v, v') && Grows(u, u')
    ensures GoodWorker(x, mine', theirs', v', u')
  {
  }

  lemma RecordedStays(e: Endpoint, v: seq<Store>, w: seq<Store>)
    requires Recorded(e, v) && Grows(v, w)
    ensures Recorded(e, w)
  {
  }

  /** What a worker sends is good. */
  lemma SentIsGood(mine: Endpoint, theirs: Endpoint, v: seq<Store>, u: seq<Store>)
    requires GoodWorker(mine.worker, mine, theirs, v, u)
    ensures GoodWire(Sent(mine.worker), mine, theirs, v)
  {
  }

  /** The next state of a worker carries what it should. */
  lemma NextWorkerIsGood(mine: Endpoint, theirs: Endpoint, i: Input, v: seq<Store>, u: seq<Store>)
    requires WorkerEnabled(mine, i) && GoodWorker(mine.worker, mine, theirs, v, u)
    requires Recorded(theirs, v) && i.version == |v| - 1 && i.local == Newest(v)
    requires i.packet.Some? ==> GoodPacket(i.packet.value, theirs, mine, u)
    requires mine.worker.KeyRead? ==> mine.worker.id in mine.reqs && Pushed(mine.reqs[mine.worker.id].phase)
    ensures GoodWorker(WorkerApply(mine, i).worker, mine, theirs, v, u)
  {
  }

  lemma WorkerKeepsRecorded(e: Endpoint, i: Input, versions: seq<Store>)
    requires Recorded(e, versions) && WorkerEnabled(e, i) && HeadMatches(e) && Answering(e)
    requires e.worker.Comparing? ==> GoodAnswer(e, versions, e.worker.answer)
    ensures Recorded(WorkerApply(e, i), versions)
  {
  }

  lemma RequesterKeepsRecorded(e: Endpoint, id: Id, a: Action, versions: seq<Store>)
    requires Recorded(e, versions) && RequesterEnabled(e, id, a)
    requires a.Ask? ==> a.key in Newest(versions)
    ensures Recorded(RequesterApply(e, id, a, |versions| - 1), versions)
  {
  }
}
