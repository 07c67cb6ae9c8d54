/** The packets of the protocol's workers are the messages that the functions of a connection send and
    understand. */
module WorkerMessages {
  import opened Bytes
  import opened CtCConnections
  import opened Messages
  import opened Packets
  import opened UninterruptedWorkers
  import opened Wrappers
  import Protocol

  /** The requests of the queue or of the list, as objects and as the numbers of an endpoint. */
  ghost predicate SameRequests(requests: seq<CtCConnections.ValueRequest>, e: Protocol.Endpoint,
                               ids: seq<Protocol.Id>)
  {
    && |requests| == |ids|
    && forall i | 0 <= i < |ids| :: ids[i] in e.reqs && e.reqs[ids[i]].key == requests[i].key
  }

  // ---- what a worker sends ----

  /** What an uninterrupted worker sends for its queue are the messages of `CheckRequests`. */
  lemma DrainSendsAsks(requests: seq<CtCConnections.ValueRequest>, e: Protocol.Endpoint, i: Protocol.Input)
    requires SameRequests(requests, e, e.queue)
    requires e.worker.TakingQueue? && e.queueMutex.None? && e.waitingMutex.None? && Free(e, e.queue)
    ensures var ran := RunWorker(e, i, 8 * |e.queue| + 2);
            && ran.Some? && |ran.value.sent| == |requests|
            && forall k | 0 <= k < |requests| :: Content(ran.value.sent[k]) == Message.Ask(requests[k].key)
  {
    hide RunWorker;
    DrainIsLoop(e, i);
  }

  /** The request that an uninterrupted worker answers is the one that `ParseRequestResponse` finds. */
  lemma ScanFindsFirst(requests: seq<CtCConnections.ValueRequest>, e: Protocol.Endpoint, key: Str, k: nat)
    requires SameRequests(requests, e, e.waiting)
    ensures FirstFor(requests, key, k) <==> k < |requests| && k == First(e, key, 0)
  {
    var first := First(e, key, 0);
    if FirstFor(requests, key, k) {
      assert first >= k ==> requests[k].key == e.reqs[e.waiting[k]].key;
    }
  }

  /** A request is answered with the packet of `GetRequestedValue`. */
  lemma WorkerReplies(e: Protocol.Endpoint, i: Protocol.Input)
    requires e.worker.Looking? && MessageFits(Reply(e.worker.key, Protocol.Lookup(i.local, e.worker.key)))
    ensures var ran := RunWorker(e, i, 2);
            && ran.Some? && ran.value.end == e.(worker := Protocol.Receiving) && |ran.value.sent| == 1
            && Content(ran.value.sent[0]) == Reply(e.worker.key, Protocol.Lookup(i.local, e.worker.key))
            && PacketOf(Content(ran.value.sent[0])).kind == 0x08
  {
    hide RunWorker, MessageFits;
    var e1 := Protocol.WorkerApply(e, i);
    var e2 := Protocol.WorkerApply(e1, i);
    NoStep(e2, i);
    OneStep(e1, i, 0, e2, Ran(e2, []));
    SilentStep(e, i, 1, e1, Ran(e2, Protocol.Sent(e1.worker) + []));
  }

  /** A list of keys is the packet of `SendKeys` in the order in which the keys were listed. */
  lemma WorkerAnnounces(e: Protocol.Endpoint, i: Protocol.Input)
    requires e.worker.Listing? && (set k | k in i.order) == i.local.Keys && MessageFits(Keys(i.order))
    ensures var ran := RunWorker(e, i, 2);
            && ran.Some? && ran.value.end == e.(worker := Protocol.TakingQueue) && |ran.value.sent| == 1
            && Content(ran.value.sent[0]) == Keys(i.order)
            && PacketOf(Content(ran.value.sent[0])) == Tlv(0x09, EncodeKeys(i.order))
  {
    hide RunWorker;
    var e1 := Protocol.WorkerApply(e, i);
    var e2 := Protocol.WorkerApply(e1, i);
    NoStep(e2, i);
    OneStep(e1, i, 0, e2, Ran(e2, []));
    SilentStep(e, i, 1, e1, Ran(e2, Protocol.Sent(e1.worker) + []));
  }

  // ---- what a worker understands ----

  /** A worker that takes a packet goes by the message that the packet's bytes mean. */
  lemma WorkerUnderstands(p: Protocol.Packet)
    requires MessageFits(Content(p))
    ensures match MessageOf(PacketOf(Content(p)))
            case Some(Keys(names)) => Protocol.Parsed(p) == Protocol.Learning(names)
            case Some(Ask(key)) => Protocol.Parsed(p).Looking? && Protocol.Parsed(p).key == key
            case Some(Reply(key, value)) =>
              && Protocol.Parsed(p).Matching?
              && Protocol.Parsed(p).answer.key == key && Protocol.Parsed(p).answer.value == value
            case None => false
  {
    hide MessageFits, MessageOf, PacketOf;
    MessageRoundTrip(Content(p));
  }
}
