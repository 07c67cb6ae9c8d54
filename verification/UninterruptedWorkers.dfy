/** A worker that no other thread interrupts: its steps, one after the other, have the effect of
    the loops of `CtCConnections`. */
module UninterruptedWorkers {
  import opened Bytes
  import opened Protocol
  import opened Wrappers

  datatype Ran = Ran(end: Endpoint, sent: seq<Packet>)

  /** n steps of the worker in a row; None if one of them would have to wait for a mutex. */
  function RunWorker(e: Endpoint, i: Input, n: nat): Option<Ran>
    decreases n
  {
    if n == 0 then Some(Ran(e, []))
    else if !WorkerEnabled(e, i) then None
    else
      match RunWorker(WorkerApply(e, i), i, n - 1)
      case None => None
      case Some(r) => Some(Ran(r.end, Sent(e.worker) + r.sent))
  }

  lemma OneStep(e: Endpoint, i: Input, n: nat, next: Endpoint, r: Ran)
    requires WorkerEnabled(e, i) && WorkerApply(e, i) == next && RunWorker(next, i, n) == Some(r)
    ensures RunWorker(e, i, n + 1) == Some(Ran(r.end, Sent(e.worker) + r.sent))
  {
  }

  lemma SilentStep(e: Endpoint, i: Input, n: nat, next: Endpoint, r: Ran)
    requires WorkerEnabled(e, i) && WorkerApply(e, i) == next && RunWorker(next, i, n) == Some(r)
    requires Sent(e.worker) == []
    ensures RunWorker(e, i, n + 1) == Some(r)
  {
    assert [] + r.sent == r.sent;
  }

  lemma NoStep(e: Endpoint, i: Input)
    ensures RunWorker(e, i, 0) == Some(Ran(e, []))
  {
  }

  /** No requester holds the mutex of these requests: their owners are in wait. */
  ghost predicate Free(e: Endpoint, ids: seq<Id>) {
    forall k | 0 <= k < |ids| :: ids[k] in e.reqs && e.reqs[ids[k]].mutex.None?
  }

  function Requests(e: Endpoint, ids: seq<Id>): (packets: seq<Packet>)
    requires forall k | 0 <= k < |ids| :: ids[k] in e.reqs
    ensures |packets| == |ids|
  {
    seq(|ids|, k requires 0 <= k < |ids| => ValueRequest(e.reqs[ids[k]].key, ids[k]))
  }

  // ---- _check_requests ----

  /** One turn of the loop takes eight steps. */
  lemma DrainOne(e: Endpoint, i: Input, n: nat, r: Ran)
    requires e.worker.TakingQueue? && e.queueMutex.None? && e.waitingMutex.None?
    requires e.queue != [] && Free(e, e.queue)
    requires RunWorker(e.(queue := e.queue[1..], waiting := e.waiting + [e.queue[0]]), i, n) == Some(r)
    ensures RunWorker(e, i, n + 8) == Some(Ran(r.end, [ValueRequest(e.reqs[e.queue[0]].key, e.queue[0])] + r.sent))
  {
    hide RunWorker;
    var id := e.queue[0];
    var key := e.reqs[id].key;
    var e1 := WorkerApply(e, i);
    var e2 := WorkerApply(e1, i);
    var e3 := WorkerApply(e2, i);
    var e4 := WorkerApply(e3, i);
    assert e4.reqs == e.reqs;
    var e5 := WorkerApply(e4, i);
    var e6 := WorkerApply(e5, i);
    var e7 := WorkerApply(e6, i);
    var e8 := WorkerApply(e7, i);
    assert e8 == e.(queue := e.queue[1..], waiting := e.waiting + [id]);
    var sent := Ran(r.end, [ValueRequest(key, id)] + r.sent);
    OneStep(e7, i, n, e8, r);
    SilentStep(e6, i, n + 1, e7, sent);
    SilentStep(e5, i, n + 2, e6, sent);
    SilentStep(e4, i, n + 3, e5, sent);
    SilentStep(e3, i, n + 4, e4, sent);
    SilentStep(e2, i, n + 5, e3, sent);
    SilentStep(e1, i, n + 6, e2, sent);
    SilentStep(e, i, n + 7, e1, sent);
  }

  lemma DrainNone(e: Endpoint, i: Input)
    requires e.worker.TakingQueue? && e.queueMutex.None? && e.queue == []
    ensures RunWorker(e, i, 2) == Some(Ran(e.(worker := Receiving), []))
  {
    var e1 := WorkerApply(e, i);
    var e2 := WorkerApply(e1, i);
    assert e2 == e.(worker := Receiving);
    NoStep(e2, i);
    SilentStep(e1, i, 0, e2, Ran(e2, []));
    SilentStep(e, i, 1, e1, Ran(e2, []));
  }

  /** Without interruption the steps are the loop: every queued request goes to the end of the
      waiting list, in order, and one packet is sent for each. */
  lemma {:induction false} DrainIsLoop(e: Endpoint, i: Input)
    requires e.worker.TakingQueue? && e.queueMutex.None? && e.waitingMutex.None? && Free(e, e.queue)
    ensures RunWorker(e, i, 8 * |e.queue| + 2)
         == Some(Ran(e.(queue := [], waiting := e.waiting + e.queue, worker := Receiving), Requests(e, e.queue)))
    decreases |e.queue|
  {
    hide RunWorker;
    if e.queue == [] {
      DrainNone(e, i);
      assert e.waiting + [] == e.waiting;
    } else {
      var next := e.(queue := e.queue[1..], waiting := e.waiting + [e.queue[0]]);
      DrainIsLoop(next, i);
      var r := Ran(next.(queue := [], waiting := next.waiting + next.queue, worker := Receiving),
                   Requests(next, next.queue));
      DrainOne(e, i, 8 * |next.queue| + 2, r);
      assert next.waiting + next.queue == e.waiting + e.queue;
      assert Requests(e, e.queue) == [ValueRequest(e.reqs[e.queue[0]].key, e.queue[0])] + Requests(next, next.queue);
    }
  }

  // ---- _parse_request_response ----

  /** The first waiting request from `at` on for the key; the length of the list if there is none. */
  function First(e: Endpoint, key: Str, at: nat): (k: nat)
    requires forall j | 0 <= j < |e.waiting| :: e.waiting[j] in e.reqs
    ensures at <= |e.waiting| ==> at <= k <= |e.waiting|
    ensures k < |e.waiting| ==> e.reqs[e.waiting[k]].key == key
    ensures forall j | at <= j < k && j < |e.waiting| :: e.reqs[e.waiting[j]].key != key
    decreases |e.waiting| - at
  {
    if at >= |e.waiting| then at
    else if e.reqs[e.waiting[at]].key == key then at
    else First(e, key, at + 1)
  }

  /** The request at k is answered, woken if it is in wait, and off the list. */
  function Matched(e: Endpoint, answer: Answer, k: nat): Endpoint
    requires k < |e.waiting| ==> e.waiting[k] in e.reqs
  {
    if k >= |e.waiting| then e.(waitingMutex := None, worker := Listing)
    else
      var r := e.reqs[e.waiting[k]];
      e.(reqs := e.reqs[e.waiting[k] := r.(value := answer.value, stamp := answer.stamp, phase := Notified(r.phase))],
         waiting := e.waiting[..k] + e.waiting[k + 1..], waitingMutex := None, worker := Listing)
  }

  lemma ScanHit(e: Endpoint, i: Input, at: nat)
    requires e.worker.Scanning? && e.worker.at == at < |e.waiting| && Free(e, e.waiting)
    requires e.reqs[e.waiting[at]].key == e.worker.answer.key
    ensures RunWorker(e, i, 4) == Some(Ran(Matched(e, e.worker.answer, at), []))
  {
    hide RunWorker;
    var e1 := WorkerApply(e, i);
    var e2 := WorkerApply(e1, i);
    var e3 := WorkerApply(e2, i);
    var e4 := WorkerApply(e3, i);
    assert e4.reqs == Matched(e, e.worker.answer, at).reqs;
    var r := Ran(e4, []);
    NoStep(e4, i);
    SilentStep(e3, i, 0, e4, r);
    SilentStep(e2, i, 1, e3, r);
    SilentStep(e1, i, 2, e2, r);
    SilentStep(e, i, 3, e1, r);
  }

  lemma ScanEnd(e: Endpoint, i: Input)
    requires e.worker.Scanning? && e.worker.at == |e.waiting|
    ensures RunWorker(e, i, 1) == Some(Ran(e.(waitingMutex := None, worker := Listing), []))
  {
    var end := WorkerApply(e, i);
    NoStep(end, i);
    SilentStep(e, i, 0, end, Ran(end, []));
  }

  lemma ScanMiss(e: Endpoint, i: Input, at: nat, n: nat, r: Ran)
    requires e.worker.Scanning? && e.worker.at == at < |e.waiting| && Free(e, e.waiting)
    requires e.reqs[e.waiting[at]].key != e.worker.answer.key
    requires RunWorker(e.(worker := Scanning(at + 1, e.worker.answer)), i, n) == Some(r)
    ensures RunWorker(e, i, n + 2) == Some(r)
  {
    hide RunWorker;
    var e1 := WorkerApply(e, i);
    var e2 := WorkerApply(e1, i);
    assert e2.reqs == e.reqs;
    assert e2 == e.(worker := Scanning(at + 1, e.worker.answer));
    SilentStep(e1, i, n, e2, r);
    SilentStep(e, i, n + 1, e1, r);
  }

  /** Without interruption the steps are the loop: the first waiting request for the response's key
      is answered, wherever it is in the list, and with none nothing changes. */
  lemma {:induction false} ScanIsLoop(e: Endpoint, i: Input, at: nat) returns (n: nat)
    requires e.worker.Scanning? && e.worker.at == at <= |e.waiting| && Free(e, e.waiting)
    ensures RunWorker(e, i, n)
         == Some(Ran(Matched(e, e.worker.answer, First(e, e.worker.answer.key, at)), []))
    decreases |e.waiting| - at
  {
    hide RunWorker, WorkerApply, WorkerEnabled;
    var answer := e.worker.answer;
    if at == |e.waiting| {
      n := 1;
      ScanEnd(e, i);
    } else if e.reqs[e.waiting[at]].key == answer.key {
      n := 4;
      ScanHit(e, i, at);
    } else {
      var next := e.(worker := Scanning(at + 1, answer));
      var m := ScanIsLoop(next, i, at + 1);
      SameFirst(e, next, answer.key, at + 1);
      var k := First(e, answer.key, at + 1);
      assert Matched(next, answer, k) == Matched(e, answer, k);
      ScanMiss(e, i, at, m, Ran(Matched(e, answer, k), []));
      n := m + 2;
    }
  }

  lemma {:induction false} SameFirst(e: Endpoint, f: Endpoint, key: Str, at: nat)
    requires e.waiting == f.waiting && e.reqs == f.reqs
    requires forall j | 0 <= j < |e.waiting| :: e.waiting[j] in e.reqs
    ensures First(e, key, at) == First(f, key, at)
    decreases |e.waiting| - at
  {
    if at < |e.waiting| && e.reqs[e.waiting[at]].key != key {
      SameFirst(e, f, key, at + 1);
    }
  }

  // ---- one turn of the loop in `run` ----

  lemma SeveralSteps(e: Endpoint, i: Input, m: nat, next: Ran, n: nat, last: Ran)
    requires RunWorker(e, i, m) == Some(next) && RunWorker(next.end, i, n) == Some(last)
    ensures RunWorker(e, i, m + n) == Some(Ran(last.end, next.sent + last.sent))
    decreases m
  {
    if m == 0 {
      assert [] + last.sent == last.sent;
    } else {
      var f := WorkerApply(e, i);
      var rest := RunWorker(f, i, m - 1).value;
      SeveralSteps(f, i, m - 1, rest, n, last);
      assert Sent(e.worker) + rest.sent + last.sent == Sent(e.worker) + (rest.sent + last.sent);
    }
  }

  /** The keys of the node are sent, and then everything in the queue. */
  lemma ListAndDrain(e: Endpoint, i: Input)
    requires e.worker.Listing? && (set k | k in i.order) == i.local.Keys
    requires e.queueMutex.None? && e.waitingMutex.None? && Free(e, e.queue)
    ensures RunWorker(e, i, 8 * |e.queue| + 4)
         == Some(Ran(e.(queue := [], waiting := e.waiting + e.queue, worker := Receiving),
                     [KeyList(i.order)] + Requests(e, e.queue)))
  {
    hide RunWorker;
    var e1 := WorkerApply(e, i);
    var e2 := WorkerApply(e1, i);
    assert e2 == e.(worker := TakingQueue);
    DrainIsLoop(e2, i);
    assert Requests(e2, e2.queue) == Requests(e, e.queue);
    var drained := Ran(e.(queue := [], waiting := e.waiting + e.queue, worker := Receiving), Requests(e, e.queue));
    OneStep(e1, i, 8 * |e.queue| + 2, e2, drained);
    SilentStep(e, i, 8 * |e.queue| + 3, e1, Ran(drained.end, [KeyList(i.order)] + drained.sent));
  }

  /** A list of keys is recorded in one step for each key, and one to find that there are no more. */
  lemma {:induction false} LearnIsLoop(e: Endpoint, i: Input)
    requires e.worker.Learning?
    ensures RunWorker(e, i, |e.worker.keys| + 1) == Some(Ran(e.(worker := Listing), []))
    decreases |e.worker.keys|
  {
    hide RunWorker;
    var next := WorkerApply(e, i);
    if e.worker.keys == [] {
      NoStep(next, i);
      SilentStep(e, i, 0, next, Ran(next, []));
    } else {
      LearnIsLoop(next, i);
      SilentStep(e, i, |e.worker.keys|, next, Ran(e.(worker := Listing), []));
    }
  }

  /** What a turn makes of the end of the connection before it sends the keys and the queue. */
  function Handled(e: Endpoint, p: Option<Packet>): Endpoint
    requires forall j | 0 <= j < |e.waiting| :: e.waiting[j] in e.reqs
  {
    match p
    case Some(ValueResponse(answer)) => Matched(e, answer, First(e, answer.key, 0)).(worker := Listing)
    case _ => e.(worker := Listing)
  }

  lemma HandledIsFree(e: Endpoint, p: Option<Packet>)
    requires Free(e, e.waiting) && Free(e, e.queue) && e.waitingMutex.None?
    ensures var f := Handled(e, p);
            && f.queue == e.queue && Free(f, f.queue) && f.queueMutex == e.queueMutex && f.waitingMutex.None?
            && Requests(f, f.queue) == Requests(e, e.queue)
  {
    var f := Handled(e, p);
    forall k | 0 <= k < |e.queue| ensures f.reqs[e.queue[k]].key == e.reqs[e.queue[k]].key {
    }
  }

  /** Taking the packet, and what `_parse_data` does with it. */
  lemma HandleIsLoop(e: Endpoint, i: Input) returns (n: nat)
    requires e.worker.Receiving? && (i.packet.Some? ==> !i.packet.value.ValueRequest?)
    requires Free(e, e.waiting) && e.waitingMutex.None?
    ensures RunWorker(e, i, n) == Some(Ran(Handled(e, i.packet), []))
  {
    hide RunWorker;
    var e1 := WorkerApply(e, i);
    match i.packet
    case None =>
      n := 1;
      NoStep(e1, i);
      SilentStep(e, i, 0, e1, Ran(e1, []));
    case Some(KeyList(keys)) =>
      n := |keys| + 2;
      LearnIsLoop(e1, i);
      SilentStep(e, i, |keys| + 1, e1, Ran(e.(worker := Listing), []));
    case Some(ValueResponse(answer)) =>
      var e2 := WorkerApply(e1, i);
      var m := ScanIsLoop(e2, i, 0);
      SameFirst(e, e2, answer.key, 0);
      n := m + 2;
      assert Matched(e2, answer, First(e2, answer.key, 0)) == Handled(e, i.packet);
      SilentStep(e1, i, m, e2, Ran(Handled(e, i.packet), []));
      SilentStep(e, i, m + 1, e1, Ran(Handled(e, i.packet), []));
  }

  /**
    One turn of the loop in `run`, without interruption: a request is answered from the local map, and
    the worker receives again; after anything else, or nothing, it sends the keys of its node and
    then every queued request. A response is matched before that.
   */
  lemma TurnIsLoop(e: Endpoint, i: Input) returns (n: nat)
    requires e.worker.Receiving? && (set k | k in i.order) == i.local.Keys
    requires e.queueMutex.None? && e.waitingMutex.None? && Free(e, e.queue) && Free(e, e.waiting)
    ensures match i.packet
            case Some(ValueRequest(key, tag)) =>
              RunWorker(e, i, n) == Some(Ran(e, [ValueResponse(Answer(key, Lookup(i.local, key), tag, i.version))]))
            case _ =>
              var f := Handled(e, i.packet);
              RunWorker(e, i, n) == Some(Ran(f.(queue := [], waiting := f.waiting + e.queue, worker := Receiving),
                                             [KeyList(i.order)] + Requests(e, e.queue)))
  {
    hide RunWorker, Handled, Requests;
    if i.packet.Some? && i.packet.value.ValueRequest? {
      n := 3;
      var e1 := WorkerApply(e, i);
      var e2 := WorkerApply(e1, i);
      var e3 := WorkerApply(e2, i);
      assert e3 == e;
      var p := i.packet.value;
      var reply := [ValueResponse(Answer(p.key, Lookup(i.local, p.key), p.tag, i.version))];
      assert Sent(e2.worker) == reply && reply + [] == reply;
      NoStep(e3, i);
      OneStep(e2, i, 0, e3, Ran(e3, []));
      SilentStep(e1, i, 1, e2, Ran(e3, reply));
      SilentStep(e, i, 2, e1, Ran(e3, reply));
    } else {
      hide WorkerApply, WorkerEnabled, Free;
      var m := HandleIsLoop(e, i);
      var f := Handled(e, i.packet);
      HandledIsFree(e, i.packet);
      HandledLists(e, i.packet);
      ListAndDrain(f, i);
      var last := Ran(f.(queue := [], waiting := f.waiting + f.queue, worker := Receiving),
                      [KeyList(i.order)] + Requests(f, f.queue));
      SeveralSteps(e, i, m, Ran(f, []), 8 * |f.queue| + 4, last);
      n := m + (8 * |f.queue| + 4);
      assert [] + last.sent == last.sent;
    }
  }

  lemma HandledLists(e: Endpoint, p: Option<Packet>)
    requires Free(e, e.waiting)
    ensures Handled(e, p).worker.Listing?
  {
  }
}
