/** The loops of a connection over its request queue and its waiting list, each run by one thread
    without a step of another in between. `UninterruptedWorkers` relates them to the worker's steps. */
module CtCConnections {
  import opened Bytes
  import opened Frames
  import opened Messages
  import opened Wrappers

  class ValueRequest {
    const key: Str
    var value: Option<Frame>
    var notified: bool

    constructor (key: Str)
      ensures this.key == key && value == None && !notified
    {
      this.key, value, notified := key, None, false;
    }
  }

  /** The first request for the key. */
  ghost predicate FirstFor(requests: seq<ValueRequest>, key: Str, i: nat) {
    i < |requests| && requests[i].key == key && forall j | 0 <= j < i :: requests[j].key != key
  }

  ghost predicate NoDuplicates(requests: seq<ValueRequest>) {
    forall i, j | 0 <= i < j < |requests| :: requests[i] != requests[j]
  }

  lemma OneMore(requests: seq<ValueRequest>, r: ValueRequest)
    requires NoDuplicates(requests) && r !in requests
    ensures NoDuplicates(requests + [r])
  {
  }

  lemma OneLess(list: seq<ValueRequest>, queue: seq<ValueRequest>, at: nat)
    requires NoDuplicates(list + queue) && at < |list|
    ensures NoDuplicates(list[..at] + list[at + 1..] + queue) && list[at] !in list[..at] + list[at + 1..]
  {
    var all, less := list + queue, list[..at] + list[at + 1..] + queue;
    assert forall i | 0 <= i < |less| :: less[i] == all[if i < at then i else i + 1];
    assert forall i | 0 <= i < |list| :: list[i] == all[i];
  }

  class CtCConnection {
    var requestQueue: seq<ValueRequest>
    var waitingRequests: seq<ValueRequest>
    var sent: seq<Message>

    /** No request is in the queue or on the list twice. */
    ghost predicate Valid()
      reads this
    {
      NoDuplicates(waitingRequests + requestQueue)
    }

    constructor ()
      ensures Valid() && requestQueue == [] && waitingRequests == [] && sent == []
    {
      requestQueue, waitingRequests, sent := [], [], [];
    }

    method AddRequest(request: ValueRequest)
      requires Valid() && request !in requestQueue && request !in waitingRequests
      modifies this`requestQueue
      ensures Valid() && requestQueue == old(requestQueue) + [request]
    {
      OneMore(waitingRequests + requestQueue, request);
      assert waitingRequests + (requestQueue + [request]) == waitingRequests + requestQueue + [request];
      requestQueue := requestQueue + [request];
    }

    /** Sends every queued request, oldest first, and puts it on the waiting list before that. */
    method CheckRequests()
      requires Valid()
      modifies this
      ensures Valid() && requestQueue == []
      ensures waitingRequests == old(waitingRequests) + old(requestQueue)
      ensures |sent| == |old(sent)| + |old(requestQueue)| && sent[..|old(sent)|] == old(sent)
      ensures forall i | 0 <= i < |old(requestQueue)| :: sent[|old(sent)| + i] == Ask(old(requestQueue)[i].key)
    {
      ghost var queue := requestQueue;
      ghost var n := 0;
      while requestQueue != []
        invariant n <= |queue| && requestQueue == queue[n..]
        invariant waitingRequests == old(waitingRequests) + queue[..n]
        invariant |sent| == |old(sent)| + n && sent[..|old(sent)|] == old(sent)
        invariant forall i | 0 <= i < n :: sent[|old(sent)| + i] == Ask(queue[i].key)
        decreases |requestQueue|
      {
        var request := requestQueue[0];
        requestQueue := requestQueue[1..];
        waitingRequests := waitingRequests + [request];
        sent := sent + [Ask(request.key)];
        assert queue[..n + 1] == queue[..n] + [request];
        n := n + 1;
      }
      assert queue[..n] == queue && old(waitingRequests) + [] == old(waitingRequests);
      assert waitingRequests + requestQueue == old(waitingRequests + requestQueue);
    }

    /** Answers and wakes the first waiting request for the key, and takes it off the list; with
        none for this key nothing changes. */
    method ParseRequestResponse(key: Str, value: Option<Frame>) returns (found: bool)
      requires Valid()
      modifies this`waitingRequests, waitingRequests
      ensures Valid()
      ensures found <==> exists i :: FirstFor(old(waitingRequests), key, i)
      ensures !found ==> waitingRequests == old(waitingRequests) && forall r | r in waitingRequests :: unchanged(r)
      ensures forall i: nat | FirstFor(old(waitingRequests), key, i) ::
                && waitingRequests == old(waitingRequests)[..i] + old(waitingRequests)[i + 1..]
                && old(waitingRequests)[i].value == value && old(waitingRequests)[i].notified
                && forall r | r in waitingRequests :: unchanged(r)
    {
      ghost var list := waitingRequests;
      for at := 0 to |waitingRequests|
        invariant waitingRequests == list && forall r | r in list :: unchanged(r)
        invariant forall j | 0 <= j < at :: list[j].key != key
      {
        var request := waitingRequests[at];
        if key == request.key {
          assert FirstFor(list, key, at);
          request.value := value;
          waitingRequests := waitingRequests[..at] + waitingRequests[at + 1..];
          request.notified := true;
          OneLess(list, requestQueue, at);
          return true;
        }
      }
      return false;
    }
  }
}
