/** What every step at one end of a connection keeps: where each request is, and who holds each mutex. */
module EndpointInvariant {
  import opened Wrappers
  import opened Protocol

  /** The request the worker has popped from the queue and not yet put on the waiting list. */
  function InHand(w: WorkerState): seq<Id> {
    match w
    case Popped(id) => [id]
    case KeyRead(id) => [id]
    case TakingWaiting(id, _) => [id]
    case Filing(id, _) => [id]
    case _ => []
  }

  /** Every pushed and unanswered request, in the order it was pushed. */
  function Tracked(e: Endpoint): seq<Id> {
    e.waiting + InHand(e.worker) + e.queue
  }

  /** How many of them, from the oldest, the worker has seen blocked in wait. */
  function Settled(e: Endpoint): nat {
    |e.waiting| + if InHand(e.worker) != [] && !e.worker.Popped? then 1 else 0
  }

  predicate Unanswered(p: Phase) {
    p.Queued? || p.Blocked?
  }

  /** `ids` lists each unanswered request once, and the first `settled` of them are blocked. */
  ghost predicate Tracks(ids: seq<Id>, settled: nat, reqs: map<Id, Request>) {
    && settled <= |ids|
    && (forall i | 0 <= i < |ids| :: ids[i] in reqs && Unanswered(reqs[ids[i]].phase))
    && (forall i | 0 <= i < settled :: reqs[ids[i]].phase.Blocked?)
    && (forall i, j | 0 <= i < j < |ids| :: ids[i] != ids[j])
    && (forall id | id in reqs && Unanswered(reqs[id].phase) :: id in ids)
  }

  ghost predicate WaitingLock(e: Endpoint) {
    var w := e.worker;
    e.waitingMutex ==
      if w.Scanning? || w.Comparing? || w.Releasing? || w.Leaving? || w.Filing? then Some(Worker) else None
  }

  predicate WorkerHasQueue(w: WorkerState) {
    w.Draining? || w.Popped? || w.KeyRead? || w.TakingWaiting? || w.Filing? || w.Filed?
  }

  ghost predicate QueueLock(e: Endpoint) {
    && (e.queueMutex == Some(Worker) <==> WorkerHasQueue(e.worker))
    && (forall id :: e.queueMutex == Some(Requester(id)) <==> id in e.reqs && e.reqs[id].phase.Queueing?)
  }

  /** The request whose mutex the worker holds. */
  function Locked(e: Endpoint): Option<Id> {
    match e.worker
    case KeyRead(id) => Some(id)
    case Releasing(id) => Some(id)
    case Comparing(at, _) => if at < |e.waiting| then Some(e.waiting[at]) else None
    case _ => None
  }

  predicate HoldsOwn(p: Phase) {
    p.Created? || p.Queueing? || p.Queued? || p.Reading?
  }

  ghost predicate RequestLock(e: Endpoint, id: Id)
    requires id in e.reqs
  {
    e.reqs[id].mutex ==
      if HoldsOwn(e.reqs[id].phase) then Some(Requester(id))
      else if Locked(e) == Some(id) then Some(Worker)
      else None
  }

  ghost predicate RequestLocks(e: Endpoint) {
    forall id | id in e.reqs :: RequestLock(e, id)
  }

  /** A request the worker has just answered is awake and waits for the worker to let go. */
  ghost predicate Answering(e: Endpoint) {
    && (e.worker.Releasing? ==> e.worker.id in e.reqs && e.reqs[e.worker.id].phase.Woken?)
    && (e.worker.Scanning? || e.worker.Comparing? ==> e.worker.at == 0)
  }

  /** The response the worker is matching is for the oldest waiting request. */
  ghost predicate HeadMatches(e: Endpoint) {
    e.worker.Matching? || e.worker.Scanning? || e.worker.Comparing? ==>
      && e.waiting != []
      && e.waiting[0] == e.worker.answer.tag
      && e.waiting[0] in e.reqs
      && e.reqs[e.waiting[0]].key == e.worker.answer.key
  }

  ghost predicate EndInv(e: Endpoint) {
    && Tracks(Tracked(e), Settled(e), e.reqs)
    && WaitingLock(e)
    && QueueLock(e)
    && RequestLocks(e)
    && Answering(e)
  }

  // ---- the list of unanswered requests ----

  lemma TracksPush(ids: seq<Id>, settled: nat, reqs: map<Id, Request>, id: Id, r: Request)
    requires Tracks(ids, settled, reqs)
    requires id in reqs && !Unanswered(reqs[id].phase) && r.phase.Queued?
    ensures Tracks(ids + [id], settled, reqs[id := r])
  {
  }

  lemma TracksAnswer(ids: seq<Id>, settled: nat, reqs: map<Id, Request>, r: Request)
    requires Tracks(ids, settled, reqs) && settled > 0 && ids != [] && !Unanswered(r.phase)
    ensures Tracks(ids[1..], settled - 1, reqs[ids[0] := r])
  {
  }

  lemma TracksChange(ids: seq<Id>, settled: nat, reqs: map<Id, Request>, id: Id, r: Request)
    requires Tracks(ids, settled, reqs)
    requires if id in reqs then Unanswered(reqs[id].phase) == Unanswered(r.phase) else !Unanswered(r.phase)
    requires id in reqs && reqs[id].phase.Blocked? ==> r.phase.Blocked?
    ensures Tracks(ids, settled, reqs[id := r])
  {
  }

  // ---- requester steps ----

  lemma RequesterKeepsTracks(e: Endpoint, id: Id, a: Action, now: nat)
    requires Tracks(Tracked(e), Settled(e), e.reqs) && RequesterEnabled(e, id, a)
    ensures var f := RequesterApply(e, id, a, now); Tracks(Tracked(f), Settled(f), f.reqs)
  {
    var f := RequesterApply(e, id, a, now);
    if a.Push? {
      TracksPush(Tracked(e), Settled(e), e.reqs, id, f.reqs[id]);
      assert Tracked(f) == Tracked(e) + [id];
    } else {
      TracksChange(Tracked(e), Settled(e), e.reqs, id, f.reqs[id]);
      assert Tracked(f) == Tracked(e);
    }
  }

  lemma RequesterKeepsLocks(e: Endpoint, id: Id, a: Action, now: nat)
    requires QueueLock(e) && WaitingLock(e) && RequestLocks(e) && Answering(e) && RequesterEnabled(e, id, a)
    requires Locked(e).Some? && Locked(e).value == id && id in e.reqs ==> !HoldsOwn(e.reqs[id].phase)
    requires e.worker.KeyRead? || e.worker.Comparing? ==> Locked(e).Some? && Locked(e).value in e.reqs
    ensures var f := RequesterApply(e, id, a, now);
            QueueLock(f) && WaitingLock(f) && RequestLocks(f) && Answering(f)
  {
    var f := RequesterApply(e, id, a, now);
    assert Locked(f) == Locked(e);
  }

  /** A requester step keeps the invariant of its endpoint. */
  lemma RequesterKeepsEndInv(e: Endpoint, id: Id, a: Action, now: nat)
    requires EndInv(e) && HeadMatches(e) && RequesterEnabled(e, id, a)
    ensures EndInv(RequesterApply(e, id, a, now))
  {
    RequesterKeepsTracks(e, id, a, now);
    LockedIsSettled(e);
    RequesterKeepsLocks(e, id, a, now);
  }

  /** The worker only ever holds the mutex of a request whose owner holds none. */
  lemma LockedIsSettled(e: Endpoint)
    requires Tracks(Tracked(e), Settled(e), e.reqs) && Answering(e) && HeadMatches(e)
    ensures Locked(e).Some? ==> Locked(e).value in e.reqs && !HoldsOwn(e.reqs[Locked(e).value].phase)
    ensures e.worker.Comparing? ==> Locked(e).Some? && e.reqs[Locked(e).value].phase.Blocked?
  {
    if e.worker.KeyRead? {
      assert Tracked(e)[|e.waiting|] == e.worker.id;
    } else if e.worker.Comparing? {
      assert Tracked(e)[0] == e.waiting[0];
    }
  }

  // ---- worker steps ----

  lemma MatchingKeepsTracks(e: Endpoint, i: Input)
    requires Tracks(Tracked(e), Settled(e), e.reqs) && Answering(e) && HeadMatches(e) && WorkerEnabled(e, i)
    requires e.worker.Scanning? || e.worker.Comparing?
    ensures var f := WorkerApply(e, i); Tracks(Tracked(f), Settled(f), f.reqs)
  {
    var f := WorkerApply(e, i);
    var ids, settled := Tracked(e), Settled(e);
    assert ids[0] == e.waiting[0];
    if e.worker.Scanning? {
      TracksChange(ids, settled, e.reqs, ids[0], f.reqs[ids[0]]);
    } else {
      TracksAnswer(ids, settled, e.reqs, f.reqs[ids[0]]);
      assert Tracked(f) == ids[1..];
    }
  }

  lemma HandlingKeepsTracks(e: Endpoint, i: Input)
    requires Tracks(Tracked(e), Settled(e), e.reqs) && WorkerEnabled(e, i)
    requires e.worker.Releasing? || e.worker.Popped? || e.worker.KeyRead?
    requires e.worker.Popped? ==> RequestLocks(e)
    ensures var f := WorkerApply(e, i); Tracks(Tracked(f), Settled(f), f.reqs)
  {
  }

  lemma QuietKeepsTracks(e: Endpoint, i: Input)
    requires Tracks(Tracked(e), Settled(e), e.reqs) && WorkerEnabled(e, i)
    requires !e.worker.Scanning? && !e.worker.Comparing? && !e.worker.Releasing?
    requires !e.worker.Popped? && !e.worker.KeyRead?
    ensures var f := WorkerApply(e, i); Tracks(Tracked(f), Settled(f), f.reqs)
  {
    var f := WorkerApply(e, i);
    assert Tracked(f) == Tracked(e) && Settled(f) == Settled(e) && f.reqs == e.reqs;
  }

  lemma WorkerKeepsTracks(e: Endpoint, i: Input)
    requires EndInv(e) && HeadMatches(e) && WorkerEnabled(e, i)
    ensures var f := WorkerApply(e, i); Tracks(Tracked(f), Settled(f), f.reqs)
  {
    var w := e.worker;
    if w.Scanning? || w.Comparing? {
      MatchingKeepsTracks(e, i);
    } else if w.Releasing? || w.Popped? || w.KeyRead? {
      HandlingKeepsTracks(e, i);
    } else {
      QuietKeepsTracks(e, i);
    }
  }

  lemma WorkerKeepsLocks(e: Endpoint, i: Input)
    requires QueueLock(e) && WaitingLock(e) && Answering(e) && HeadMatches(e) && WorkerEnabled(e, i)
    requires e.worker.Comparing? ==> e.reqs[e.waiting[0]].phase.Blocked?
    ensures var f := WorkerApply(e, i); QueueLock(f) && WaitingLock(f) && Answering(f)
  {
  }

  lemma WorkerKeepsRequestLock(e: Endpoint, i: Input, id: Id)
    requires Answering(e) && HeadMatches(e) && WorkerEnabled(e, i)
    requires id in e.reqs && RequestLock(e, id)
    requires Locked(e) == Some(id) ==> !HoldsOwn(e.reqs[id].phase)
    requires e.worker.Comparing? ==> e.reqs[e.waiting[0]].phase.Blocked?
    ensures id in WorkerApply(e, i).reqs && RequestLock(WorkerApply(e, i), id)
  {
  }

  lemma WorkerAddsNoRequest(e: Endpoint, i: Input)
    requires Answering(e) && HeadMatches(e) && WorkerEnabled(e, i)
    ensures WorkerApply(e, i).reqs.Keys == e.reqs.Keys
  {
  }

  /** A worker step keeps the invariant of its endpoint. */
  lemma WorkerKeepsEndInv(e: Endpoint, i: Input)
    requires EndInv(e) && HeadMatches(e) && WorkerEnabled(e, i)
    ensures EndInv(WorkerApply(e, i))
  {
    WorkerKeepsTracks(e, i);
    LockedIsSettled(e);
    WorkerKeepsLocks(e, i);
    WorkerAddsNoRequest(e, i);
    forall id | id in WorkerApply(e, i).reqs ensures RequestLock(WorkerApply(e, i), id) {
      assert RequestLock(e, id);
      WorkerKeepsRequestLock(e, i, id);
    }
  }
}
