/** What the protocol guarantees in every state of every run. */
module ProtocolTheorems {
  import opened Bytes
  import opened Wrappers
  import opened Frames
  import opened Protocol
  import opened EndpointInvariant
  import opened ProtocolInvariant
  import opened NetworkInvariant

  // ---- deadlock ----

  datatype Thread = WorkerOf(link: Link) | RequesterOf(link: Link, id: Id)

  ghost predicate Exists(s: State, t: Thread) {
    t.link in s.ends && (t.RequesterOf? ==> t.id in s.ends[t.link].reqs)
  }

  /** Some step of the thread is possible now. */
  ghost predicate Runnable(cfg: Config, s: State, t: Thread)
    requires Shape(cfg, s)
  {
    match t
    case WorkerOf(l) => exists hasData, order :: Enabled(cfg, s, Work(l, hasData, order))
    case RequesterOf(l, id) => exists a: Action :: !a.Ask? && Enabled(cfg, s, Call(l, id, a))
  }

  /** The requester sleeps in cv.wait, or has its value. */
  ghost predicate Parked(s: State, t: Thread)
    requires Exists(s, t)
  {
    t.RequesterOf? && (s.ends[t.link].reqs[t.id].phase.Blocked? || s.ends[t.link].reqs[t.id].phase.Returned?)
  }

  /** The mutex the thread is about to take. */
  ghost function Wanted(s: State, t: Thread): Option<Agent>
    requires Exists(s, t)
  {
    var e := s.ends[t.link];
    match t
    case RequesterOf(_, id) =>
      if e.reqs[id].phase.Created? then e.queueMutex
      else if e.reqs[id].phase.Woken? then e.reqs[id].mutex
      else None
    case WorkerOf(_) =>
      match e.worker
      case TakingQueue => e.queueMutex
      case Matching(_) => e.waitingMutex
      case TakingWaiting(_, _) => e.waitingMutex
      case Scanning(at, _) =>
        if at < |e.waiting| && e.waiting[at] in e.reqs then e.reqs[e.waiting[at]].mutex else None
      case Popped(id) => if id in e.reqs then e.reqs[id].mutex else None
      case _ => None
  }

  /** The thread that holds the mutex `t` is about to take. */
  ghost function Blocker(s: State, t: Thread): Option<Thread>
    requires Exists(s, t)
  {
    match Wanted(s, t)
    case None => None
    case Some(Worker) => Some(WorkerOf(t.link))
    case Some(Requester(id)) => Some(RequesterOf(t.link, id))
  }

  lemma OrderOf(keys: set<Str>) returns (order: seq<Str>)
    ensures (set k | k in order) == keys
    decreases |keys|
  {
    if keys == {} {
      order := [];
    } else {
      var k :| k in keys;
      var rest := OrderOf(keys - {k});
      order := [k] + rest;
      assert keys == (keys - {k}) + {k};
      forall x ensures x in (set y | y in order) <==> x in keys {
        assert x in order <==> x == k || x in rest;
      }
    }
  }

  /** A requester that wants no mutex, and is not parked, can run. */
  lemma RequesterRuns(cfg: Config, s: State, l: Link, id: Id)
    requires Shape(cfg, s) && l in cfg.links && id in s.ends[l].reqs
    requires !Parked(s, RequesterOf(l, id)) && Wanted(s, RequesterOf(l, id)).None?
    ensures Runnable(cfg, s, RequesterOf(l, id))
  {
    var a := match s.ends[l].reqs[id].phase
      case Created => LockQueue
      case Queueing => Push
      case Queued => Wait
      case Woken => Relock
      case _ => Return;
    assert Enabled(cfg, s, Call(l, id, a));
  }

  /** The worker runs unless the queue mutex, or the mutex of a request it popped, is taken: with
      the oldest packet of its wire or without, and with its keys in any order. */
  lemma WorkerRunsWith(cfg: Config, s: State, l: Link, hasData: bool, order: seq<Str>)
    requires Shape(cfg, s) && l in cfg.links && LinkInv(cfg, s, l)
    requires Wanted(s, WorkerOf(l)).None? && (hasData ==> s.wires[Reverse(l)] != [])
    requires (set k | k in order) == Local(s, l.me).Keys
    ensures Enabled(cfg, s, Work(l, hasData, order))
  {
    var e := s.ends[l];
    ResponseMatchesHead(e, s.ends[Reverse(l)], s.wires[Reverse(l)], s.wires[l], s.history[l.me], s.history[l.peer]);
    LockedIsSettled(e);
    if e.worker.Popped? {
      assert Tracked(e)[|e.waiting|] == e.worker.id;
    }
  }

  lemma WorkerRuns(cfg: Config, s: State, l: Link)
    requires Shape(cfg, s) && l in cfg.links && LinkInv(cfg, s, l)
    requires Wanted(s, WorkerOf(l)).None?
    ensures Runnable(cfg, s, WorkerOf(l))
  {
    hide LinkInv, Enabled;
    var order := OrderOf(Local(s, l.me).Keys);
    WorkerRunsWith(cfg, s, l, false, order);
  }

  /** What the worker wants is free, or held by a requester of this connection. */
  lemma WorkerWaitsForRequester(cfg: Config, s: State, l: Link)
    requires Shape(cfg, s) && l in cfg.links && LinkInv(cfg, s, l)
    requires Wanted(s, WorkerOf(l)).Some?
    ensures Wanted(s, WorkerOf(l)).value.Requester?
    ensures var id := Wanted(s, WorkerOf(l)).value.id;
            id in s.ends[l].reqs && (s.ends[l].reqs[id].phase.Queueing? || s.ends[l].reqs[id].phase.Queued?)
  {
    hide GoodWorker, GoodWire, Recorded;
    var e := s.ends[l];
    ResponseMatchesHead(e, s.ends[Reverse(l)], s.wires[Reverse(l)], s.wires[l], s.history[l.me], s.history[l.peer]);
    if e.worker.Popped? {
      assert Tracked(e)[|e.waiting|] == e.worker.id;
    } else if e.worker.Scanning? {
      assert Tracked(e)[0] == e.waiting[0];
    }
  }

  /** What a requester wants is free, held by the worker, or held by a requester that is pushing. */
  lemma RequesterWaitsFor(cfg: Config, s: State, l: Link, id: Id)
    requires Shape(cfg, s) && l in cfg.links && LinkInv(cfg, s, l) && id in s.ends[l].reqs
    requires Wanted(s, RequesterOf(l, id)).Some? && Wanted(s, RequesterOf(l, id)).value.Requester?
    ensures var other := Wanted(s, RequesterOf(l, id)).value.id;
            other in s.ends[l].reqs && s.ends[l].reqs[other].phase.Queueing?
  {
  }

  /** A worker that is not blocked can run; one that is blocked waits for a requester that can. */
  lemma WorkerProgress(cfg: Config, s: State, l: Link)
    requires Shape(cfg, s) && l in cfg.links && LinkInv(cfg, s, l)
    ensures var b := Blocker(s, WorkerOf(l));
            if b.None? then Runnable(cfg, s, WorkerOf(l))
            else b.value.RequesterOf? && Exists(s, b.value) && Runnable(cfg, s, b.value)
  {
    if Wanted(s, WorkerOf(l)).None? {
      WorkerRuns(cfg, s, l);
    } else {
      WorkerWaitsForRequester(cfg, s, l);
      RequesterRuns(cfg, s, l, Wanted(s, WorkerOf(l)).value.id);
    }
  }

  /**
    The protocol cannot deadlock. Although requesters take their request's mutex before the
    queue mutex and the worker takes them the other way round, in every reachable state a
    thread that is not parked can run, or is blocked by a thread that can run, or is blocked
    by the worker, which is blocked by a requester that can run.
   */
  lemma NoDeadlock(cfg: Config, run: seq<State>, steps: seq<Step>, n: nat, t: Thread)
    requires IsRun(cfg, run, steps) && n < |run|
    requires Exists(run[n], t)
    ensures Shape(cfg, run[n])
    ensures var s := run[n];
            || Parked(s, t)
            || Runnable(cfg, s, t)
            || (Blocker(s, t).Some?
                && var b := Blocker(s, t).value;
                   && Exists(s, b)
                   && (|| Runnable(cfg, s, b)
                       || (&& t.RequesterOf? && b == WorkerOf(t.link)
                           && Blocker(s, b).Some?
                           && Blocker(s, b).value.RequesterOf?
                           && Exists(s, Blocker(s, b).value)
                           && Blocker(s, b).value != t
                           && Runnable(cfg, s, Blocker(s, b).value))))
  {
    hide WorkerApply;
    RunHasInv(cfg, run, steps, n);
    var s := run[n];
    var l := t.link;
    assert LinkInv(cfg, s, l);
    WorkerProgress(cfg, s, l);
    if t.RequesterOf? && !Parked(s, t) {
      if Wanted(s, t).None? {
        RequesterRuns(cfg, s, l, t.id);
      } else if Wanted(s, t).value.Requester? {
        RequesterWaitsFor(cfg, s, l, t.id);
        RequesterRuns(cfg, s, l, Wanted(s, t).value.id);
      } else if Wanted(s, WorkerOf(l)).Some? {
        WorkerWaitsForRequester(cfg, s, l);
      }
    }
  }

  // ---- one answer for each request ----

  /** Every request is tracked in exactly one place while it is unanswered, and nowhere else. */
  lemma EachRequestInOnePlace(cfg: Config, run: seq<State>, steps: seq<Step>, n: nat, l: Link, id: Id)
    requires IsRun(cfg, run, steps) && n < |run|
    requires l in run[n].ends && id in run[n].ends[l].reqs
    ensures var e := run[n].ends[l];
            multiset(e.waiting)[id] + multiset(InHand(e.worker))[id] + multiset(e.queue)[id]
            == if Unanswered(e.reqs[id].phase) then 1 else 0
  {
    RunHasInv(cfg, run, steps, n);
    assert LinkInv(cfg, run[n], l);
    var e := run[n].ends[l];
    DistinctCounts(Tracked(e), id);
    assert multiset(Tracked(e)) == multiset(e.waiting) + multiset(InHand(e.worker)) + multiset(e.queue);
  }

  lemma {:induction false} DistinctCounts(ids: seq<Id>, id: Id)
    requires forall i, j | 0 <= i < j < |ids| :: ids[i] != ids[j]
    ensures multiset(ids)[id] == if id in ids then 1 else 0
  {
    if ids != [] {
      assert ids == [ids[0]] + ids[1..];
      DistinctCounts(ids[1..], id);
    }
  }

  /** The waiting list is exactly the round trips under way, in order: responses match the
      requests in the order in which those were pushed. */
  lemma WaitingIsInFlight(cfg: Config, run: seq<State>, steps: seq<Step>, n: nat, l: Link)
    requires IsRun(cfg, run, steps) && n < |run| && l in cfg.links
    ensures Shape(cfg, run[n])
    ensures var s := run[n];
            s.ends[l].waiting
            == RoundTrips(s.ends[l].worker, s.wires[Reverse(l)], s.ends[Reverse(l)].worker, s.wires[l])
  {
    RunHasInv(cfg, run, steps, n);
    assert LinkInv(cfg, run[n], l);
  }

  function UnmatchedKeys(w: WorkerState): seq<Str> {
    match w
    case Matching(answer) => [answer.key]
    case Scanning(_, answer) => [answer.key]
    case Comparing(_, answer) => [answer.key]
    case _ => []
  }

  function UnsentKeys(w: WorkerState): seq<Str> {
    match w
    case Filed(_, key) => [key]
    case Sending(_, key) => [key]
    case _ => []
  }

  function UnderAnswerKeys(w: WorkerState): seq<Str> {
    match w
    case Looking(key, _) => [key]
    case Replying(answer) => [answer.key]
    case _ => []
  }

  /** The keys in the requests on a wire. */
  function AskedKeys(wire: seq<Packet>): seq<Str> {
    if wire == [] then []
    else (if wire[0].ValueRequest? then [wire[0].key] else []) + AskedKeys(wire[1..])
  }

  /** The keys in the responses on a wire. */
  function AnsweredKeys(wire: seq<Packet>): seq<Str> {
    if wire == [] then []
    else (if wire[0].ValueResponse? then [wire[0].answer.key] else []) + AnsweredKeys(wire[1..])
  }

  /** The keys of the round trips of one end, the one nearest completion first. */
  function KeysUnderWay(w: WorkerState, back: seq<Packet>, peer: WorkerState, out: seq<Packet>): seq<Str> {
    UnmatchedKeys(w) + (AnsweredKeys(back) + UnderAnswerKeys(peer) + AskedKeys(out)) + UnsentKeys(w)
  }

  /** The requests `ids` of an end have the keys `keys`, in this order. */
  ghost predicate HaveKeys(e: Endpoint, ids: seq<Id>, keys: seq<Str>) {
    |ids| == |keys| && forall k | 0 <= k < |ids| :: ids[k] in e.reqs && e.reqs[ids[k]].key == keys[k]
  }

  lemma HaveKeysJoined(e: Endpoint, ids: seq<Id>, keys: seq<Str>, ids': seq<Id>, keys': seq<Str>)
    requires HaveKeys(e, ids, keys) && HaveKeys(e, ids', keys')
    ensures HaveKeys(e, ids + ids', keys + keys')
  {
  }

  lemma {:induction false} AskedHaveKeys(wire: seq<Packet>, mine: Endpoint, theirs: Endpoint, v: seq<Store>)
    requires GoodWire(wire, mine, theirs, v)
    ensures HaveKeys(mine, Asked(wire), AskedKeys(wire))
  {
    if wire != [] {
      assert GoodPacket(wire[0], mine, theirs, v);
      AskedHaveKeys(wire[1..], mine, theirs, v);
    }
  }

  lemma {:induction false} AnsweredHaveKeys(wire: seq<Packet>, mine: Endpoint, theirs: Endpoint, v: seq<Store>)
    requires GoodWire(wire, mine, theirs, v)
    ensures HaveKeys(theirs, Answered(wire), AnsweredKeys(wire))
  {
    if wire != [] {
      assert GoodPacket(wire[0], mine, theirs, v);
      AnsweredHaveKeys(wire[1..], mine, theirs, v);
    }
  }

  lemma WorkerHasKeys(w: WorkerState, mine: Endpoint, theirs: Endpoint, v: seq<Store>, u: seq<Store>)
    requires GoodWorker(w, mine, theirs, v, u)
    ensures HaveKeys(mine, Unmatched(w), UnmatchedKeys(w)) && HaveKeys(mine, Unsent(w), UnsentKeys(w))
    ensures HaveKeys(theirs, UnderAnswer(w), UnderAnswerKeys(w))
  {
  }

  /** The keys of the waiting requests are, in order, those of the packets under way: in the
      response being matched, in the responses on the wire back, in the request the peer is
      answering, in the requests on the wire out, and in the one still to be sent. */
  lemma WaitingKeysAreInFlight(cfg: Config, run: seq<State>, steps: seq<Step>, n: nat, l: Link)
    requires IsRun(cfg, run, steps) && n < |run| && l in cfg.links
    ensures Shape(cfg, run[n])
    ensures var s := run[n];
            HaveKeys(s.ends[l], s.ends[l].waiting,
                     KeysUnderWay(s.ends[l].worker, s.wires[Reverse(l)], s.ends[Reverse(l)].worker, s.wires[l]))
  {
    hide HaveKeys, GoodWire, GoodWorker, Unmatched, Unsent, UnderAnswer, Asked, Answered;
    hide UnmatchedKeys, UnsentKeys, UnderAnswerKeys, AskedKeys, AnsweredKeys, EndInv, Recorded;
    RunHasInv(cfg, run, steps, n);
    var s, r := run[n], Reverse(l);
    assert LinkInv(cfg, s, l) && LinkInv(cfg, s, r);
    var mine, theirs, back, out := s.ends[l], s.ends[r], s.wires[r], s.wires[l];
    WorkerHasKeys(mine.worker, mine, theirs, s.history[l.me], s.history[l.peer]);
    WorkerHasKeys(theirs.worker, theirs, mine, s.history[l.peer], s.history[l.me]);
    AnsweredHaveKeys(back, theirs, mine, s.history[l.peer]);
    AskedHaveKeys(out, mine, theirs, s.history[l.me]);
    HaveKeysJoined(mine, Answered(back), AnsweredKeys(back),
                   UnderAnswer(theirs.worker), UnderAnswerKeys(theirs.worker));
    HaveKeysJoined(mine, Answered(back) + UnderAnswer(theirs.worker),
                   AnsweredKeys(back) + UnderAnswerKeys(theirs.worker), Asked(out), AskedKeys(out));
    var flying := AnsweredKeys(back) + UnderAnswerKeys(theirs.worker) + AskedKeys(out);
    HaveKeysJoined(mine, Unmatched(mine.worker), UnmatchedKeys(mine.worker),
                   InFlight(back, theirs.worker, out), flying);
    HaveKeysJoined(mine, Unmatched(mine.worker) + InFlight(back, theirs.worker, out),
                   UnmatchedKeys(mine.worker) + flying, Unsent(mine.worker), UnsentKeys(mine.worker));
  }

  /** A response that has arrived answers the oldest waiting request: the one whose packet its
      sender looked at, and not another one for the same key. */
  lemma ResponseIsForOldest(cfg: Config, run: seq<State>, steps: seq<Step>, n: nat, l: Link)
    requires IsRun(cfg, run, steps) && n < |run| && l in cfg.links
    requires l in run[n].ends
    requires run[n].ends[l].worker.Matching? || run[n].ends[l].worker.Scanning? || run[n].ends[l].worker.Comparing?
    ensures var e := run[n].ends[l];
            && e.waiting != [] && e.waiting[0] == e.worker.answer.tag
            && e.waiting[0] in e.reqs && e.reqs[e.waiting[0]].key == e.worker.answer.key
  {
    RunHasInv(cfg, run, steps, n);
    var s := run[n];
    assert LinkInv(cfg, s, l);
    ResponseMatchesHead(s.ends[l], s.ends[Reverse(l)], s.wires[Reverse(l)], s.wires[l],
                        s.history[l.me], s.history[l.peer]);
  }

  /** A response always finds its request, at the head of the waiting list, and the owner is
      blocked in wait when it is notified: no wake-up is lost and no response is dropped. */
  lemma NoLostWakeUp(cfg: Config, run: seq<State>, steps: seq<Step>, n: nat, l: Link)
    requires IsRun(cfg, run, steps) && n < |steps| && l in cfg.links
    requires steps[n].Work? && steps[n].link == l
    requires l in run[n].ends && (run[n].ends[l].worker.Scanning? || run[n].ends[l].worker.Comparing?)
    ensures l in run[n + 1].ends && Wakes(run[n].ends[l], run[n + 1].ends[l])
  {
    RunHasInv(cfg, run, steps, n);
    assert LinkInv(cfg, run[n], l);
    assert Follows(cfg, run, steps, n);
    StepAtEnd(cfg, run[n], steps[n], l);
    var s := run[n];
    var e := s.ends[l];
    ResponseMatchesHead(e, s.ends[Reverse(l)], s.wires[Reverse(l)], s.wires[l], s.history[l.me], s.history[l.peer]);
    MatchingWakes(e, InputOf(s, l, steps[n].hasData, steps[n].order));
  }

  /** The worker goes from `e` to `f`, at the head of the list, and wakes its owner there. */
  ghost predicate Wakes(e: Endpoint, f: Endpoint) {
    && (e.worker.Scanning? || e.worker.Comparing?)
    && e.waiting != [] && e.waiting[0] in e.reqs
    && e.reqs[e.waiting[0]].phase.Blocked?
    && (e.worker.Scanning? ==> f.worker == Comparing(0, e.worker.answer))
    && (e.worker.Comparing? ==>
          && f.waiting == e.waiting[1..]
          && f.reqs == e.reqs[e.waiting[0] := e.reqs[e.waiting[0]].(
               phase := Woken, value := e.worker.answer.value, stamp := e.worker.answer.stamp)])
  }

  lemma MatchingWakes(e: Endpoint, i: Input)
    requires EndInv(e) && HeadMatches(e) && WorkerEnabled(e, i)
    requires e.worker.Scanning? || e.worker.Comparing?
    ensures Wakes(e, WorkerApply(e, i))
  {
    assert Tracked(e)[0] == e.waiting[0];
    if e.worker.Comparing? {
      assert e.waiting[..0] + e.waiting[1..] == e.waiting[1..];
    }
  }

  /** What a step does at one end of a connection. */
  lemma StepAtEnd(cfg: Config, s: State, a: Step, l: Link)
    requires Shape(cfg, s) && Enabled(cfg, s, a) && l in cfg.links
    ensures var e, f := s.ends[l], Apply(cfg, s, a).ends[l];
            if a.Call? && a.link == l then f == RequesterApply(e, a.id, a.action, |s.history[l.peer]| - 1)
            else if a.Work? && a.link == l then f == WorkerApply(e, InputOf(s, l, a.hasData, a.order))
            else f == e
  {
  }

  ghost predicate SameAnswer(r: Request, r': Request) {
    Done(r'.phase) && r'.key == r.key && r'.value == r.value && r'.stamp == r.stamp && r'.since == r.since
  }

  lemma WorkerKeepsAnswer(e: Endpoint, i: Input, id: Id)
    requires EndInv(e) && WorkerEnabled(e, i) && id in e.reqs && Done(e.reqs[id].phase)
    ensures id in WorkerApply(e, i).reqs && SameAnswer(e.reqs[id], WorkerApply(e, i).reqs[id])
  {
    hide QueueLock, WaitingLock, RequestLocks;
    if e.worker.Comparing? {
      assert Tracked(e)[0] == e.waiting[0];
    }
  }

  lemma RequesterKeepsAnswer(e: Endpoint, caller: Id, a: Action, now: nat, id: Id)
    requires RequesterEnabled(e, caller, a) && id in e.reqs && Done(e.reqs[id].phase)
    ensures id in RequesterApply(e, caller, a, now).reqs
    ensures SameAnswer(e.reqs[id], RequesterApply(e, caller, a, now).reqs[id])
  {
  }

  lemma StepKeepsAnswer(cfg: Config, s: State, a: Step, l: Link, id: Id)
    requires Shape(cfg, s) && Enabled(cfg, s, a) && l in cfg.links && EndInv(s.ends[l])
    requires id in s.ends[l].reqs && Done(s.ends[l].reqs[id].phase)
    ensures id in Apply(cfg, s, a).ends[l].reqs
    ensures SameAnswer(s.ends[l].reqs[id], Apply(cfg, s, a).ends[l].reqs[id])
  {
    StepAtEnd(cfg, s, a, l);
    if a.Work? && a.link == l {
      WorkerKeepsAnswer(s.ends[l], InputOf(s, l, a.hasData, a.order), id);
    } else if a.Call? && a.link == l {
      RequesterKeepsAnswer(s.ends[l], a.id, a.action, |s.history[l.peer]| - 1, id);
    }
  }

  /** Once answered, a request keeps its value: it is never answered again. */
  lemma AnsweredOnce(cfg: Config, run: seq<State>, steps: seq<Step>, n: nat, l: Link, id: Id)
    requires IsRun(cfg, run, steps) && n < |steps| && l in cfg.links
    requires l in run[n].ends && id in run[n].ends[l].reqs && Done(run[n].ends[l].reqs[id].phase)
    ensures l in run[n + 1].ends && id in run[n + 1].ends[l].reqs
    ensures SameAnswer(run[n].ends[l].reqs[id], run[n + 1].ends[l].reqs[id])
  {
    RunHasInv(cfg, run, steps, n);
    assert LinkInv(cfg, run[n], l);
    assert Follows(cfg, run, steps, n);
    StepKeepsAnswer(cfg, run[n], steps[n], l, id);
  }

  // ---- remote reads ----

  /** The local map of a node grows by at most one version a step and forgets none. */
  lemma RunStepGrows(cfg: Config, run: seq<State>, steps: seq<Step>, k: nat, n: NodeId)
    requires IsRun(cfg, run, steps) && k < |steps| && n in cfg.nodes
    ensures Shape(cfg, run[k]) && Shape(cfg, run[k + 1])
    ensures run[k].history[n] <= run[k + 1].history[n]
    ensures |run[k + 1].history[n]| <= |run[k].history[n]| + 1
  {
    assert Follows(cfg, run, steps, k);
  }

  lemma StepExtends(cfg: Config, s: State, a: Step, l: Link)
    requires Shape(cfg, s) && Enabled(cfg, s, a) && l in cfg.links
    ensures Extends(s.ends[l], Apply(cfg, s, a).ends[l])
  {
    StepAtEnd(cfg, s, a, l);
    if a.Call? && a.link == l {
      RequesterExtends(s.ends[l], a.id, a.action, |s.history[l.peer]| - 1);
    } else if a.Work? && a.link == l {
      WorkerExtends(s.ends[l], InputOf(s, l, a.hasData, a.order));
    }
  }

  lemma RunStepExtends(cfg: Config, run: seq<State>, steps: seq<Step>, k: nat, l: Link)
    requires IsRun(cfg, run, steps) && k < |steps| && l in cfg.links
    ensures Shape(cfg, run[k]) && Shape(cfg, run[k + 1])
    ensures Extends(run[k].ends[l], run[k + 1].ends[l])
  {
    assert Follows(cfg, run, steps, k);
    StepExtends(cfg, run[k], steps[k], l);
  }

  lemma RunStepPushes(cfg: Config, run: seq<State>, steps: seq<Step>, k: nat, l: Link, id: Id)
    requires IsRun(cfg, run, steps) && k < |steps| && steps[k] == Call(l, id, Push)
    ensures Shape(cfg, run[k]) && Shape(cfg, run[k + 1]) && l in cfg.links
    ensures var e, f := run[k].ends[l], run[k + 1].ends[l];
            && id in e.reqs && id in f.reqs && Pushed(f.reqs[id].phase)
            && f.reqs[id].since + 1 == |run[k].history[l.peer]| && f.reqs[id].key == e.reqs[id].key
  {
    assert Follows(cfg, run, steps, k);
  }

  /** A version between the newest at time i and the newest at time j was the newest in between. */
  lemma {:induction false} VersionWasNewest(
    cfg: Config, run: seq<State>, steps: seq<Step>, i: nat, j: nat, n: NodeId, at: nat) returns (m: nat)
    requires IsRun(cfg, run, steps) && i <= j < |run| && n in cfg.nodes
    requires Shape(cfg, run[i]) && |run[i].history[n]| <= at + 1
    requires Shape(cfg, run[j]) && at < |run[j].history[n]|
    ensures i <= m <= j && Shape(cfg, run[m])
    ensures Local(run[m], n) == run[j].history[n][at]
    decreases j
  {
    hide Follows, Init, GoodConfig;
    if |run[j].history[n]| == at + 1 {
      m := j;
    } else {
      RunStepGrows(cfg, run, steps, j - 1, n);
      m := VersionWasNewest(cfg, run, steps, i, j - 1, n, at);
    }
  }

  /** From its push on, a request remembers the version that was newest then. */
  lemma {:induction false} SinceIsPushTime(
    cfg: Config, run: seq<State>, steps: seq<Step>, i: nat, j: nat, l: Link, id: Id)
    requires IsRun(cfg, run, steps) && i < j < |run| && l in cfg.links
    requires steps[i] == Call(l, id, Push)
    ensures Shape(cfg, run[i]) && Shape(cfg, run[j])
    ensures id in run[i].ends[l].reqs && id in run[j].ends[l].reqs
    ensures var r := run[j].ends[l].reqs[id];
            && Pushed(r.phase) && r.since + 1 == |run[i].history[l.peer]|
            && r.key == run[i].ends[l].reqs[id].key
    decreases j
  {
    hide Follows, Init, GoodConfig;
    if i < j - 1 {
      SinceIsPushTime(cfg, run, steps, i, j - 1, l, id);
      RunStepExtends(cfg, run, steps, j - 1, l);
    } else {
      RunStepPushes(cfg, run, steps, i, l, id);
    }
  }

  /**
    Remote reads are linearizable. The frame a requester gets for its key is the one the
    peer's local map held for that key at some moment between the request entering the
    queue (step i) and the return, and it is never a failure response.
   */
  lemma RemoteReadIsLinearizable(
    cfg: Config, run: seq<State>, steps: seq<Step>, i: nat, j: nat, l: Link, id: Id) returns (m: nat)
    requires IsRun(cfg, run, steps) && i < j < |run| && l in cfg.links
    requires steps[i] == Call(l, id, Push)
    requires l in run[j].ends && id in run[j].ends[l].reqs && Done(run[j].ends[l].reqs[id].phase)
    ensures i <= m <= j && Shape(cfg, run[m]) && Shape(cfg, run[i]) && id in run[i].ends[l].reqs
    ensures run[j].ends[l].reqs[id].value.Some?
    ensures run[j].ends[l].reqs[id].value == Lookup(Local(run[m], l.peer), run[i].ends[l].reqs[id].key)
  {
    RunHasInv(cfg, run, steps, j);
    assert LinkInv(cfg, run[j], l);
    SinceIsPushTime(cfg, run, steps, i, j, l, id);
    m := VersionWasNewest(cfg, run, steps, i, j, l.peer, run[j].ends[l].reqs[id].stamp);
  }

  // ---- who owns which key ----

  /** The assertion in `KVStore::set` never fires: a node never learns that one of its own keys
      is remote. */
  lemma OwnKeyIsNeverRemote(cfg: Config, run: seq<State>, steps: seq<Step>, i: nat, n: NodeId, key: Str)
    requires IsRun(cfg, run, steps) && i < |run| && n in cfg.nodes
    requires key in cfg.owner && cfg.owner[key] == n
    ensures n in run[i].others && key !in run[i].others[n]
  {
    RunHasInv(cfg, run, steps, i);
    assert NodeInv(cfg, run[i], n);
    assert key in run[i].others[n] ==> NodeInv(cfg, run[i], run[i].others[n][key]);
  }

  /** Every key a node knows to be remote, and every key in a list on its way to it, is held by
      the node that announced it. */
  lemma AnnouncedKeysAreHeld(cfg: Config, run: seq<State>, steps: seq<Step>, i: nat, l: Link, n: nat)
    requires IsRun(cfg, run, steps) && i < |run| && l in cfg.links
    ensures Shape(cfg, run[i])
    ensures forall k | k in run[i].others[l.me] ::
              run[i].others[l.me][k] in cfg.nodes && k in Local(run[i], run[i].others[l.me][k])
    ensures n < |run[i].wires[l]| && run[i].wires[l][n].KeyList? ==>
              forall k | k in run[i].wires[l][n].keys :: k in Local(run[i], l.me)
  {
    RunHasInv(cfg, run, steps, i);
    assert NodeInv(cfg, run[i], l.me);
    assert LinkInv(cfg, run[i], l);
    if n < |run[i].wires[l]| {
      assert GoodPacket(run[i].wires[l][n], run[i].ends[l], run[i].ends[Reverse(l)], run[i].history[l.me]);
    }
  }

  /** A response is never a failure response. */
  lemma ResponsesSucceed(cfg: Config, run: seq<State>, steps: seq<Step>, i: nat, l: Link, n: nat)
    requires IsRun(cfg, run, steps) && i < |run| && l in cfg.links
    ensures Shape(cfg, run[i])
    ensures n < |run[i].wires[l]| && run[i].wires[l][n].ValueResponse? ==>
              run[i].wires[l][n].answer.value.Some?
  {
    RunHasInv(cfg, run, steps, i);
    assert LinkInv(cfg, run[i], l);
    if n < |run[i].wires[l]| {
      assert GoodPacket(run[i].wires[l][n], run[i].ends[l], run[i].ends[Reverse(l)], run[i].history[l.me]);
    }
  }

  // ---- keys written once ----

  /** Every write of `key` in the run stores `value`. */
  ghost predicate OnlyWrites(steps: seq<Step>, key: Str, value: Frame) {
    forall i | 0 <= i < |steps| && steps[i].Put? && steps[i].name == key :: steps[i].value == value
  }

  lemma RunStepHolds(
    cfg: Config, run: seq<State>, steps: seq<Step>, k: nat, n: NodeId, key: Str, value: Frame)
    requires IsRun(cfg, run, steps) && k < |steps| && n in cfg.nodes && OnlyWrites(steps, key, value)
    requires Shape(cfg, run[k]) && AllHold(run[k].history[n], key, value)
    ensures Shape(cfg, run[k + 1]) && AllHold(run[k + 1].history[n], key, value)
  {
    assert Follows(cfg, run, steps, k);
  }

  ghost predicate AllHold(versions: seq<Store>, key: Str, value: Frame) {
    forall v | 0 <= v < |versions| && key in versions[v] :: versions[v][key] == value
  }

  lemma {:induction false} VersionsHold(
    cfg: Config, run: seq<State>, steps: seq<Step>, i: nat, n: NodeId, key: Str, value: Frame)
    requires IsRun(cfg, run, steps) && i < |run| && n in cfg.nodes && OnlyWrites(steps, key, value)
    ensures Shape(cfg, run[i]) && AllHold(run[i].history[n], key, value)
  {
    if i > 0 {
      VersionsHold(cfg, run, steps, i - 1, n, key, value);
      RunStepHolds(cfg, run, steps, i - 1, n, key, value);
    }
  }

  /** A remote read of a key that is only ever set to one frame returns that frame. */
  lemma WrittenOnceReadExactly(
    cfg: Config, run: seq<State>, steps: seq<Step>, j: nat, l: Link, id: Id, value: Frame)
    requires IsRun(cfg, run, steps) && j < |run| && l in cfg.links
    requires l in run[j].ends && id in run[j].ends[l].reqs && Done(run[j].ends[l].reqs[id].phase)
    requires OnlyWrites(steps, run[j].ends[l].reqs[id].key, value)
    ensures run[j].ends[l].reqs[id].value == Some(value)
  {
    RunHasInv(cfg, run, steps, j);
    assert LinkInv(cfg, run[j], l);
    var r := run[j].ends[l].reqs[id];
    VersionsHold(cfg, run, steps, j, l.peer, r.key, value);
    assert Held(run[j].history[l.peer], r.stamp, r.key, r.value);
  }

  // ---- every value was set ----

  lemma RunLengths(cfg: Config, run: seq<State>, steps: seq<Step>)
    requires IsRun(cfg, run, steps)
    ensures |run| == |steps| + 1
  {
  }

  lemma RunStepPuts(cfg: Config, run: seq<State>, steps: seq<Step>, k: nat, n: NodeId)
    requires IsRun(cfg, run, steps) && k < |steps| && n in cfg.nodes
    ensures Shape(cfg, run[k]) && Shape(cfg, run[k + 1])
    ensures run[k + 1].history[n]
         == if steps[k].Put? && steps[k].node == n
            then run[k].history[n] + [Local(run[k], n)[steps[k].name := steps[k].value]]
            else run[k].history[n]
  {
    assert Follows(cfg, run, steps, k);
  }

  ghost predicate SetBefore(steps: seq<Step>, j: nat, n: NodeId, key: Str, value: Frame) {
    exists i :: 0 <= i < j && i < |steps| && steps[i] == Put(n, key, value)
  }

  /** Whatever a version of a node's map holds was set by that node. */
  lemma {:induction false} VersionFromPut(
    cfg: Config, run: seq<State>, steps: seq<Step>, j: nat, n: NodeId, v: nat, key: Str)
    requires IsRun(cfg, run, steps) && j < |run| && n in cfg.nodes && Shape(cfg, run[j])
    requires v < |run[j].history[n]| && key in run[j].history[n][v]
    ensures SetBefore(steps, j, n, key, run[j].history[n][v][key])
    decreases j
  {
    hide Follows, GoodConfig;
    if j > 0 {
      RunStepPuts(cfg, run, steps, j - 1, n);
      if v < |run[j - 1].history[n]| {
        VersionFromPut(cfg, run, steps, j - 1, n, v, key);
      } else if steps[j - 1].name != key {
        VersionFromPut(cfg, run, steps, j - 1, n, v - 1, key);
      }
    }
  }

  /** What a remote read returns was set by the peer under that key, at an earlier step. */
  lemma ReadWasPut(cfg: Config, run: seq<State>, steps: seq<Step>, j: nat, l: Link, id: Id) returns (i: nat)
    requires IsRun(cfg, run, steps) && j < |run| && l in cfg.links
    requires l in run[j].ends && id in run[j].ends[l].reqs && Done(run[j].ends[l].reqs[id].phase)
    ensures run[j].ends[l].reqs[id].value.Some?
    ensures i < j && steps[i] == Put(l.peer, run[j].ends[l].reqs[id].key, run[j].ends[l].reqs[id].value.value)
  {
    RunHasInv(cfg, run, steps, j);
    assert LinkInv(cfg, run[j], l);
    var r := run[j].ends[l].reqs[id];
    assert Held(run[j].history[l.peer], r.stamp, r.key, r.value);
    VersionFromPut(cfg, run, steps, j, l.peer, r.stamp, r.key);
    i :| 0 <= i < j && i < |steps| && steps[i] == Put(l.peer, r.key, r.value.value);
  }

  /** A node sets only keys that it owns. */
  lemma PutByOwner(cfg: Config, run: seq<State>, steps: seq<Step>, i: nat)
    requires IsRun(cfg, run, steps) && i < |steps| && steps[i].Put?
    ensures steps[i].name in cfg.owner && cfg.owner[steps[i].name] == steps[i].node
  {
    assert Follows(cfg, run, steps, i);
  }
}
