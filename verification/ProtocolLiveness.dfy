/** Every request can be answered: from every reachable state of every run there is a continuation
    in which a request that has been made returns. */
module ProtocolLiveness {
  import opened Bytes
  import opened Wrappers
  import opened Protocol
  import opened EndpointInvariant
  import opened ProtocolInvariant
  import opened NetworkInvariant
  import opened ProtocolTheorems

  // ---- how far a request is from its return ----

  /** Requesters that hold the queue mutex, or are on their way into wait, may hold up a worker. */
  ghost function Queueing(e: Endpoint): set<Id> {
    set id | id in e.reqs && e.reqs[id].phase.Queueing?
  }

  ghost function Pausing(e: Endpoint): set<Id> {
    set id | id in e.reqs && e.reqs[id].phase.Queued?
  }

  ghost function Busy(e: Endpoint): nat {
    2 * |Queueing(e)| + |Pausing(e)|
  }

  /** Steps of a worker until it receives, apart from those for each queued request and each key. */
  function ToReceive(w: WorkerState): nat {
    match w
    case Receiving => 0
    case Draining | Replying(_) => 1
    case TakingQueue | Looking(_, _) => 2
    case Sending(_, _) | Announcing(_) => 3
    case Filed(_, _) | Listing => 4
    case Filing(_, _) | Learning(_) | Leaving => 5
    case TakingWaiting(_, _) | Releasing(_) => 6
    case KeyRead(_) | Comparing(_, _) => 7
    case Popped(_) | Scanning(_, _) => 8
    case Matching(_) => 9
  }

  /** Steps of a worker that receives nothing until it looks at its queue. */
  function ToDrain(w: WorkerState): nat {
    match w
    case Draining => 0
    case TakingQueue => 1
    case Announcing(_) | Sending(_, _) => 2
    case Listing | Filed(_, _) => 3
    case Receiving | Learning(_) | Leaving | Filing(_, _) => 4
    case Replying(_) | Releasing(_) | TakingWaiting(_, _) => 5
    case Looking(_, _) | Comparing(_, _) | KeyRead(_) => 6
    case Scanning(_, _) | Popped(_) => 7
    case Matching(_) => 8
  }

  function KeysLeft(w: WorkerState): nat {
    if w.Learning? then |w.keys| else 0
  }

  function PhaseRank(p: Phase): nat {
    match p
    case Created => 5
    case Queueing => 4
    case Queued | Blocked => 3
    case Woken => 2
    case Reading => 1
    case Returned => 0
  }

  /** Where an unanswered request is, the last place first: being matched, on the wire back, being
      answered, on the wire out, in the worker's hand, in the queue. */
  ghost function Stage(e: Endpoint, p: Endpoint, out: seq<Packet>, back: seq<Packet>, id: Id): (n: nat)
    ensures 1 <= n <= 6
  {
    if id in Unmatched(e.worker) then 1
    else if id in Answered(back) then 2
    else if id in UnderAnswer(p.worker) then 3
    else if id in Asked(out) then 4
    else if id in Unsent(e.worker) || id in InHand(e.worker) then 5
    else 6
  }

  function AskedAt(wire: seq<Packet>, id: Id): nat {
    if wire == [] || AskedTag(wire[0]) == [id] then 0 else 1 + AskedAt(wire[1..], id)
  }

  function AnsweredAt(wire: seq<Packet>, id: Id): nat {
    if wire == [] || AnsweredTag(wire[0]) == [id] then 0 else 1 + AnsweredAt(wire[1..], id)
  }

  function IndexIn(ids: seq<Id>, id: Id): nat {
    if ids == [] || ids[0] == id then 0 else 1 + IndexIn(ids[1..], id)
  }

  /** Compared in this order. */
  datatype Distance = Distance(rank: nat, stage: nat, busy: nat, ahead: nat, queued: nat, moves: nat, keys: nat)

  predicate Nearer(a: Distance, b: Distance) {
    || a.rank < b.rank
    || (a.rank == b.rank &&
        (|| a.stage < b.stage
         || (a.stage == b.stage &&
             (|| a.busy < b.busy
              || (a.busy == b.busy &&
                  (|| a.ahead < b.ahead
                   || (a.ahead == b.ahead && Sooner(a.queued, a.moves, a.keys, b.queued, b.moves, b.keys))))))))
  }

  predicate Sooner(queued: nat, moves: nat, keys: nat, queued': nat, moves': nat, keys': nat) {
    queued < queued' || (queued == queued' && (moves < moves' || (moves == moves' && keys < keys')))
  }

  ghost function Far(e: Endpoint, p: Endpoint, out: seq<Packet>, back: seq<Packet>, id: Id): Distance
    requires id in e.reqs
  {
    var rank, busy := PhaseRank(e.reqs[id].phase), Busy(e) + Busy(p);
    if rank != 3 then Distance(rank, 0, busy, 0, |e.queue|, ToReceive(e.worker), KeysLeft(e.worker))
    else
      match Stage(e, p, out, back, id)
      case 1 => Distance(rank, 1, busy, 0, |e.queue|, ToReceive(e.worker), KeysLeft(e.worker))
      case 2 => Distance(rank, 2, busy, AnsweredAt(back, id), |e.queue|, ToReceive(e.worker), KeysLeft(e.worker))
      case 3 => Distance(rank, 3, busy, 0, |p.queue|, ToReceive(p.worker), KeysLeft(p.worker))
      case 4 => Distance(rank, 4, busy, AskedAt(out, id), |p.queue|, ToReceive(p.worker), KeysLeft(p.worker))
      case 5 => Distance(rank, 5, busy, 0, |e.queue|, ToReceive(e.worker), KeysLeft(e.worker))
      case _ => Distance(rank, 6, busy, IndexIn(e.queue, id), 0, ToDrain(e.worker), KeysLeft(e.worker))
  }

  // ---- a requester makes way ----

  /** The requester pushes, or goes into wait: it lets go of what a worker may be waiting for. */
  predicate MakesWay(e: Endpoint, q: Id, a: Action) {
    RequesterEnabled(e, q, a) && (a.Push? || a.Wait?)
  }

  lemma LessBusy(e: Endpoint, q: Id, a: Action, now: nat)
    requires MakesWay(e, q, a)
    ensures Busy(RequesterApply(e, q, a, now)) < Busy(e)
  {
    var f := RequesterApply(e, q, a, now);
    if a.Push? {
      assert Queueing(f) == Queueing(e) - {q} && Pausing(f) == Pausing(e) + {q};
    } else {
      assert Queueing(f) == Queueing(e) && Pausing(f) == Pausing(e) - {q};
    }
  }

  lemma RequesterNears(
    e: Endpoint, p: Endpoint, out: seq<Packet>, back: seq<Packet>, id: Id, q: Id, a: Action, now: nat)
    requires id in e.reqs && MakesWay(e, q, a)
    ensures var f := RequesterApply(e, q, a, now);
            id in f.reqs && Nearer(Far(f, p, out, back, id), Far(e, p, out, back, id))
  {
    hide Busy, AskedAt, AnsweredAt, IndexIn, Asked, Answered;
    LessBusy(e, q, a, now);
  }

  lemma PeerNears(
    e: Endpoint, p: Endpoint, out: seq<Packet>, back: seq<Packet>, id: Id, q: Id, a: Action, now: nat)
    requires id in e.reqs && MakesWay(p, q, a)
    ensures Nearer(Far(e, RequesterApply(p, q, a, now), out, back, id), Far(e, p, out, back, id))
  {
    hide Busy, AskedAt, AnsweredAt, IndexIn, Asked, Answered;
    LessBusy(p, q, a, now);
  }

  // ---- a worker moves ----

  lemma WorkerAsBusy(e: Endpoint, i: Input)
    requires WorkerEnabled(e, i)
    ensures Busy(WorkerApply(e, i)) == Busy(e)
  {
    var f := WorkerApply(e, i);
    assert Queueing(f) == Queueing(e) && Pausing(f) == Pausing(e);
  }

  /** Unless it receives, a worker comes nearer to receiving. */
  lemma WorkerSooner(e: Endpoint, i: Input)
    requires WorkerEnabled(e, i) && HeadMatches(e) && Answering(e) && !e.worker.Receiving?
    ensures var f := WorkerApply(e, i);
            Sooner(|f.queue|, ToReceive(f.worker), KeysLeft(f.worker),
                   |e.queue|, ToReceive(e.worker), KeysLeft(e.worker))
  {
  }

  /** A worker that receives nothing comes nearer to its queue. */
  lemma WorkerDrains(e: Endpoint, i: Input)
    requires WorkerEnabled(e, i) && HeadMatches(e) && Answering(e) && i.packet.None? && !e.worker.Draining?
    ensures var f := WorkerApply(e, i);
            && f.queue == e.queue
            && (|| ToDrain(f.worker) < ToDrain(e.worker)
                || (ToDrain(f.worker) == ToDrain(e.worker) && KeysLeft(f.worker) < KeysLeft(e.worker)))
  {
  }

  /** What this end's invariant says about where its requests are. */
  ghost predicate Orderly(e: Endpoint, p: Endpoint, out: seq<Packet>, back: seq<Packet>) {
    EndInv(e) && HeadMatches(e) && e.waiting == RoundTrips(e.worker, back, p.worker, out)
  }

  /** A worker answers the request it is comparing, and changes no other request's phase. */
  lemma WorkerKeepsPhase(e: Endpoint, i: Input, id: Id)
    requires EndInv(e) && HeadMatches(e) && WorkerEnabled(e, i) && id in e.reqs
    ensures id in WorkerApply(e, i).reqs
    ensures var phase, phase' := e.reqs[id].phase, WorkerApply(e, i).reqs[id].phase;
            if e.worker.Comparing? && id == e.worker.answer.tag then phase.Blocked? && phase'.Woken?
            else phase' == phase
  {
    if e.worker.Comparing? {
      assert Tracked(e)[0] == e.waiting[0];
    }
  }

  lemma Unanswereds(e: Endpoint, p: Endpoint, out: seq<Packet>, back: seq<Packet>, id: Id)
    requires Orderly(e, p, out, back) && id in e.reqs && PhaseRank(e.reqs[id].phase) == 3
    ensures Stage(e, p, out, back, id) == 6 ==> id in e.queue
    ensures Stage(e, p, out, back, id) == 1 ==> e.waiting != [] && e.waiting[0] == id && e.reqs[id].phase.Blocked?
  {
    assert id in Tracked(e);
    if Stage(e, p, out, back, id) == 1 {
      assert Tracked(e)[0] == e.waiting[0];
    }
  }

  /** Stage 6: the worker receives nothing and takes the queue from the front. */
  lemma QueuedNears(e: Endpoint, p: Endpoint, out: seq<Packet>, back: seq<Packet>, id: Id, i: Input)
    requires Orderly(e, p, out, back) && WorkerEnabled(e, i) && i.packet.None? && id in e.reqs
    requires PhaseRank(e.reqs[id].phase) == 3 && Stage(e, p, out, back, id) == 6
    ensures var f := WorkerApply(e, i);
            id in f.reqs && Nearer(Far(f, p, out + Sent(e.worker), back, id), Far(e, p, out, back, id))
  {
    hide EndInv, HeadMatches, Busy, Asked, Answered, AskedAt, AnsweredAt, RoundTrips;
    var f := WorkerApply(e, i);
    WorkerKeepsPhase(e, i, id);
    WorkerAsBusy(e, i);
    Unanswereds(e, p, out, back, id);
    if e.worker.Draining? {
      assert e.queue[0] != id ==> IndexIn(e.queue, id) == 1 + IndexIn(f.queue, id);
    } else {
      hide IndexIn, WorkerApply;
      AnsweringHolds(e);
      WorkerDrains(e, i);
    }
  }

  lemma AnsweringHolds(e: Endpoint)
    requires EndInv(e)
    ensures Answering(e)
  {
  }

  lemma HandMoves(e: Endpoint, i: Input, id: Id)
    requires WorkerEnabled(e, i) && (id in Unsent(e.worker) || id in InHand(e.worker))
    ensures var f := WorkerApply(e, i);
            && f.queue == e.queue && ToReceive(f.worker) < ToReceive(e.worker)
            && (if e.worker.Sending? then Sent(e.worker) == [ValueRequest(e.worker.key, id)]
                else Sent(e.worker) == [] && (id in Unsent(f.worker) || id in InHand(f.worker)))
  {
  }

  /** Stage 5: the worker files the request and sends its packet. */
  lemma InHandNears(e: Endpoint, p: Endpoint, out: seq<Packet>, back: seq<Packet>, id: Id, i: Input)
    requires Orderly(e, p, out, back) && WorkerEnabled(e, i) && id in e.reqs
    requires PhaseRank(e.reqs[id].phase) == 3 && Stage(e, p, out, back, id) == 5
    ensures var f := WorkerApply(e, i);
            id in f.reqs && Nearer(Far(f, p, out + Sent(e.worker), back, id), Far(e, p, out, back, id))
  {
    hide EndInv, HeadMatches, Busy, Answered, AskedAt, AnsweredAt, IndexIn, RoundTrips;
    hide WorkerApply, WorkerEnabled, Sent;
    WorkerKeepsPhase(e, i, id);
    WorkerAsBusy(e, i);
    HandMoves(e, i, id);
    if e.worker.Sending? {
      AskedSnoc(out, ValueRequest(e.worker.key, id));
    } else {
      assert out + [] == out;
    }
  }

  /** Stage 2: the worker reads its wire, and comes to the response. */
  lemma AnsweredNears(e: Endpoint, p: Endpoint, out: seq<Packet>, back: seq<Packet>, id: Id, i: Input)
    requires Orderly(e, p, out, back) && WorkerEnabled(e, i) && i.packet == PacketFor(true, back) && id in e.reqs
    requires PhaseRank(e.reqs[id].phase) == 3 && Stage(e, p, out, back, id) == 2
    ensures var f := WorkerApply(e, i);
            && id in f.reqs
            && Nearer(Far(f, p, out + Sent(e.worker), Rest(e.worker, true, back), id), Far(e, p, out, back, id))
  {
    hide EndInv, HeadMatches, Busy, Asked, AskedAt, IndexIn, RoundTrips;
    WorkerKeepsPhase(e, i, id);
    WorkerAsBusy(e, i);
    if !e.worker.Receiving? {
      hide WorkerApply, Answered, AnsweredAt;
      AnsweringHolds(e);
      WorkerSooner(e, i);
    }
  }

  /** Stage 1: the worker matches the response with the request. */
  lemma MatchingNears(e: Endpoint, p: Endpoint, out: seq<Packet>, back: seq<Packet>, id: Id, i: Input)
    requires Orderly(e, p, out, back) && WorkerEnabled(e, i) && id in e.reqs
    requires PhaseRank(e.reqs[id].phase) == 3 && Stage(e, p, out, back, id) == 1
    ensures var f := WorkerApply(e, i);
            id in f.reqs && Nearer(Far(f, p, out + Sent(e.worker), back, id), Far(e, p, out, back, id))
  {
    hide EndInv, Busy, Asked, Answered, AskedAt, AnsweredAt, IndexIn, RoundTrips;
    WorkerKeepsPhase(e, i, id);
    WorkerAsBusy(e, i);
    Unanswereds(e, p, out, back, id);
    AnsweringHolds(e);
  }

  /** The worker holds a mutex that the request's owner wants. */
  lemma HolderNears(e: Endpoint, p: Endpoint, out: seq<Packet>, back: seq<Packet>, id: Id, i: Input)
    requires Orderly(e, p, out, back) && WorkerEnabled(e, i) && id in e.reqs && !e.worker.Receiving?
    requires e.reqs[id].phase.Created? || e.reqs[id].phase.Woken?
    ensures var f := WorkerApply(e, i);
            id in f.reqs && Nearer(Far(f, p, out + Sent(e.worker), back, id), Far(e, p, out, back, id))
  {
    hide EndInv, HeadMatches, Busy, Asked, Answered, AskedAt, AnsweredAt, IndexIn, RoundTrips, WorkerApply, Stage;
    WorkerKeepsPhase(e, i, id);
    WorkerAsBusy(e, i);
    AnsweringHolds(e);
    WorkerSooner(e, i);
  }

  /** Stage 4: the peer's worker reads its wire, and comes to the request. */
  lemma AskedNears(e: Endpoint, p: Endpoint, out: seq<Packet>, back: seq<Packet>, id: Id, i: Input)
    requires EndInv(p) && HeadMatches(p) && WorkerEnabled(p, i) && i.packet == PacketFor(true, out) && id in e.reqs
    requires PhaseRank(e.reqs[id].phase) == 3 && Stage(e, p, out, back, id) == 4
    ensures Nearer(Far(e, WorkerApply(p, i), Rest(p.worker, true, out), back + Sent(p.worker), id),
                   Far(e, p, out, back, id))
  {
    hide EndInv, HeadMatches, Busy, Answered, AnsweredAt, IndexIn;
    WorkerAsBusy(p, i);
    if !p.worker.Receiving? {
      hide WorkerApply, Asked, AskedAt;
      AnsweringHolds(p);
      WorkerSooner(p, i);
    }
  }

  /** Stage 3: the peer's worker answers the request. */
  lemma UnderAnswerNears(e: Endpoint, p: Endpoint, out: seq<Packet>, back: seq<Packet>, id: Id, i: Input)
    requires WorkerEnabled(p, i) && id in e.reqs
    requires PhaseRank(e.reqs[id].phase) == 3 && Stage(e, p, out, back, id) == 3
    ensures Nearer(Far(e, WorkerApply(p, i), out, back + Sent(p.worker), id), Far(e, p, out, back, id))
  {
    hide Busy, Asked, AskedAt, AnsweredAt, IndexIn;
    WorkerAsBusy(p, i);
    if p.worker.Replying? {
      AnsweredSnoc(back, ValueResponse(p.worker.answer));
    }
  }

  // ---- the next step ----

  ghost function DistanceOf(cfg: Config, s: State, l: Link, id: Id): Distance
    requires Shape(cfg, s) && l in cfg.links && id in s.ends[l].reqs
  {
    Far(s.ends[l], s.ends[Reverse(l)], s.wires[l], s.wires[Reverse(l)], id)
  }

  /** The step neither sets a key nor starts a request. */
  predicate Continues(a: Step) {
    !a.Put? && (a.Call? ==> !a.action.Ask?)
  }

  /** The step brings the request nearer to its return. */
  ghost predicate Advances(cfg: Config, s: State, l: Link, id: Id, a: Step)
    requires Shape(cfg, s) && l in cfg.links && id in s.ends[l].reqs
  {
    && Enabled(cfg, s, a) && Continues(a)
    && var t := Apply(cfg, s, a);
       id in t.ends[l].reqs && Nearer(DistanceOf(cfg, t, l, id), DistanceOf(cfg, s, l, id))
  }

  /** A worker can move, or a requester of its connection can make way for it. */
  lemma WorkerOrWay(cfg: Config, s: State, x: Link, hasData: bool) returns (a: Step)
    requires Inv(cfg, s) && x in cfg.links && (hasData ==> s.wires[Reverse(x)] != [])
    ensures Enabled(cfg, s, a) && Continues(a)
    ensures || (a.Work? && a.link == x && a.hasData == hasData)
            || (a.Call? && a.link == x && MakesWay(s.ends[x], a.id, a.action))
  {
    assert LinkInv(cfg, s, x);
    hide LinkInv, NodeInv;
    if Wanted(s, WorkerOf(x)).None? {
      var order := OrderOf(Local(s, x.me).Keys);
      WorkerRunsWith(cfg, s, x, hasData, order);
      a := Work(x, hasData, order);
    } else {
      WorkerWaitsForRequester(cfg, s, x);
      var q := Wanted(s, WorkerOf(x)).value.id;
      a := Call(x, q, if s.ends[x].reqs[q].phase.Queueing? then Push else Wait);
    }
  }

  lemma WorkEffect(cfg: Config, s: State, x: Link, hasData: bool, order: seq<Str>)
    requires Shape(cfg, s) && Enabled(cfg, s, Work(x, hasData, order))
    ensures var t, i := Apply(cfg, s, Work(x, hasData, order)), InputOf(s, x, hasData, order);
            && i.packet == PacketFor(hasData, s.wires[Reverse(x)])
            && WorkerEnabled(s.ends[x], i)
            && t.ends[x] == WorkerApply(s.ends[x], i) && t.ends[Reverse(x)] == s.ends[Reverse(x)]
            && t.wires[x] == s.wires[x] + Sent(s.ends[x].worker)
            && t.wires[Reverse(x)] == Rest(s.ends[x].worker, hasData, s.wires[Reverse(x)])
  {
    hide WorkerApply, WorkerEnabled, Others;
    assert x != Reverse(x);
  }

  lemma CallEffect(cfg: Config, s: State, x: Link, q: Id, action: Action)
    requires Shape(cfg, s) && Enabled(cfg, s, Call(x, q, action))
    ensures var t := Apply(cfg, s, Call(x, q, action));
            && RequesterEnabled(s.ends[x], q, action)
            && t.ends[x] == RequesterApply(s.ends[x], q, action, |s.history[x.peer]| - 1)
            && t.ends[Reverse(x)] == s.ends[Reverse(x)] && t.wires == s.wires
  {
    hide RequesterApply, RequesterEnabled;
    assert x != Reverse(x);
  }

  /** The owner's own steps. */
  lemma OwnerAdvances(cfg: Config, s: State, l: Link, id: Id, action: Action)
    requires Shape(cfg, s) && l in cfg.links && id in s.ends[l].reqs
    requires RequesterEnabled(s.ends[l], id, action) && !action.Ask? && !action.Wait?
    ensures Advances(cfg, s, l, id, Call(l, id, action))
  {
    hide Stage, Busy, AskedAt, AnsweredAt, IndexIn, KnownRemote, InputOf;
    CallEffect(cfg, s, l, id, action);
  }

  /** Another requester of either end makes way. */
  lemma WayAdvances(cfg: Config, s: State, l: Link, id: Id, x: Link, q: Id, action: Action)
    requires Shape(cfg, s) && l in cfg.links && id in s.ends[l].reqs && (x == l || x == Reverse(l))
    requires Enabled(cfg, s, Call(x, q, action)) && MakesWay(s.ends[x], q, action)
    ensures Advances(cfg, s, l, id, Call(x, q, action))
  {
    hide Far, Nearer, RequesterApply;
    CallEffect(cfg, s, x, q, action);
    var now := |s.history[x.peer]| - 1;
    var e, p, out, back := s.ends[l], s.ends[Reverse(l)], s.wires[l], s.wires[Reverse(l)];
    if x == l {
      RequesterNears(e, p, out, back, id, q, action, now);
    } else {
      assert Reverse(x) == l;
      PeerNears(e, p, out, back, id, q, action, now);
    }
  }

  /** This end's worker has to read its wire. */
  ghost predicate ReadsMine(e: Endpoint, p: Endpoint, out: seq<Packet>, back: seq<Packet>, id: Id)
    requires id in e.reqs
  {
    PhaseRank(e.reqs[id].phase) == 3 && Stage(e, p, out, back, id) == 2
  }

  /** The request waits for a move of this end's worker. */
  ghost predicate UpToMine(e: Endpoint, p: Endpoint, out: seq<Packet>, back: seq<Packet>, id: Id)
    requires id in e.reqs
  {
    match PhaseRank(e.reqs[id].phase)
    case 3 => Stage(e, p, out, back, id) in {1, 2, 5, 6}
    case 5 => e.queueMutex == Some(Worker)
    case 2 => e.reqs[id].mutex == Some(Worker)
    case _ => false
  }

  lemma HolderIsBusy(e: Endpoint, id: Id)
    requires EndInv(e) && id in e.reqs
    ensures e.queueMutex == Some(Worker) ==> !e.worker.Receiving?
    ensures e.reqs[id].mutex == Some(Worker) ==> !e.worker.Receiving?
    ensures e.reqs[id].phase.Woken? ==> e.reqs[id].mutex == None || e.reqs[id].mutex == Some(Worker)
    ensures e.queueMutex.Some? && e.queueMutex.value.Requester? ==>
              e.queueMutex.value.id in e.reqs && e.reqs[e.queueMutex.value.id].phase.Queueing?
  {
    assert RequestLock(e, id);
  }

  lemma MineNears(e: Endpoint, p: Endpoint, out: seq<Packet>, back: seq<Packet>, id: Id, i: Input, hasData: bool)
    requires Orderly(e, p, out, back) && WorkerEnabled(e, i) && i.packet == PacketFor(hasData, back)
    requires id in e.reqs && UpToMine(e, p, out, back, id) && (hasData <==> ReadsMine(e, p, out, back, id))
    ensures var f := WorkerApply(e, i);
            && id in f.reqs
            && Nearer(Far(f, p, out + Sent(e.worker), Rest(e.worker, hasData, back), id), Far(e, p, out, back, id))
  {
    hide EndInv, HeadMatches, Far, Nearer, Stage, WorkerApply, WorkerEnabled, RoundTrips;
    HolderIsBusy(e, id);
    if PhaseRank(e.reqs[id].phase) == 3 {
      var stage := Stage(e, p, out, back, id);
      if stage == 1 {
        MatchingNears(e, p, out, back, id, i);
      } else if stage == 2 {
        AnsweredNears(e, p, out, back, id, i);
      } else if stage == 5 {
        InHandNears(e, p, out, back, id, i);
      } else {
        QueuedNears(e, p, out, back, id, i);
      }
    } else {
      HolderNears(e, p, out, back, id, i);
    }
  }

  lemma OrderlyLink(cfg: Config, s: State, l: Link)
    requires Inv(cfg, s) && l in cfg.links
    ensures Orderly(s.ends[l], s.ends[Reverse(l)], s.wires[l], s.wires[Reverse(l)])
  {
    assert LinkInv(cfg, s, l);
    ResponseMatchesHead(s.ends[l], s.ends[Reverse(l)], s.wires[Reverse(l)], s.wires[l],
                        s.history[l.me], s.history[l.peer]);
  }

  lemma OnWire(wire: seq<Packet>, id: Id)
    ensures id in Asked(wire) || id in Answered(wire) ==> wire != []
  {
  }

  /** This end's worker advances the request, or a requester makes way for it. */
  lemma MineAdvances(cfg: Config, s: State, l: Link, id: Id) returns (a: Step)
    requires Inv(cfg, s) && l in cfg.links && id in s.ends[l].reqs
    requires UpToMine(s.ends[l], s.ends[Reverse(l)], s.wires[l], s.wires[Reverse(l)], id)
    ensures Advances(cfg, s, l, id, a)
  {
    hide Orderly, Far, Nearer, UpToMine, WorkerApply, WorkerEnabled, LinkInv, NodeInv, RequesterApply, RequesterEnabled;
    var e, p, out, back := s.ends[l], s.ends[Reverse(l)], s.wires[l], s.wires[Reverse(l)];
    OrderlyLink(cfg, s, l);
    OnWire(back, id);
    var hasData := ReadsMine(e, p, out, back, id);
    a := WorkerOrWay(cfg, s, l, hasData);
    if a.Work? {
      WorkEffect(cfg, s, l, hasData, a.order);
      MineNears(e, p, out, back, id, InputOf(s, l, hasData, a.order), hasData);
    } else {
      WayAdvances(cfg, s, l, id, l, a.id, a.action);
    }
  }

  /** So does the worker at the other end. */
  lemma TheirsAdvances(cfg: Config, s: State, l: Link, id: Id) returns (a: Step)
    requires Inv(cfg, s) && l in cfg.links && id in s.ends[l].reqs && PhaseRank(s.ends[l].reqs[id].phase) == 3
    requires Stage(s.ends[l], s.ends[Reverse(l)], s.wires[l], s.wires[Reverse(l)], id) in {3, 4}
    ensures Advances(cfg, s, l, id, a)
  {
    hide Far, Nearer, Stage, EndInv, WorkerApply, WorkerEnabled, LinkInv, NodeInv, RequesterApply, RequesterEnabled;
    var r := Reverse(l);
    var e, p, out, back := s.ends[l], s.ends[r], s.wires[l], s.wires[r];
    assert Reverse(r) == l;
    OrderlyLink(cfg, s, r);
    StageOnWire(e, p, out, back, id);
    var hasData := Stage(e, p, out, back, id) == 4;
    a := WorkerOrWay(cfg, s, r, hasData);
    if a.Work? {
      WorkEffect(cfg, s, r, hasData, a.order);
      if hasData {
        AskedNears(e, p, out, back, id, InputOf(s, r, hasData, a.order));
      } else {
        UnderAnswerNears(e, p, out, back, id, InputOf(s, r, hasData, a.order));
      }
    } else {
      WayAdvances(cfg, s, l, id, r, a.id, a.action);
    }
  }

  lemma StageOnWire(e: Endpoint, p: Endpoint, out: seq<Packet>, back: seq<Packet>, id: Id)
    ensures Stage(e, p, out, back, id) == 2 ==> back != []
    ensures Stage(e, p, out, back, id) == 4 ==> out != []
  {
    OnWire(back, id);
    OnWire(out, id);
  }

  /** A request that has not returned can always be advanced. */
  lemma NextStep(cfg: Config, s: State, l: Link, id: Id) returns (a: Step)
    requires Inv(cfg, s) && l in cfg.links && id in s.ends[l].reqs && !s.ends[l].reqs[id].phase.Returned?
    ensures Advances(cfg, s, l, id, a)
  {
    hide Far, Nearer, LinkInv, NodeInv, EndInv, Advances, Stage, RequesterApply, WorkerApply, WorkerEnabled;
    OrderlyLink(cfg, s, l);
    var e := s.ends[l];
    HolderIsBusy(e, id);
    match e.reqs[id].phase
    case Created =>
      if e.queueMutex == Some(Worker) {
        a := MineAdvances(cfg, s, l, id);
      } else if e.queueMutex.Some? {
        a := Call(l, e.queueMutex.value.id, Push);
        WayAdvances(cfg, s, l, id, l, e.queueMutex.value.id, Push);
      } else {
        a := Call(l, id, LockQueue);
        OwnerAdvances(cfg, s, l, id, LockQueue);
      }
    case Queueing =>
      a := Call(l, id, Push);
      OwnerAdvances(cfg, s, l, id, Push);
    case Queued | Blocked =>
      if Stage(e, s.ends[Reverse(l)], s.wires[l], s.wires[Reverse(l)], id) in {3, 4} {
        a := TheirsAdvances(cfg, s, l, id);
      } else {
        a := MineAdvances(cfg, s, l, id);
      }
    case Woken =>
      if e.reqs[id].mutex == None {
        a := Call(l, id, Relock);
        OwnerAdvances(cfg, s, l, id, Relock);
      } else {
        a := MineAdvances(cfg, s, l, id);
      }
    case Reading =>
      a := Call(l, id, Return);
      OwnerAdvances(cfg, s, l, id, Return);
  }

  // ---- the continuation ----

  ghost function Last(run: seq<State>): State
    requires run != []
  {
    run[|run| - 1]
  }

  lemma ExtendRun(cfg: Config, run: seq<State>, steps: seq<Step>, a: Step)
    requires IsRun(cfg, run, steps) && Shape(cfg, Last(run)) && Enabled(cfg, Last(run), a)
    ensures IsRun(cfg, run + [Apply(cfg, Last(run), a)], steps + [a])
  {
    hide Init, Apply, Enabled;
    var run', steps' := run + [Apply(cfg, Last(run), a)], steps + [a];
    forall i | 0 <= i < |steps'| ensures Follows(cfg, run', steps', i) {
      if i < |steps| {
        assert Follows(cfg, run, steps, i);
      }
    }
  }

  /** One step that brings the request nearer, appended to the run. */
  lemma OneMoreStep(cfg: Config, run: seq<State>, steps: seq<Step>, l: Link, id: Id) returns (t: State, a: Step)
    requires IsRun(cfg, run, steps) && Shape(cfg, Last(run)) && l in cfg.links
    requires id in Last(run).ends[l].reqs && !Last(run).ends[l].reqs[id].phase.Returned?
    ensures IsRun(cfg, run + [t], steps + [a]) && Continues(a) && Shape(cfg, t) && id in t.ends[l].reqs
    ensures Nearer(DistanceOf(cfg, t, l, id), DistanceOf(cfg, Last(run), l, id))
  {
    hide IsRun, Apply, Enabled, Continues, DistanceOf, Nearer, LinkInv, NodeInv, GoodConfig;
    RunLengths(cfg, run, steps);
    RunHasInv(cfg, run, steps, |run| - 1);
    a := NextStep(cfg, Last(run), l, id);
    t := Apply(cfg, Last(run), a);
    ExtendRun(cfg, run, steps, a);
  }

  lemma ReturnFrom(cfg: Config, run: seq<State>, steps: seq<Step>, l: Link, id: Id, d: Distance)
    returns (run': seq<State>, steps': seq<Step>)
    requires IsRun(cfg, run, steps) && l in cfg.links && Shape(cfg, Last(run)) && id in Last(run).ends[l].reqs
    requires d == DistanceOf(cfg, Last(run), l, id)
    ensures IsRun(cfg, run', steps') && run <= run' && steps <= steps'
    ensures forall i | |steps| <= i < |steps'| :: Continues(steps'[i])
    ensures l in Last(run').ends && id in Last(run').ends[l].reqs && Last(run').ends[l].reqs[id].phase.Returned?
    decreases d.rank, d.stage, d.busy, d.ahead, d.queued, d.moves, d.keys
  {
    hide IsRun, Continues, DistanceOf, GoodConfig;
    RunLengths(cfg, run, steps);
    if Last(run).ends[l].reqs[id].phase.Returned? {
      run', steps' := run, steps;
    } else {
      var t, a := OneMoreStep(cfg, run, steps, l, id);
      assert Last(run + [t]) == t;
      run', steps' := ReturnFrom(cfg, run + [t], steps + [a], l, id, DistanceOf(cfg, t, l, id));
      PrefixOf(run, [t], run');
      PrefixOf(steps, [a], steps');
    }
  }

  lemma PrefixOf<T>(a: seq<T>, b: seq<T>, c: seq<T>)
    requires a + b <= c
    ensures a <= c && forall i | 0 <= i < |b| :: c[|a| + i] == b[i]
  {
    assert c[..|a + b|] == a + b;
  }

  /**
    A request that has been made can always return: whatever has happened so far, some continuation
    of the run, in which no node sets a key and no requester starts a request, ends with the
    requester having its value.
   */
  lemma RequestCanReturn(cfg: Config, run: seq<State>, steps: seq<Step>, l: Link, id: Id)
    returns (run': seq<State>, steps': seq<Step>)
    requires IsRun(cfg, run, steps) && l in cfg.links && l in Last(run).ends && id in Last(run).ends[l].reqs
    ensures IsRun(cfg, run', steps') && run <= run' && steps <= steps'
    ensures forall i | |steps| <= i < |steps'| :: Continues(steps'[i])
    ensures l in Last(run').ends && id in Last(run').ends[l].reqs
    ensures Last(run').ends[l].reqs[id].phase.Returned? && Last(run').ends[l].reqs[id].value.Some?
  {
    hide IsRun, LinkInv, NodeInv;
    RunLengths(cfg, run, steps);
    RunHasInv(cfg, run, steps, |run| - 1);
    run', steps' := ReturnFrom(cfg, run, steps, l, id, DistanceOf(cfg, Last(run), l, id));
    var _ := ReadWasPut(cfg, run', steps', |run'| - 1, l, id);
  }
}
