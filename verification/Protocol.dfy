/**
  The remote-value protocol as a transition system.

  Every node runs one worker thread per connection and any number of requester threads.
  A step is one action of one thread between two points where another thread may run:
  taking or releasing a mutex, one queue or list operation, one packet sent or received.
  A run is any interleaving of such steps over any set of nodes and connections.

  `tag`, `since`, `stamp` and the versions in `history` record what happened.
  No step's guard or choice of branch looks at them.
 */
module Protocol {
  import opened Bytes
  import opened Wrappers
  import opened Frames

  type NodeId = nat
  type Id = nat
  type Store = map<Str, Frame>

  /** The end of a connection at node `me`, talking to node `peer`. */
  datatype Link = Link(me: NodeId, peer: NodeId)

  function Reverse(l: Link): Link {
    Link(l.peer, l.me)
  }

  /** The fixed part of a run: the connections, and the one node that may write each key. */
  datatype Config = Config(nodes: set<NodeId>, links: set<Link>, owner: map<Str, NodeId>)

  ghost predicate GoodConfig(cfg: Config) {
    forall l | l in cfg.links ::
      l.me in cfg.nodes && l.peer in cfg.nodes && l.me != l.peer && Reverse(l) in cfg.links
  }

  /** Who holds a mutex: the connection's worker, or the requester that created request `id`. */
  datatype Agent = Worker | Requester(id: Id)

  /** Where the requester thread is inside `Client::_get_value_helper`. */
  datatype Phase =
    | Created     // holds its own request mutex, wants the queue mutex
    | Queueing    // holds both
    | Queued      // pushed the request, released the queue mutex, not yet in wait
    | Blocked     // inside cv.wait, holds nothing
    | Woken       // notified, wants its own mutex back
    | Reading     // holds its own mutex again
    | Returned

  datatype Request = Request(
    key: Str, phase: Phase, mutex: Option<Agent>, value: Option<Frame>, since: nat, stamp: nat)

  datatype Answer = Answer(key: Str, value: Option<Frame>, tag: Id, stamp: nat)

  datatype Packet =
    | KeyList(keys: seq<Str>)
    | ValueRequest(key: Str, tag: Id)
    | ValueResponse(answer: Answer)

  /** Where the worker thread is inside `CtCConnection::run` and the functions it calls. */
  datatype WorkerState =
    | Receiving
    | Matching(answer: Answer)                 // parsed a response, wants the waiting mutex
    | Scanning(at: nat, answer: Answer)        // holds it, wants the mutex of waiting[at]
    | Comparing(at: nat, answer: Answer)       // holds both
    | Releasing(id: Id)                        // answered and notified, still holds both
    | Leaving                                  // holds the waiting mutex
    | Looking(key: Str, tag: Id)               // parsed a request, wants the local value
    | Replying(answer: Answer)
    | Learning(keys: seq<Str>)                 // keys of a key list still to be recorded
    | Listing
    | Announcing(keys: seq<Str>)
    | TakingQueue                              // wants the queue mutex
    | Draining                                 // holds it, at the loop test
    | Popped(id: Id)                           // holds it, wants the request's mutex
    | KeyRead(id: Id)                          // holds both
    | TakingWaiting(id: Id, key: Str)          // holds the queue mutex, wants the waiting mutex
    | Filing(id: Id, key: Str)                 // holds both
    | Filed(id: Id, key: Str)                  // holds the queue mutex
    | Sending(id: Id, key: Str)                // holds nothing

  /** One end of a connection: the requests made on it, its queue, its waiting list,
      the two mutexes guarding those, and its worker. */
  datatype Endpoint = Endpoint(
    reqs: map<Id, Request>, queue: seq<Id>, waiting: seq<Id>,
    queueMutex: Option<Agent>, waitingMutex: Option<Agent>, worker: WorkerState)

  /** `wires[l]` holds the packets sent by l.me and not yet received by l.peer, oldest first;
      `history[n]` the successive contents of n's local map; `others[n]` its remote keys. */
  datatype State = State(
    ends: map<Link, Endpoint>,
    wires: map<Link, seq<Packet>>,
    history: map<NodeId, seq<Store>>,
    others: map<NodeId, map<Str, NodeId>>)

  // ---- one end of a connection ----

  /** What a requester thread does next on request `id`. */
  datatype Action = Ask(key: Str) | LockQueue | Push | Wait | Relock | Return

  predicate RequesterEnabled(e: Endpoint, id: Id, a: Action) {
    if a.Ask? then id !in e.reqs
    else
      && id in e.reqs
      && var r := e.reqs[id];
         match a
         case LockQueue => r.phase.Created? && e.queueMutex.None?
         case Push => r.phase.Queueing?
         case Wait => r.phase.Queued?
         case Relock => r.phase.Woken? && r.mutex.None?
         case Return => r.phase.Reading?
  }

  /** `now` is the newest version of the peer's local map. */
  function RequesterApply(e: Endpoint, id: Id, a: Action, now: nat): Endpoint
    requires RequesterEnabled(e, id, a)
  {
    match a
    case Ask(key) => e.(reqs := e.reqs[id := Request(key, Created, Some(Requester(id)), None, now, now)])
    case LockQueue => e.(reqs := e.reqs[id := e.reqs[id].(phase := Queueing)], queueMutex := Some(Requester(id)))
    case Push =>
      e.(reqs := e.reqs[id := e.reqs[id].(phase := Queued, since := now)], queue := e.queue + [id], queueMutex := None)
    case Wait => e.(reqs := e.reqs[id := e.reqs[id].(phase := Blocked, mutex := None)])
    case Relock => e.(reqs := e.reqs[id := e.reqs[id].(phase := Reading, mutex := Some(Requester(id)))])
    case Return => e.(reqs := e.reqs[id := e.reqs[id].(phase := Returned, mutex := None)])
  }

  /** `notify_all`: it wakes the requester only if the requester is already in wait. */
  function Notified(p: Phase): Phase {
    if p.Blocked? then Woken else p
  }

  /** What the worker finds outside its endpoint: the packet it reads, if there is one,
      its node's local map and version, and the order in which it lists the local keys. */
  datatype Input = Input(packet: Option<Packet>, local: Store, version: nat, order: seq<Str>)

  predicate WorkerEnabled(e: Endpoint, i: Input) {
    match e.worker
    case Matching(_) => e.waitingMutex.None?
    case Scanning(at, _) => at < |e.waiting| ==> e.waiting[at] in e.reqs && e.reqs[e.waiting[at]].mutex.None?
    case Comparing(at, _) => at < |e.waiting| && e.waiting[at] in e.reqs
    case Releasing(id) => id in e.reqs
    case Listing => (set k | k in i.order) == i.local.Keys
    case TakingQueue => e.queueMutex.None?
    case Popped(id) => id in e.reqs && e.reqs[id].mutex.None?
    case KeyRead(id) => id in e.reqs
    case TakingWaiting(_, _) => e.waitingMutex.None?
    case _ => true
  }

  function Parsed(p: Packet): WorkerState {
    match p
    case KeyList(keys) => Learning(keys)
    case ValueRequest(key, tag) => Looking(key, tag)
    case ValueResponse(answer) => Matching(answer)
  }

  function Lookup(m: Store, key: Str): Option<Frame> {
    if key in m then Some(m[key]) else None
  }

  function Compare(e: Endpoint, at: nat, answer: Answer): Endpoint
    requires at < |e.waiting| && e.waiting[at] in e.reqs
  {
    var id := e.waiting[at];
    var r := e.reqs[id];
    if r.key == answer.key then
      e.(reqs := e.reqs[id := r.(value := answer.value, stamp := answer.stamp, phase := Notified(r.phase))],
         waiting := e.waiting[..at] + e.waiting[at + 1..], worker := Releasing(id))
    else
      e.(reqs := e.reqs[id := r.(mutex := None)], worker := Scanning(at + 1, answer))
  }

  function WorkerApply(e: Endpoint, i: Input): Endpoint
    requires WorkerEnabled(e, i)
  {
    match e.worker
    case Receiving => e.(worker := if i.packet.Some? then Parsed(i.packet.value) else Listing)
    case Matching(answer) => e.(waitingMutex := Some(Worker), worker := Scanning(0, answer))
    case Scanning(at, answer) =>
      if at < |e.waiting| then
        var id := e.waiting[at];
        e.(reqs := e.reqs[id := e.reqs[id].(mutex := Some(Worker))], worker := Comparing(at, answer))
      else
        e.(waitingMutex := None, worker := Listing)
    case Comparing(at, answer) => Compare(e, at, answer)
    case Releasing(id) => e.(reqs := e.reqs[id := e.reqs[id].(mutex := None)], worker := Leaving)
    case Leaving => e.(waitingMutex := None, worker := Listing)
    case Looking(key, tag) => e.(worker := Replying(Answer(key, Lookup(i.local, key), tag, i.version)))
    case Replying(_) => e.(worker := Receiving)
    case Learning(keys) => e.(worker := if keys == [] then Listing else Learning(keys[1..]))
    case Listing => e.(worker := Announcing(i.order))
    case Announcing(_) => e.(worker := TakingQueue)
    case TakingQueue => e.(queueMutex := Some(Worker), worker := Draining)
    case Draining =>
      if e.queue == [] then e.(queueMutex := None, worker := Receiving)
      else e.(queue := e.queue[1..], worker := Popped(e.queue[0]))
    case Popped(id) => e.(reqs := e.reqs[id := e.reqs[id].(mutex := Some(Worker))], worker := KeyRead(id))
    case KeyRead(id) =>
      e.(reqs := e.reqs[id := e.reqs[id].(mutex := None)], worker := TakingWaiting(id, e.reqs[id].key))
    case TakingWaiting(id, key) => e.(waitingMutex := Some(Worker), worker := Filing(id, key))
    case Filing(id, key) => e.(waiting := e.waiting + [id], waitingMutex := None, worker := Filed(id, key))
    case Filed(id, key) => e.(queueMutex := None, worker := Sending(id, key))
    case Sending(_, _) => e.(worker := TakingQueue)
  }

  /** The packet the worker puts on the wire in its next step. */
  function Sent(w: WorkerState): seq<Packet> {
    match w
    case Replying(answer) => [ValueResponse(answer)]
    case Announcing(keys) => [KeyList(keys)]
    case Sending(id, key) => [ValueRequest(key, id)]
    case _ => []
  }

  /** The remote keys after `add_nonlocal`: a known key gets the new node. */
  function Learned(others: map<Str, NodeId>, key: Str, node: NodeId): map<Str, NodeId> {
    others[key := node]
  }

  // ---- the whole network ----

  datatype Step =
    | Put(node: NodeId, name: Str, value: Frame)             // KVStore::set
    | Call(link: Link, id: Id, action: Action)
    | Work(link: Link, hasData: bool, order: seq<Str>)

  ghost predicate Shape(cfg: Config, s: State) {
    && GoodConfig(cfg)
    && s.ends.Keys == cfg.links
    && s.wires.Keys == cfg.links
    && s.history.Keys == cfg.nodes
    && s.others.Keys == cfg.nodes
    && forall n | n in cfg.nodes :: s.history[n] != []
  }

  function Newest(versions: seq<Store>): Store
    requires versions != []
  {
    versions[|versions| - 1]
  }

  ghost function Local(s: State, n: NodeId): Store
    requires n in s.history && s.history[n] != []
  {
    Newest(s.history[n])
  }

  /** A requester starts only for a key its node knows to be remote and does not hold itself. */
  ghost predicate KnownRemote(s: State, l: Link, key: Str)
    requires l.me in s.others && l.me in s.history && s.history[l.me] != []
  {
    key in s.others[l.me] && s.others[l.me][key] == l.peer && key !in Local(s, l.me)
  }

  ghost function InputOf(s: State, l: Link, hasData: bool, order: seq<Str>): Input
    requires l.me in s.history && s.history[l.me] != [] && Reverse(l) in s.wires
  {
    var wire := s.wires[Reverse(l)];
    Input(if hasData && wire != [] then Some(wire[0]) else None, Local(s, l.me), |s.history[l.me]| - 1, order)
  }

  ghost predicate Enabled(cfg: Config, s: State, a: Step)
    requires Shape(cfg, s)
  {
    match a
    case Put(n, key, _) => n in cfg.nodes && key in cfg.owner && cfg.owner[key] == n
    case Call(l, id, action) =>
      && l in cfg.links
      && (action.Ask? ==> KnownRemote(s, l, action.key))
      && RequesterEnabled(s.ends[l], id, action)
    case Work(l, hasData, order) =>
      && l in cfg.links
      && (hasData ==> s.wires[Reverse(l)] != [])
      && WorkerEnabled(s.ends[l], InputOf(s, l, hasData, order))
  }

  /** The wires after the worker of `l` has read its packet and sent what it had to send. */
  ghost function Wires(s: State, l: Link, hasData: bool): map<Link, seq<Packet>>
    requires l in s.ends && l in s.wires && Reverse(l) in s.wires
  {
    var w := s.ends[l].worker;
    var back := s.wires[Reverse(l)];
    var rest := if w.Receiving? && hasData && back != [] then back[1..] else back;
    s.wires[Reverse(l) := rest][l := s.wires[l] + Sent(w)]
  }

  ghost function Others(s: State, l: Link): map<NodeId, map<Str, NodeId>>
    requires l in s.ends && l.me in s.others
  {
    var w := s.ends[l].worker;
    if w.Learning? && w.keys != [] then s.others[l.me := Learned(s.others[l.me], w.keys[0], l.peer)]
    else s.others
  }

  ghost function Apply(cfg: Config, s: State, a: Step): (t: State)
    requires Shape(cfg, s) && Enabled(cfg, s, a)
    ensures Shape(cfg, t)
  {
    match a
    case Put(n, key, value) => s.(history := s.history[n := s.history[n] + [Local(s, n)[key := value]]])
    case Call(l, id, action) =>
      s.(ends := s.ends[l := RequesterApply(s.ends[l], id, action, |s.history[l.peer]| - 1)])
    case Work(l, hasData, order) =>
      State(s.ends[l := WorkerApply(s.ends[l], InputOf(s, l, hasData, order))],
            Wires(s, l, hasData), s.history, Others(s, l))
  }

  // ---- runs ----

  ghost predicate Init(cfg: Config, s: State) {
    && Shape(cfg, s)
    && (forall l | l in cfg.links :: s.ends[l] == Endpoint(map[], [], [], None, None, Receiving))
    && (forall l | l in cfg.links :: s.wires[l] == [])
    && (forall n | n in cfg.nodes :: s.history[n] == [map[]])
    && (forall n | n in cfg.nodes :: s.others[n] == map[])
  }

  /** Step `i` of the run is possible, and leads from each state to the next. */
  ghost predicate Follows(cfg: Config, run: seq<State>, steps: seq<Step>, i: nat)
    requires |run| == |steps| + 1 && i < |steps|
  {
    Shape(cfg, run[i]) && Enabled(cfg, run[i], steps[i]) && run[i + 1] == Apply(cfg, run[i], steps[i])
  }

  /** `run` starts in an initial state and each state follows from the one before by `steps[i]`. */
  ghost predicate IsRun(cfg: Config, run: seq<State>, steps: seq<Step>) {
    && |run| == |steps| + 1
    && Init(cfg, run[0])
    && forall i {:trigger Follows(cfg, run, steps, i)} | 0 <= i < |steps| :: Follows(cfg, run, steps, i)
  }
}
