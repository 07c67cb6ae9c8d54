/** The invariant of the whole network holds in every reachable state. */
module NetworkInvariant {
  import opened Bytes
  import opened Protocol
  import opened EndpointInvariant
  import opened ProtocolInvariant

  /** One end of a connection: its own state, the other end, the packets on the way back and
      on the way out, and the versions of the two nodes' local maps. */
  ghost predicate ConnInv(
    mine: Endpoint, theirs: Endpoint, back: seq<Packet>, out: seq<Packet>, v: seq<Store>, u: seq<Store>)
  {
    && EndInv(mine)
    && mine.waiting == RoundTrips(mine.worker, back, theirs.worker, out)
    && GoodWorker(mine.worker, mine, theirs, v, u)
    && GoodWire(out, mine, theirs, v)
    && Recorded(mine, u)
  }

  ghost predicate LinkInv(cfg: Config, s: State, l: Link)
    requires Shape(cfg, s) && l in cfg.links
  {
    ConnInv(s.ends[l], s.ends[Reverse(l)], s.wires[Reverse(l)], s.wires[l], s.history[l.me], s.history[l.peer])
  }

  /** A node's map holds only keys it owns; the keys it knows to be remote are held by the
      node it has recorded for them, over an existing connection. */
  ghost predicate NodeInv(cfg: Config, s: State, n: NodeId)
    requires Shape(cfg, s) && n in cfg.nodes
  {
    && (forall k | k in Local(s, n) :: k in cfg.owner && cfg.owner[k] == n)
    && (forall k | k in s.others[n] ::
          Link(n, s.others[n][k]) in cfg.links && k in Local(s, s.others[n][k]))
  }

  ghost predicate Inv(cfg: Config, s: State) {
    && Shape(cfg, s)
    && (forall l {:trigger LinkInv(cfg, s, l)} | l in cfg.links :: LinkInv(cfg, s, l))
    && (forall n {:trigger NodeInv(cfg, s, n)} | n in cfg.nodes :: NodeInv(cfg, s, n))
  }

  lemma InitHasInv(cfg: Config, s: State)
    requires Init(cfg, s)
    ensures Inv(cfg, s)
  {
  }

  /** The response a worker is matching belongs to the oldest waiting request. */
  lemma ResponseMatchesHead(
    mine: Endpoint, theirs: Endpoint, back: seq<Packet>, out: seq<Packet>, v: seq<Store>, u: seq<Store>)
    requires ConnInv(mine, theirs, back, out, v, u)
    ensures HeadMatches(mine)
  {
  }

  lemma SameExtends(e: Endpoint)
    ensures Extends(e, e)
  {
  }

  lemma SameGrows(v: seq<Store>)
    requires v != []
    ensures Grows(v, v)
  {
  }

  /** An end stays good while the other end and the two local maps only grow. */
  lemma ConnStays(
    mine: Endpoint, theirs: Endpoint, back: seq<Packet>, out: seq<Packet>, v: seq<Store>, u: seq<Store>,
    theirs': Endpoint, v': seq<Store>, u': seq<Store>)
    requires ConnInv(mine, theirs, back, out, v, u)
    requires theirs'.worker == theirs.worker && Extends(theirs, theirs') && Grows(v, v') && Grows(u, u')
    ensures ConnInv(mine, theirs', back, out, v', u')
  {
    SameExtends(mine);
    GoodWorkerStays(mine.worker, mine, theirs, v, u, mine, theirs', v', u');
    GoodWireStays(out, mine, theirs, v, mine, theirs', v');
    RecordedStays(mine, u, u');
  }

  lemma RequesterKeepsConn(
    mine: Endpoint, theirs: Endpoint, back: seq<Packet>, out: seq<Packet>, v: seq<Store>, u: seq<Store>,
    id: Id, a: Action)
    requires ConnInv(mine, theirs, back, out, v, u) && v != []
    requires RequesterEnabled(mine, id, a) && (a.Ask? ==> a.key in Newest(u))
    ensures ConnInv(RequesterApply(mine, id, a, |u| - 1), theirs, back, out, v, u)
  {
    var mine' := RequesterApply(mine, id, a, |u| - 1);
    ResponseMatchesHead(mine, theirs, back, out, v, u);
    RequesterKeepsEndInv(mine, id, a, |u| - 1);
    RequesterExtends(mine, id, a, |u| - 1);
    RequesterKeepsRecorded(mine, id, a, u);
    SameExtends(theirs);
    SameGrows(v);
    SameGrows(u);
    GoodWorkerStays(mine.worker, mine, theirs, v, u, mine', theirs, v, u);
    GoodWireStays(out, mine, theirs, v, mine', theirs, v);
  }

  lemma KeyReadIsPushed(e: Endpoint)
    requires EndInv(e)
    ensures e.worker.KeyRead? ==> e.worker.id in e.reqs && Pushed(e.reqs[e.worker.id].phase)
  {
    if e.worker.KeyRead? {
      assert Tracked(e)[|e.waiting|] == e.worker.id;
    }
  }

  /** The end whose worker moves. */
  lemma WorkerKeepsMine(
    mine: Endpoint, theirs: Endpoint, back: seq<Packet>, out: seq<Packet>, v: seq<Store>, u: seq<Store>,
    i: Input, hasData: bool)
    requires ConnInv(mine, theirs, back, out, v, u) && ConnInv(theirs, mine, out, back, u, v)
    requires WorkerEnabled(mine, i) && i.packet == PacketFor(hasData, back)
    requires i.version == |v| - 1 && i.local == Newest(v)
    ensures ConnInv(WorkerApply(mine, i), theirs, Rest(mine.worker, hasData, back), out + Sent(mine.worker), v, u)
  {
    var mine' := WorkerApply(mine, i);
    ResponseMatchesHead(mine, theirs, back, out, v, u);
    WorkerKeepsEndInv(mine, i);
    MyStepKeepsOrder(mine, i, hasData, back, theirs.worker, out);
    WorkerExtends(mine, i);
    WorkerKeepsRecorded(mine, i, u);
    SameExtends(theirs);
    SameGrows(v);
    SameGrows(u);
    KeyReadIsPushed(mine);
    NextWorkerIsGood(mine, theirs, i, v, u);
    GoodWorkerStays(mine'.worker, mine, theirs, v, u, mine', theirs, v, u);
    SentIsGood(mine, theirs, v, u);
    GoodWireStays(out + Sent(mine.worker), mine, theirs, v, mine', theirs, v);
  }

  /** The end at the other side of the connection. */
  lemma WorkerKeepsTheirs(
    mine: Endpoint, theirs: Endpoint, back: seq<Packet>, out: seq<Packet>, v: seq<Store>, u: seq<Store>,
    i: Input, hasData: bool)
    requires ConnInv(theirs, mine, out, back, u, v) && v != [] && u != []
    requires WorkerEnabled(mine, i) && i.packet == PacketFor(hasData, back)
    ensures ConnInv(theirs, WorkerApply(mine, i), out + Sent(mine.worker), Rest(mine.worker, hasData, back), u, v)
  {
    var mine' := WorkerApply(mine, i);
    InFlightAtPeerStep(mine, i, hasData, out, back);
    WorkerExtends(mine, i);
    SameExtends(theirs);
    SameGrows(v);
    SameGrows(u);
    GoodWorkerStays(theirs.worker, theirs, mine, u, v, theirs, mine', u, v);
    GoodWireStays(Rest(mine.worker, hasData, back), theirs, mine, u, theirs, mine', u);
  }

  // ---- one step of the network ----

  lemma PutKeepsLink(cfg: Config, s: State, n: NodeId, key: Str, value: Frames.Frame, l: Link)
    requires Shape(cfg, s) && Enabled(cfg, s, Put(n, key, value)) && l in cfg.links && LinkInv(cfg, s, l)
    ensures LinkInv(cfg, Apply(cfg, s, Put(n, key, value)), l)
  {
    hide ConnInv, Extends;
    var t := Apply(cfg, s, Put(n, key, value));
    PutGrows(s.history[n], key, value);
    SameGrows(s.history[l.me]);
    SameGrows(s.history[l.peer]);
    SameExtends(s.ends[Reverse(l)]);
    ConnStays(s.ends[l], s.ends[Reverse(l)], s.wires[Reverse(l)], s.wires[l], s.history[l.me], s.history[l.peer],
              t.ends[Reverse(l)], t.history[l.me], t.history[l.peer]);
  }

  lemma PutKeepsNode(cfg: Config, s: State, n: NodeId, key: Str, value: Frames.Frame, m: NodeId)
    requires Shape(cfg, s) && Enabled(cfg, s, Put(n, key, value)) && m in cfg.nodes && NodeInv(cfg, s, m)
    ensures NodeInv(cfg, Apply(cfg, s, Put(n, key, value)), m)
  {
  }

  lemma CallKeepsLink(cfg: Config, s: State, l: Link, id: Id, a: Action)
    requires Shape(cfg, s) && Enabled(cfg, s, Call(l, id, a)) && LinkInv(cfg, s, l) && NodeInv(cfg, s, l.me)
    ensures LinkInv(cfg, Apply(cfg, s, Call(l, id, a)), l)
  {
    hide ConnInv, RequesterApply, RequesterEnabled;
    RequesterKeepsConn(s.ends[l], s.ends[Reverse(l)], s.wires[Reverse(l)], s.wires[l],
                       s.history[l.me], s.history[l.peer], id, a);
  }

  lemma CallKeepsOther(cfg: Config, s: State, l: Link, id: Id, a: Action, x: Link)
    requires Shape(cfg, s) && Enabled(cfg, s, Call(l, id, a))
    requires x in cfg.links && x != l && LinkInv(cfg, s, x)
    ensures LinkInv(cfg, Apply(cfg, s, Call(l, id, a)), x)
  {
    hide ConnInv, RequesterEnabled, Extends, Grows, KnownRemote, Newest;
    var t := Apply(cfg, s, Call(l, id, a));
    SameGrows(s.history[x.me]);
    SameGrows(s.history[x.peer]);
    RequesterExtends(s.ends[l], id, a, |s.history[l.peer]| - 1);
    SameExtends(s.ends[Reverse(x)]);
    ConnStays(s.ends[x], s.ends[Reverse(x)], s.wires[Reverse(x)], s.wires[x], s.history[x.me], s.history[x.peer],
              t.ends[Reverse(x)], t.history[x.me], t.history[x.peer]);
  }

  lemma WorkKeepsEnds(cfg: Config, s: State, l: Link, hasData: bool, order: seq<Str>)
    requires Shape(cfg, s) && Enabled(cfg, s, Work(l, hasData, order))
    requires LinkInv(cfg, s, l) && LinkInv(cfg, s, Reverse(l))
    ensures LinkInv(cfg, Apply(cfg, s, Work(l, hasData, order)), l)
    ensures LinkInv(cfg, Apply(cfg, s, Work(l, hasData, order)), Reverse(l))
  {
    hide ConnInv, WorkerApply, WorkerEnabled, Newest;
    var mine, theirs, back, out := s.ends[l], s.ends[Reverse(l)], s.wires[Reverse(l)], s.wires[l];
    var i := InputOf(s, l, hasData, order);
    WorkerKeepsMine(mine, theirs, back, out, s.history[l.me], s.history[l.peer], i, hasData);
    WorkerKeepsTheirs(mine, theirs, back, out, s.history[l.me], s.history[l.peer], i, hasData);
  }

  lemma WorkKeepsOther(cfg: Config, s: State, l: Link, hasData: bool, order: seq<Str>, x: Link)
    requires Shape(cfg, s) && Enabled(cfg, s, Work(l, hasData, order))
    requires x in cfg.links && x != l && x != Reverse(l) && LinkInv(cfg, s, x)
    ensures LinkInv(cfg, Apply(cfg, s, Work(l, hasData, order)), x)
  {
    hide ConnInv, WorkerApply, WorkerEnabled, Others, InputOf, Newest;
    assert Reverse(x) != l && Reverse(x) != Reverse(l);
  }

  lemma WorkKeepsNode(cfg: Config, s: State, l: Link, hasData: bool, order: seq<Str>, n: NodeId)
    requires Shape(cfg, s) && Enabled(cfg, s, Work(l, hasData, order))
    requires s.ends[l].worker.Learning? ==> Known(s.history[l.peer], s.ends[l].worker.keys)
    requires n in cfg.nodes && NodeInv(cfg, s, n)
    ensures NodeInv(cfg, Apply(cfg, s, Work(l, hasData, order)), n)
  {
    hide WorkerApply, WorkerEnabled, Wires, InputOf, Reverse;
    assert Link(l.me, l.peer) == l;
  }

  // ---- all steps ----

  lemma StepKeepsLink(cfg: Config, s: State, a: Step, x: Link)
    requires Inv(cfg, s) && Enabled(cfg, s, a) && x in cfg.links
    ensures LinkInv(cfg, Apply(cfg, s, a), x)
  {
    hide ConnInv, NodeInv, Apply, WorkerApply, WorkerEnabled, RequesterApply, RequesterEnabled;
    assert LinkInv(cfg, s, x);
    match a
    case Put(n, key, value) => PutKeepsLink(cfg, s, n, key, value, x);
    case Call(l, id, action) =>
      if x == l {
        assert NodeInv(cfg, s, l.me);
        CallKeepsLink(cfg, s, l, id, action);
      } else {
        CallKeepsOther(cfg, s, l, id, action, x);
      }
    case Work(l, hasData, order) =>
      assert LinkInv(cfg, s, l) && LinkInv(cfg, s, Reverse(l));
      if x == l || x == Reverse(l) {
        WorkKeepsEnds(cfg, s, l, hasData, order);
      } else {
        WorkKeepsOther(cfg, s, l, hasData, order, x);
      }
  }

  lemma StepKeepsNode(cfg: Config, s: State, a: Step, n: NodeId)
    requires Inv(cfg, s) && Enabled(cfg, s, a) && n in cfg.nodes
    ensures NodeInv(cfg, Apply(cfg, s, a), n)
  {
    hide WorkerApply, WorkerEnabled, RequesterApply, RequesterEnabled, Wires;
    assert NodeInv(cfg, s, n);
    match a
    case Put(m, key, value) => PutKeepsNode(cfg, s, m, key, value, n);
    case Call(l, id, action) =>
    case Work(l, hasData, order) =>
      assert LinkInv(cfg, s, l);
      WorkKeepsNode(cfg, s, l, hasData, order, n);
  }

  /** Every step of every thread keeps the invariant. */
  lemma StepKeepsInv(cfg: Config, s: State, a: Step)
    requires Inv(cfg, s) && Enabled(cfg, s, a)
    ensures Inv(cfg, Apply(cfg, s, a))
  {
    hide LinkInv, NodeInv, Apply, Enabled;
    var t := Apply(cfg, s, a);
    forall l | l in cfg.links ensures LinkInv(cfg, t, l) {
      StepKeepsLink(cfg, s, a, l);
    }
    forall n | n in cfg.nodes ensures NodeInv(cfg, t, n) {
      StepKeepsNode(cfg, s, a, n);
    }
  }

  lemma RunKeepsInv(cfg: Config, run: seq<State>, steps: seq<Step>, n: nat)
    requires IsRun(cfg, run, steps) && n < |steps| && Inv(cfg, run[n])
    ensures Inv(cfg, run[n + 1])
  {
    assert Follows(cfg, run, steps, n);
    StepKeepsInv(cfg, run[n], steps[n]);
  }

  /** Every state of every run has the invariant. */
  lemma {:induction false} RunHasInv(cfg: Config, run: seq<State>, steps: seq<Step>, n: nat)
    requires IsRun(cfg, run, steps) && n < |run|
    ensures Inv(cfg, run[n])
  {
    if n == 0 {
      InitHasInv(cfg, run[0]);
    } else {
      RunHasInv(cfg, run, steps, n - 1);
      RunKeepsInv(cfg, run, steps, n - 1);
    }
  }
}
