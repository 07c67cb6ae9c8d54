/** What a node holds can be read by its peers: from every reachable state of every run there is a
    continuation in which a peer hears of the key, asks for it and gets the frame. */
module ProtocolAvailability {
  import opened Bytes
  import opened Frames
  import opened Wrappers
  import opened Protocol
  import opened EndpointInvariant
  import opened ProtocolInvariant
  import opened NetworkInvariant
  import opened ProtocolTheorems
  import opened ProtocolLiveness

  // ---- continuations ----

  /** `run'` goes on from `run` with steps that set no key and start no request. */
  ghost predicate GoesOn(cfg: Config, run: seq<State>, steps: seq<Step>, run': seq<State>, steps': seq<Step>) {
    && IsRun(cfg, run', steps') && run <= run' && steps <= steps'
    && forall i | |steps| <= i < |steps'| :: Continues(steps'[i])
  }

  lemma GoesOnHere(cfg: Config, run: seq<State>, steps: seq<Step>)
    requires IsRun(cfg, run, steps)
    ensures GoesOn(cfg, run, steps, run, steps)
  {
    hide IsRun;
  }

  lemma GoesOnFurther(cfg: Config, run: seq<State>, steps: seq<Step>, run1: seq<State>, steps1: seq<Step>,
                      run2: seq<State>, steps2: seq<Step>)
    requires GoesOn(cfg, run, steps, run1, steps1) && GoesOn(cfg, run1, steps1, run2, steps2)
    ensures GoesOn(cfg, run, steps, run2, steps2)
  {
    hide IsRun, Continues;
    forall i | |steps| <= i < |steps2| ensures Continues(steps2[i]) {
      if i < |steps1| {
        assert steps2[i] == steps1[i];
      }
    }
  }

  lemma OneStepOn(cfg: Config, run: seq<State>, steps: seq<Step>, a: Step) returns (t: State)
    requires IsRun(cfg, run, steps) && Shape(cfg, Last(run)) && Enabled(cfg, Last(run), a)
    ensures t == Apply(cfg, Last(run), a) && Shape(cfg, t)
    ensures IsRun(cfg, run + [t], steps + [a]) && Last(run + [t]) == t
    ensures Continues(a) ==> GoesOn(cfg, run, steps, run + [t], steps + [a])
  {
    hide IsRun, Apply, Enabled, Continues;
    RunLengths(cfg, run, steps);
    t := Apply(cfg, Last(run), a);
    ExtendRun(cfg, run, steps, a);
  }

  lemma StepKeepsVersions(cfg: Config, s: State, a: Step)
    requires Shape(cfg, s) && Enabled(cfg, s, a)
    ensures !a.Put? ==> Apply(cfg, s, a).history == s.history
  {
  }

  lemma NoPuts(cfg: Config, run: seq<State>, steps: seq<Step>, run': seq<State>, steps': seq<Step>)
    requires GoesOn(cfg, run, steps, run', steps')
    ensures forall i | |steps| <= i < |steps'| :: !steps'[i].Put?
  {
    hide IsRun;
    forall i | |steps| <= i < |steps'| ensures !steps'[i].Put? {
      assert Continues(steps'[i]);
    }
  }

  /** Nothing is set, so every map stays as it is. */
  lemma {:induction false} SameVersions(
    cfg: Config, run: seq<State>, steps: seq<Step>, run': seq<State>, steps': seq<Step>)
    requires IsRun(cfg, run, steps) && GoesOn(cfg, run, steps, run', steps')
    ensures Shape(cfg, Last(run)) && Shape(cfg, Last(run')) && Last(run').history == Last(run).history
  {
    hide IsRun, Follows, Continues, GoodConfig, Inv;
    RunLengths(cfg, run, steps);
    RunLengths(cfg, run', steps');
    NoPuts(cfg, run, steps, run', steps');
    SameVersionsAt(cfg, run', steps', |run| - 1, |run'| - 1);
    assert Last(run) == run'[|run| - 1];
  }

  lemma {:induction false} SameVersionsAt(cfg: Config, run: seq<State>, steps: seq<Step>, i: nat, j: nat)
    requires IsRun(cfg, run, steps) && i <= j < |run|
    requires forall k | i <= k < j && k < |steps| :: !steps[k].Put?
    ensures Shape(cfg, run[i]) && Shape(cfg, run[j]) && run[j].history == run[i].history
    decreases j
  {
    hide Apply, Enabled, Init, GoodConfig, LinkInv, NodeInv;
    RunHasInv(cfg, run, steps, i);
    if i < j {
      SameVersionsAt(cfg, run, steps, i, j - 1);
      assert Follows(cfg, run, steps, j - 1);
      StepKeepsVersions(cfg, run[j - 1], steps[j - 1]);
    }
  }

  // ---- a worker comes to its wire ----

  lemma StepNearsReceiving(cfg: Config, s: State, x: Link, a: Step)
    requires Inv(cfg, s) && x in cfg.links && Enabled(cfg, s, a) && !s.ends[x].worker.Receiving?
    requires || (a.Work? && a.link == x)
             || (a.Call? && a.link == x && MakesWay(s.ends[x], a.id, a.action))
    ensures var t := Apply(cfg, s, a);
            && x in t.ends && Reverse(x) in t.wires && t.wires[Reverse(x)] == s.wires[Reverse(x)]
            && var e, f := s.ends[x], t.ends[x];
               || Busy(f) < Busy(e)
               || (Busy(f) == Busy(e) && Sooner(|f.queue|, ToReceive(f.worker), KeysLeft(f.worker),
                                                |e.queue|, ToReceive(e.worker), KeysLeft(e.worker)))
  {
    hide LinkInv, NodeInv, Busy, EndInv, HeadMatches, WorkerApply, WorkerEnabled, RequesterApply, RequesterEnabled;
    hide Sooner, ToReceive, KeysLeft, RoundTrips;
    if a.Work? {
      OrderlyLink(cfg, s, x);
      AnsweringHolds(s.ends[x]);
      WorkEffect(cfg, s, x, a.hasData, a.order);
      var i := InputOf(s, x, a.hasData, a.order);
      WorkerAsBusy(s.ends[x], i);
      WorkerSooner(s.ends[x], i);
    } else {
      CallEffect(cfg, s, x, a.id, a.action);
      LessBusy(s.ends[x], a.id, a.action, |s.history[x.peer]| - 1);
    }
  }

  /** Whatever it is doing, the worker can come back to where it receives, reading nothing on the way. */
  lemma ToReceiving(cfg: Config, run: seq<State>, steps: seq<Step>, x: Link,
                    busy: nat, queued: nat, moves: nat, keys: nat)
    returns (run': seq<State>, steps': seq<Step>)
    requires IsRun(cfg, run, steps) && x in cfg.links && Shape(cfg, Last(run))
    requires var e := Last(run).ends[x];
             busy == Busy(e) && queued == |e.queue| && moves == ToReceive(e.worker) && keys == KeysLeft(e.worker)
    ensures GoesOn(cfg, run, steps, run', steps') && Shape(cfg, Last(run'))
    ensures Last(run').ends[x].worker.Receiving? && Last(run').wires[Reverse(x)] == Last(run).wires[Reverse(x)]
    decreases busy, queued, moves, keys
  {
    hide IsRun, Apply, Enabled, Continues, GoodConfig, GoesOn, Busy, ToReceive, KeysLeft, LinkInv, NodeInv, MakesWay;
    RunLengths(cfg, run, steps);
    if Last(run).ends[x].worker.Receiving? {
      run', steps' := run, steps;
      GoesOnHere(cfg, run, steps);
    } else {
      RunHasInv(cfg, run, steps, |run| - 1);
      var a := WorkerOrWay(cfg, Last(run), x, false);
      StepNearsReceiving(cfg, Last(run), x, a);
      var t := OneStepOn(cfg, run, steps, a);
      var f := t.ends[x];
      run', steps' := ToReceiving(cfg, run + [t], steps + [a], x,
                                  Busy(f), |f.queue|, ToReceive(f.worker), KeysLeft(f.worker));
      GoesOnFurther(cfg, run, steps, run + [t], steps + [a], run', steps');
    }
  }

  /** A worker that wants no mutex makes its step. */
  lemma WorkerGoes(cfg: Config, run: seq<State>, steps: seq<Step>, x: Link, hasData: bool)
    returns (t: State, order: seq<Str>)
    requires IsRun(cfg, run, steps) && x in cfg.links && Shape(cfg, Last(run))
    requires Wanted(Last(run), WorkerOf(x)).None? && (hasData ==> Last(run).wires[Reverse(x)] != [])
    ensures Shape(cfg, t) && GoesOn(cfg, run, steps, run + [t], steps + [Work(x, hasData, order)])
    ensures Last(run + [t]) == t && (set k | k in order) == Local(Last(run), x.me).Keys
    ensures var e, i := Last(run).ends[x], InputOf(Last(run), x, hasData, order);
            && WorkerEnabled(e, i) && t.ends[x] == WorkerApply(e, i)
            && t.wires[x] == Last(run).wires[x] + Sent(e.worker)
            && t.wires[Reverse(x)] == Rest(e.worker, hasData, Last(run).wires[Reverse(x)])
            && t.others == Others(Last(run), x)
  {
    hide IsRun, Enabled, GoesOn, LinkInv, NodeInv, WorkerApply, WorkerEnabled, Others, Wires;
    RunLengths(cfg, run, steps);
    RunHasInv(cfg, run, steps, |run| - 1);
    var s := Last(run);
    order := OrderOf(Local(s, x.me).Keys);
    assert LinkInv(cfg, s, x);
    WorkerRunsWith(cfg, s, x, hasData, order);
    WorkEffect(cfg, s, x, hasData, order);
    t := OneStepOn(cfg, run, steps, Work(x, hasData, order));
  }

  // ---- the peer announces, and this node hears ----

  /** Some packet on the wire to `x.me` lists the key, with `at` packets before it. */
  ghost predicate Announced(s: State, x: Link, key: Str, at: nat)
    requires Reverse(x) in s.wires
  {
    var wire := s.wires[Reverse(x)];
    at < |wire| && wire[at].KeyList? && key in wire[at].keys
  }

  lemma IsRunOf(cfg: Config, run: seq<State>, steps: seq<Step>, run': seq<State>, steps': seq<Step>)
    requires GoesOn(cfg, run, steps, run', steps')
    ensures IsRun(cfg, run', steps')
  {
  }

  /** Steps until the keys are sent. */
  function ToAnnounce(w: WorkerState): nat {
    if w.Receiving? then 2 else if w.Listing? then 1 else 0
  }

  /** The worker will send the key with its next list. */
  predicate WillAnnounce(w: WorkerState, key: Str) {
    w.Receiving? || w.Listing? || (w.Announcing? && key in w.keys)
  }

  lemma AnnouncingGoes(e: Endpoint, i: Input, key: Str)
    requires WillAnnounce(e.worker, key) && WorkerEnabled(e, i) && i.packet.None? && key in i.local
    ensures var w := WorkerApply(e, i).worker;
            if e.worker.Announcing? then Sent(e.worker) == [KeyList(e.worker.keys)]
            else WillAnnounce(w, key) && ToAnnounce(w) < ToAnnounce(e.worker)
  {
    if e.worker.Listing? {
      assert key in (set k | k in i.order);
    }
  }

  /** A worker that can receive, and receives nothing, sends the keys of its node. */
  lemma Announces(cfg: Config, run: seq<State>, steps: seq<Step>, l: Link, key: Str)
    returns (run': seq<State>, steps': seq<Step>, at: nat)
    requires IsRun(cfg, run, steps) && l in cfg.links && Shape(cfg, Last(run)) && key in Local(Last(run), l.peer)
    requires WillAnnounce(Last(run).ends[Reverse(l)].worker, key)
    ensures GoesOn(cfg, run, steps, run', steps') && Shape(cfg, Last(run')) && Announced(Last(run'), l, key, at)
    decreases ToAnnounce(Last(run).ends[Reverse(l)].worker)
  {
    hide IsRun, GoesOn, Others, WorkerEnabled, WorkerApply, ToAnnounce, GoodConfig, Rest;
    RunLengths(cfg, run, steps);
    LinkBack(cfg, l);
    var r, w := Reverse(l), Last(run).ends[Reverse(l)].worker;
    var t, order := WorkerGoes(cfg, run, steps, r, false);
    run', steps' := run + [t], steps + [Work(r, false, order)];
    IsRunOf(cfg, run, steps, run', steps');
    AnnouncingGoes(Last(run).ends[r], InputOf(Last(run), r, false, order), key);
    if w.Announcing? {
      at := |Last(run).wires[r]|;
    } else {
      var run1, steps1 := run', steps';
      SameVersions(cfg, run, steps, run1, steps1);
      run', steps', at := Announces(cfg, run1, steps1, l, key);
      GoesOnFurther(cfg, run, steps, run1, steps1, run', steps');
    }
  }

  lemma LinkBack(cfg: Config, l: Link)
    requires GoodConfig(cfg) && l in cfg.links
    ensures Reverse(l) in cfg.links && Reverse(Reverse(l)) == l && l.me in cfg.nodes && l.peer in cfg.nodes
  {
  }

  /** A worker that has taken a list records its keys one after the other. */
  lemma Records(cfg: Config, run: seq<State>, steps: seq<Step>, l: Link, key: Str)
    returns (run': seq<State>, steps': seq<Step>)
    requires IsRun(cfg, run, steps) && l in cfg.links && Shape(cfg, Last(run))
    requires Last(run).ends[l].worker.Learning? && key in Last(run).ends[l].worker.keys
    ensures GoesOn(cfg, run, steps, run', steps') && Shape(cfg, Last(run'))
    ensures key in Last(run').others[l.me]
    decreases |Last(run).ends[l].worker.keys|
  {
    hide IsRun, GoesOn, WorkerEnabled;
    RunLengths(cfg, run, steps);
    var keys := Last(run).ends[l].worker.keys;
    var t, order := WorkerGoes(cfg, run, steps, l, false);
    run', steps' := run + [t], steps + [Work(l, false, order)];
    IsRunOf(cfg, run, steps, run', steps');
    if keys[0] != key {
      var run1, steps1 := run', steps';
      assert t.ends[l].worker == Learning(keys[1..]) && key in keys[1..];
      run', steps' := Records(cfg, run1, steps1, l, key);
      GoesOnFurther(cfg, run, steps, run1, steps1, run', steps');
    }
  }

  /** A worker that reads its wire takes the list, or comes nearer to it. */
  lemma TakesAnnounced(s: State, t: State, l: Link, key: Str, at: nat, order: seq<Str>)
    requires l in s.ends && l in t.ends && Reverse(l) in s.wires && Reverse(l) in t.wires
    requires l.me in s.history && s.history[l.me] != []
    requires Announced(s, l, key, at) && s.ends[l].worker.Receiving?
    requires WorkerEnabled(s.ends[l], InputOf(s, l, true, order))
    requires t.ends[l] == WorkerApply(s.ends[l], InputOf(s, l, true, order))
    requires t.wires[Reverse(l)] == Rest(s.ends[l].worker, true, s.wires[Reverse(l)])
    ensures if at == 0 then t.ends[l].worker.Learning? && key in t.ends[l].worker.keys
            else Announced(t, l, key, at - 1)
  {
  }

  lemma TakesOne(cfg: Config, run: seq<State>, steps: seq<Step>, l: Link, key: Str, at: nat)
    returns (t: State, a: Step)
    requires IsRun(cfg, run, steps) && l in cfg.links && Shape(cfg, Last(run)) && Announced(Last(run), l, key, at)
    requires Last(run).ends[l].worker.Receiving?
    ensures GoesOn(cfg, run, steps, run + [t], steps + [a]) && Shape(cfg, t) && Last(run + [t]) == t
    ensures if at == 0 then t.ends[l].worker.Learning? && key in t.ends[l].worker.keys
            else Announced(t, l, key, at - 1)
  {
    hide IsRun, GoesOn, WorkerEnabled, WorkerApply, Others, GoodConfig, Rest, Sent;
    RunLengths(cfg, run, steps);
    LinkBack(cfg, l);
    var order;
    t, order := WorkerGoes(cfg, run, steps, l, true);
    a := Work(l, true, order);
    TakesAnnounced(Last(run), t, l, key, at, order);
  }

  lemma SameAnnounced(s: State, t: State, l: Link, key: Str, at: nat)
    requires Reverse(l) in s.wires && Reverse(l) in t.wires && t.wires[Reverse(l)] == s.wires[Reverse(l)]
    requires Announced(s, l, key, at)
    ensures Announced(t, l, key, at)
  {
  }

  /** A list on the wire is reached after the packets before it, and its keys are recorded. */
  lemma Hears(cfg: Config, run: seq<State>, steps: seq<Step>, l: Link, key: Str, at: nat)
    returns (run': seq<State>, steps': seq<Step>)
    requires IsRun(cfg, run, steps) && l in cfg.links && Shape(cfg, Last(run)) && Announced(Last(run), l, key, at)
    ensures GoesOn(cfg, run, steps, run', steps') && Shape(cfg, Last(run'))
    ensures key in Last(run').others[l.me]
    decreases at
  {
    hide IsRun, GoesOn, Busy, ToReceive, KeysLeft, GoodConfig, Announced;
    RunLengths(cfg, run, steps);
    LinkBack(cfg, l);
    var e := Last(run).ends[l];
    var run1, steps1 := ToReceiving(cfg, run, steps, l, Busy(e), |e.queue|, ToReceive(e.worker), KeysLeft(e.worker));
    IsRunOf(cfg, run, steps, run1, steps1);
    SameAnnounced(Last(run), Last(run1), l, key, at);
    var t, a := TakesOne(cfg, run1, steps1, l, key, at);
    var run2, steps2 := run1 + [t], steps1 + [a];
    IsRunOf(cfg, run1, steps1, run2, steps2);
    GoesOnFurther(cfg, run, steps, run1, steps1, run2, steps2);
    if at == 0 {
      run', steps' := Records(cfg, run2, steps2, l, key);
    } else {
      run', steps' := Hears(cfg, run2, steps2, l, key, at - 1);
    }
    GoesOnFurther(cfg, run, steps, run2, steps2, run', steps');
  }

  /** What a peer holds becomes known to be the peer's. */
  lemma BecomesKnown(cfg: Config, run: seq<State>, steps: seq<Step>, l: Link, key: Str)
    returns (run': seq<State>, steps': seq<Step>)
    requires IsRun(cfg, run, steps) && l in cfg.links && Shape(cfg, Last(run)) && key in Local(Last(run), l.peer)
    ensures GoesOn(cfg, run, steps, run', steps') && Shape(cfg, Last(run'))
    ensures Last(run').history == Last(run).history && KnownRemote(Last(run'), l, key)
  {
    hide IsRun, GoesOn, Busy, ToReceive, KeysLeft, Announced;
    RunLengths(cfg, run, steps);
    var e := Last(run).ends[Reverse(l)];
    var run1, steps1 := ToReceiving(cfg, run, steps, Reverse(l),
                                    Busy(e), |e.queue|, ToReceive(e.worker), KeysLeft(e.worker));
    IsRunOf(cfg, run, steps, run1, steps1);
    SameVersions(cfg, run, steps, run1, steps1);
    var run2, steps2, at := Announces(cfg, run1, steps1, l, key);
    IsRunOf(cfg, run1, steps1, run2, steps2);
    GoesOnFurther(cfg, run, steps, run1, steps1, run2, steps2);
    run', steps' := Hears(cfg, run2, steps2, l, key, at);
    IsRunOf(cfg, run2, steps2, run', steps');
    GoesOnFurther(cfg, run, steps, run2, steps2, run', steps');
    SameVersions(cfg, run, steps, run', steps');
    HeardFromOwner(cfg, run', steps', l, key);
  }

  /** A key is recorded for the one node that holds it. */
  lemma HeardFromOwner(cfg: Config, run: seq<State>, steps: seq<Step>, l: Link, key: Str)
    requires IsRun(cfg, run, steps) && l in cfg.links && Shape(cfg, Last(run))
    requires key in Last(run).others[l.me] && key in Local(Last(run), l.peer)
    ensures KnownRemote(Last(run), l, key)
  {
    hide IsRun, LinkInv;
    RunLengths(cfg, run, steps);
    RunHasInv(cfg, run, steps, |run| - 1);
    var s := Last(run);
    assert NodeInv(cfg, s, l.me) && NodeInv(cfg, s, l.peer);
    assert Link(l.me, s.others[l.me][key]) in cfg.links;
    assert NodeInv(cfg, s, s.others[l.me][key]);
  }

  // ---- it asks, and gets the frame ----

  /** The request looks at the newest version of the peer's map. */
  ghost predicate UpToDate(s: State, l: Link, id: Id, key: Str) {
    && l in s.ends && l.peer in s.history && id in s.ends[l].reqs
    && s.ends[l].reqs[id].key == key && s.ends[l].reqs[id].since + 1 == |s.history[l.peer]|
  }

  lemma WorkerKeepsSince(e: Endpoint, i: Input, id: Id)
    requires WorkerEnabled(e, i) && id in e.reqs
    ensures id in WorkerApply(e, i).reqs
    ensures WorkerApply(e, i).reqs[id].key == e.reqs[id].key && WorkerApply(e, i).reqs[id].since == e.reqs[id].since
  {
  }

  lemma RequesterKeepsSince(e: Endpoint, q: Id, a: Action, now: nat, id: Id)
    requires RequesterEnabled(e, q, a) && id in e.reqs && e.reqs[id].since == now
    ensures id in RequesterApply(e, q, a, now).reqs
    ensures var r := RequesterApply(e, q, a, now).reqs[id];
            r.key == e.reqs[id].key && r.since == now
  {
  }

  lemma StaysUpToDate(cfg: Config, s: State, a: Step, l: Link, id: Id, key: Str)
    requires Shape(cfg, s) && Enabled(cfg, s, a) && l in cfg.links && UpToDate(s, l, id, key) && Continues(a)
    ensures UpToDate(Apply(cfg, s, a), l, id, key)
  {
    hide WorkerEnabled, WorkerApply, RequesterEnabled, RequesterApply, KnownRemote, Others, Wires;
    StepAtEnd(cfg, s, a, l);
    StepKeepsVersions(cfg, s, a);
    if a.Work? && a.link == l {
      WorkerKeepsSince(s.ends[l], InputOf(s, l, a.hasData, a.order), id);
    } else if a.Call? && a.link == l {
      RequesterKeepsSince(s.ends[l], a.id, a.action, |s.history[l.peer]| - 1, id);
    }
  }

  lemma {:induction false} StaysUpToDateAt(
    cfg: Config, run: seq<State>, steps: seq<Step>, i: nat, j: nat, l: Link, id: Id, key: Str)
    requires IsRun(cfg, run, steps) && i <= j < |run| && l in cfg.links && UpToDate(run[i], l, id, key)
    requires forall k | i <= k < j && k < |steps| :: Continues(steps[k])
    ensures UpToDate(run[j], l, id, key)
    decreases j
  {
    hide Apply, Enabled, Init, UpToDate, Continues;
    if i < j {
      StaysUpToDateAt(cfg, run, steps, i, j - 1, l, id, key);
      assert Follows(cfg, run, steps, j - 1);
      StaysUpToDate(cfg, run[j - 1], steps[j - 1], l, id, key);
    }
  }

  lemma ReadsNewest(cfg: Config, run: seq<State>, steps: seq<Step>, l: Link, id: Id, key: Str)
    requires IsRun(cfg, run, steps) && l in cfg.links && Shape(cfg, Last(run)) && UpToDate(Last(run), l, id, key)
    requires Done(Last(run).ends[l].reqs[id].phase)
    ensures Last(run).ends[l].reqs[id].value == Lookup(Local(Last(run), l.peer), key)
    ensures Last(run).ends[l].reqs[id].value.Some?
  {
    hide IsRun, EndInv, RoundTrips, GoodWorker, GoodWire;
    RunLengths(cfg, run, steps);
    RunHasInv(cfg, run, steps, |run| - 1);
    assert LinkInv(cfg, Last(run), l);
  }

  lemma FreshId(ids: set<Id>) returns (id: Id)
    ensures forall k | k in ids :: k < id
    decreases |ids|
  {
    if ids == {} {
      id := 0;
    } else {
      var k :| k in ids;
      var n := FreshId(ids - {k});
      id := if k < n then n else k + 1;
      assert forall j | j in ids :: j == k || j in ids - {k};
    }
  }

  /** A key that is known to be the peer's is asked for. */
  lemma Asks(cfg: Config, run: seq<State>, steps: seq<Step>, l: Link, key: Str)
    returns (t: State, id: Id)
    requires IsRun(cfg, run, steps) && l in cfg.links && Shape(cfg, Last(run)) && KnownRemote(Last(run), l, key)
    ensures Shape(cfg, t) && IsRun(cfg, run + [t], steps + [Call(l, id, Ask(key))])
    ensures t.history == Last(run).history && UpToDate(t, l, id, key)
  {
    hide IsRun;
    RunLengths(cfg, run, steps);
    id := FreshId(Last(run).ends[l].reqs.Keys);
    t := OneStepOn(cfg, run, steps, Call(l, id, Ask(key)));
  }

  /** In the run `steps'` the key was asked for after the first `n` steps, and nothing was set since. */
  ghost predicate AskedSince(steps': seq<Step>, n: nat, l: Link, id: Id, key: Str) {
    && (forall i | n <= i < |steps'| :: !steps'[i].Put?)
    && exists i :: n <= i < |steps'| && steps'[i] == Call(l, id, Protocol.Ask(key))
  }

  ghost predicate Returned(s: State, l: Link, id: Id, key: Str, value: Frame) {
    && l in s.ends && id in s.ends[l].reqs
    && s.ends[l].reqs[id].phase.Returned? && s.ends[l].reqs[id].key == key && s.ends[l].reqs[id].value == Some(value)
  }

  /** The request returns, with what it finds in the newest version. */
  lemma ReturnsNewest(cfg: Config, run: seq<State>, steps: seq<Step>, l: Link, id: Id, key: Str)
    returns (run': seq<State>, steps': seq<Step>)
    requires IsRun(cfg, run, steps) && l in cfg.links && Shape(cfg, Last(run)) && UpToDate(Last(run), l, id, key)
    ensures GoesOn(cfg, run, steps, run', steps') && key in Local(Last(run), l.peer)
    ensures Returned(Last(run'), l, id, key, Local(Last(run), l.peer)[key])
  {
    hide IsRun, Continues;
    RunLengths(cfg, run, steps);
    run', steps' := RequestCanReturn(cfg, run, steps, l, id);
    SameVersions(cfg, run, steps, run', steps');
    RunLengths(cfg, run', steps');
    assert run'[|run| - 1] == Last(run);
    hide UpToDate;
    StaysUpToDateAt(cfg, run', steps', |run| - 1, |run'| - 1, l, id, key);
    ReadsNewest(cfg, run', steps', l, id, key);
    assert UpToDate(Last(run'), l, id, key);
    KeyOf(Last(run'), l, id, key);
  }

  lemma KeyOf(s: State, l: Link, id: Id, key: Str)
    requires UpToDate(s, l, id, key)
    ensures s.ends[l].reqs[id].key == key
  {
  }

  lemma AskedOnTheWay(
    cfg: Config, run: seq<State>, steps: seq<Step>, run1: seq<State>, steps1: seq<Step>,
    run2: seq<State>, steps2: seq<Step>, run3: seq<State>, steps3: seq<Step>, l: Link, id: Id, key: Str)
    requires GoesOn(cfg, run, steps, run1, steps1) && GoesOn(cfg, run2, steps2, run3, steps3)
    requires run1 <= run2 && steps2 == steps1 + [Call(l, id, Protocol.Ask(key))]
    ensures run <= run3 && steps <= steps3 && AskedSince(steps3, |steps|, l, id, key)
  {
    hide IsRun, Continues;
    NoPuts(cfg, run, steps, run1, steps1);
    NoPuts(cfg, run2, steps2, run3, steps3);
    assert steps3[|steps1|] == steps2[|steps1|];
    forall i | |steps| <= i < |steps3| ensures !steps3[i].Put? {
      if i < |steps2| {
        assert steps3[i] == steps2[i];
      }
    }
  }

  /**
    Whatever has happened so far, a key that a peer holds can be read: some continuation of the run,
    in which nothing is set, asks for it and returns what the peer's map has held all the time.
   */
  lemma HeldKeyCanBeRead(cfg: Config, run: seq<State>, steps: seq<Step>, l: Link, key: Str)
    returns (run': seq<State>, steps': seq<Step>, id: Id)
    requires IsRun(cfg, run, steps) && l in cfg.links && Shape(cfg, Last(run)) && key in Local(Last(run), l.peer)
    ensures IsRun(cfg, run', steps') && run <= run' && steps <= steps'
    ensures AskedSince(steps', |steps|, l, id, key)
    ensures Returned(Last(run'), l, id, key, Local(Last(run), l.peer)[key])
  {
    hide IsRun, Continues, KnownRemote, GoesOn, UpToDate, AskedSince, GoodConfig;
    RunLengths(cfg, run, steps);
    var run1, steps1 := BecomesKnown(cfg, run, steps, l, key);
    IsRunOf(cfg, run, steps, run1, steps1);
    var t;
    t, id := Asks(cfg, run1, steps1, l, key);
    var run2, steps2 := run1 + [t], steps1 + [Call(l, id, Protocol.Ask(key))];
    run', steps' := ReturnsNewest(cfg, run2, steps2, l, id, key);
    IsRunOf(cfg, run2, steps2, run', steps');
    AskedOnTheWay(cfg, run, steps, run1, steps1, run2, steps2, run', steps', l, id, key);
  }

  /**
    And so can one that a peer has yet to set: its owner may set it to any frame at any time, and
    whoever is connected to the owner can get that very frame from there on.
   */
  lemma SetKeyCanBeRead(cfg: Config, run: seq<State>, steps: seq<Step>, l: Link, key: Str, value: Frame)
    returns (run': seq<State>, steps': seq<Step>, id: Id)
    requires IsRun(cfg, run, steps) && l in cfg.links && key in cfg.owner && cfg.owner[key] == l.peer
    ensures IsRun(cfg, run', steps') && run <= run' && steps + [Put(l.peer, key, value)] <= steps'
    ensures AskedSince(steps', |steps| + 1, l, id, key) && Returned(Last(run'), l, id, key, value)
  {
    hide IsRun, AskedSince, Returned, LinkInv, NodeInv;
    RunLengths(cfg, run, steps);
    RunHasInv(cfg, run, steps, |run| - 1);
    var t := OneStepOn(cfg, run, steps, Put(l.peer, key, value));
    var run1, steps1 := run + [t], steps + [Put(l.peer, key, value)];
    run', steps', id := HeldKeyCanBeRead(cfg, run1, steps1, l, key);
  }

  /** Every network has runs to begin with. */
  lemma FirstRun(cfg: Config) returns (s: State)
    requires GoodConfig(cfg)
    ensures IsRun(cfg, [s], [])
  {
    s := State(map l | l in cfg.links :: Endpoint(map[], [], [], None, None, Receiving),
               map l | l in cfg.links :: [], map n | n in cfg.nodes :: [map[]], map n | n in cfg.nodes :: map[]);
  }
}
