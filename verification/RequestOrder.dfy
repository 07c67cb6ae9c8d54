/** The requests of a connection are answered in the order in which they were pushed. */
module RequestOrder {
  import opened Protocol
  import opened EndpointInvariant
  import opened ProtocolInvariant
  import opened NetworkInvariant
  import opened ProtocolTheorems

  /** Request `a` has been answered, or is tracked before request `b`. */
  ghost predicate InOrder(e: Endpoint, a: Id, b: Id) {
    || (a in e.reqs && Done(e.reqs[a].phase))
    || exists i, k :: 0 <= i < k < |Tracked(e)| && Tracked(e)[i] == a && Tracked(e)[k] == b
  }

  lemma HandsOver(e: Endpoint, i: Input)
    requires WorkerEnabled(e, i) && !e.worker.Comparing?
    ensures Tracked(WorkerApply(e, i)) == Tracked(e)
  {
  }

  /** A worker step answers the oldest tracked request, or leaves the tracked requests alone. */
  lemma WorkerTracks(e: Endpoint, i: Input)
    requires EndInv(e) && HeadMatches(e) && WorkerEnabled(e, i)
    ensures var f := WorkerApply(e, i);
            if e.worker.Comparing? then
              && Tracked(e) != [] && Tracked(f) == Tracked(e)[1..]
              && Tracked(e)[0] in f.reqs && Done(f.reqs[Tracked(e)[0]].phase)
            else Tracked(f) == Tracked(e)
  {
    hide EndInv;
    if e.worker.Comparing? {
      hide HeadMatches, WorkerEnabled;
      MatchingWakes(e, i);
      assert Tracked(e)[0] == e.waiting[0];
    } else {
      hide HeadMatches, WorkerApply, WorkerEnabled;
      HandsOver(e, i);
    }
  }

  lemma WorkerKeepsOrder(e: Endpoint, i: Input, a: Id, b: Id)
    requires EndInv(e) && HeadMatches(e) && WorkerEnabled(e, i) && InOrder(e, a, b)
    ensures InOrder(WorkerApply(e, i), a, b)
  {
    hide EndInv, HeadMatches, WorkerEnabled, WorkerApply, Tracked;
    var f := WorkerApply(e, i);
    WorkerTracks(e, i);
    if a in e.reqs && Done(e.reqs[a].phase) {
      WorkerKeepsAnswer(e, i, a);
    } else {
      var m, k :| 0 <= m < k < |Tracked(e)| && Tracked(e)[m] == a && Tracked(e)[k] == b;
      if e.worker.Comparing? && m > 0 {
        assert Tracked(f)[m - 1] == a && Tracked(f)[k - 1] == b;
      }
    }
  }

  lemma RequesterTracks(e: Endpoint, id: Id, action: Action, now: nat)
    requires RequesterEnabled(e, id, action)
    ensures Tracked(RequesterApply(e, id, action, now)) == Tracked(e) + if action.Push? then [id] else []
  {
  }

  lemma RequesterKeepsOrder(e: Endpoint, id: Id, action: Action, now: nat, a: Id, b: Id)
    requires RequesterEnabled(e, id, action) && InOrder(e, a, b)
    ensures InOrder(RequesterApply(e, id, action, now), a, b)
  {
    hide RequesterEnabled, RequesterApply, Tracked;
    RequesterTracks(e, id, action, now);
    if a in e.reqs && Done(e.reqs[a].phase) {
      RequesterKeepsAnswer(e, id, action, now, a);
    } else {
      var m, k :| 0 <= m < k < |Tracked(e)| && Tracked(e)[m] == a && Tracked(e)[k] == b;
      var f := RequesterApply(e, id, action, now);
      assert Tracked(f)[m] == a && Tracked(f)[k] == b;
    }
  }

  /** A request that was pushed is in order with one that is being pushed. */
  lemma PushIsLast(e: Endpoint, b: Id, now: nat, a: Id)
    requires EndInv(e) && RequesterEnabled(e, b, Push) && a in e.reqs && Pushed(e.reqs[a].phase)
    ensures InOrder(RequesterApply(e, b, Push, now), a, b)
  {
    hide QueueLock, WaitingLock, RequestLocks, Answering;
    var f := RequesterApply(e, b, Push, now);
    assert Tracked(f) == Tracked(e) + [b];
    if !Done(e.reqs[a].phase) {
      var m :| 0 <= m < |Tracked(e)| && Tracked(e)[m] == a;
      assert Tracked(f)[m] == a && Tracked(f)[|Tracked(e)|] == b;
    }
  }

  lemma StepKeepsOrder(cfg: Config, s: State, step: Step, l: Link, a: Id, b: Id)
    requires Inv(cfg, s) && Enabled(cfg, s, step) && l in cfg.links && InOrder(s.ends[l], a, b)
    ensures InOrder(Apply(cfg, s, step).ends[l], a, b)
  {
    hide InOrder, EndInv, HeadMatches, NodeInv, RequesterApply, WorkerApply;
    StepAtEnd(cfg, s, step, l);
    if step.Work? && step.link == l {
      assert LinkInv(cfg, s, l);
      ResponseMatchesHead(s.ends[l], s.ends[Reverse(l)], s.wires[Reverse(l)], s.wires[l],
                          s.history[l.me], s.history[l.peer]);
      WorkerKeepsOrder(s.ends[l], InputOf(s, l, step.hasData, step.order), a, b);
    } else if step.Call? && step.link == l {
      RequesterKeepsOrder(s.ends[l], step.id, step.action, |s.history[l.peer]| - 1, a, b);
    }
  }

  lemma {:induction false} StaysInOrder(
    cfg: Config, run: seq<State>, steps: seq<Step>, i: nat, j: nat, l: Link, a: Id, b: Id)
    requires IsRun(cfg, run, steps) && i <= j < |run| && l in cfg.links
    requires l in run[i].ends && InOrder(run[i].ends[l], a, b)
    ensures l in run[j].ends && InOrder(run[j].ends[l], a, b)
    decreases j
  {
    hide InOrder, Apply, Enabled, Init, LinkInv, NodeInv, GoodConfig;
    RunHasInv(cfg, run, steps, j);
    if i < j {
      StaysInOrder(cfg, run, steps, i, j - 1, l, a, b);
      RunHasInv(cfg, run, steps, j - 1);
      assert Follows(cfg, run, steps, j - 1);
      StepKeepsOrder(cfg, run[j - 1], steps[j - 1], l, a, b);
    }
  }

  lemma PushStepInOrder(cfg: Config, s: State, l: Link, a: Id, b: Id)
    requires Inv(cfg, s) && Enabled(cfg, s, Call(l, b, Push))
    requires a in s.ends[l].reqs && Pushed(s.ends[l].reqs[a].phase)
    ensures InOrder(Apply(cfg, s, Call(l, b, Push)).ends[l], a, b)
  {
    hide InOrder, EndInv, NodeInv, RequesterApply, RequesterEnabled, GoodWorker, GoodWire, RoundTrips, Recorded;
    assert LinkInv(cfg, s, l);
    PushIsLast(s.ends[l], b, |s.history[l.peer]| - 1, a);
  }

  lemma PushedInOrder(cfg: Config, run: seq<State>, steps: seq<Step>, i: nat, j: nat, l: Link, a: Id, b: Id)
    requires IsRun(cfg, run, steps) && i < j < |steps| && l in cfg.links
    requires steps[i] == Call(l, a, Push) && steps[j] == Call(l, b, Push)
    ensures l in run[j + 1].ends && InOrder(run[j + 1].ends[l], a, b)
  {
    hide InOrder, Inv, Apply, Enabled, GoodConfig, Init;
    SinceIsPushTime(cfg, run, steps, i, j, l, a);
    RunHasInv(cfg, run, steps, j);
    assert Follows(cfg, run, steps, j);
    PushStepInOrder(cfg, run[j], l, a, b);
  }

  /** First in, first out: of two requests of a connection the one pushed earlier is answered first.
      At any time at which the later one has its value, the earlier one has it too. */
  lemma AnsweredInPushOrder(
    cfg: Config, run: seq<State>, steps: seq<Step>, i: nat, j: nat, n: nat, l: Link, a: Id, b: Id)
    requires IsRun(cfg, run, steps) && i < j < n < |run| && l in cfg.links
    requires steps[i] == Call(l, a, Push) && steps[j] == Call(l, b, Push)
    requires l in run[n].ends && b in run[n].ends[l].reqs && Done(run[n].ends[l].reqs[b].phase)
    ensures a in run[n].ends[l].reqs && Done(run[n].ends[l].reqs[a].phase)
  {
    hide QueueLock, WaitingLock, RequestLocks, Answering, IsRun, NodeInv, RoundTrips, GoodWorker, GoodWire;
    RunLengths(cfg, run, steps);
    PushedInOrder(cfg, run, steps, i, j, l, a, b);
    StaysInOrder(cfg, run, steps, j + 1, n, l, a, b);
    RunHasInv(cfg, run, steps, n);
    assert LinkInv(cfg, run[n], l);
  }
}
