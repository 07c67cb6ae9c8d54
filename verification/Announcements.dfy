/** What the nodes of a run tell each other about their keys, and what they remember of it. */
module Announcements {
  import opened Bytes
  import opened Messages
  import opened Protocol
  import opened NetworkInvariant
  import opened ProtocolTheorems

  // ---- single steps ----

  /** Step i of the run takes the list `keys` off the wire to the worker of `l`. */
  ghost predicate TakesList(run: seq<State>, steps: seq<Step>, i: nat, l: Link, keys: seq<Str>)
    requires |run| == |steps| + 1 && i < |steps|
  {
    && steps[i].Work? && steps[i].link == l && steps[i].hasData
    && l in run[i].ends && run[i].ends[l].worker.Receiving?
    && Reverse(l) in run[i].wires && run[i].wires[Reverse(l)] != []
    && run[i].wires[Reverse(l)][0] == KeyList(keys)
  }

  /** Step i of the run is one in which the worker of `x` records `key`. */
  ghost predicate Notes(run: seq<State>, steps: seq<Step>, i: nat, x: Link, key: Str)
    requires |run| == |steps| + 1 && i < |steps|
  {
    && steps[i].Work? && steps[i].link == x && x in run[i].ends
    && run[i].ends[x].worker.Learning? && run[i].ends[x].worker.keys != [] && run[i].ends[x].worker.keys[0] == key
  }

  /** No worker of the node but that of `l` records the key from step i to step j. */
  ghost predicate NotedByNoOther(run: seq<State>, steps: seq<Step>, i: nat, j: nat, l: Link, key: Str)
    requires |run| == |steps| + 1 && i <= j <= |steps|
  {
    forall m, x: Link | i <= m < j && x.me == l.me && x != l :: !Notes(run, steps, m, x, key)
  }

  /** The two maps say the same about the key. */
  predicate SameEntry(a: map<Str, NodeId>, b: map<Str, NodeId>, key: Str) {
    if key in a then key in b && a[key] == b[key] else key !in b
  }

  lemma OthersAfter(cfg: Config, s: State, a: Step)
    requires Shape(cfg, s) && Enabled(cfg, s, a)
    ensures a.Work? ==> a.link in s.ends && a.link.me in s.others
    ensures Apply(cfg, s, a).others == if a.Work? then Others(s, a.link) else s.others
  {
    hide WorkerApply, WorkerEnabled, RequesterApply, RequesterEnabled, Wires, InputOf, KnownRemote, Others;
  }

  /** What a step does to the remote keys of a node. */
  lemma StepNotes(cfg: Config, run: seq<State>, steps: seq<Step>, i: nat, n: NodeId, key: Str)
    requires IsRun(cfg, run, steps) && i < |steps| && n in cfg.nodes
    ensures n in run[i].others && n in run[i + 1].others
    ensures var a := steps[i];
            if a.Work? && a.link.me == n && Notes(run, steps, i, a.link, key) then
              key in run[i + 1].others[n] && run[i + 1].others[n][key] == a.link.peer
            else SameEntry(run[i].others[n], run[i + 1].others[n], key)
  {
    hide Apply, Enabled, Init, GoodConfig;
    assert Follows(cfg, run, steps, i);
    OthersAfter(cfg, run[i], steps[i]);
  }

  /** What a step does to a worker that has keys to record, or takes some. */
  lemma StepLearns(cfg: Config, run: seq<State>, steps: seq<Step>, i: nat, l: Link)
    requires IsRun(cfg, run, steps) && i < |steps| && l in cfg.links
    ensures l in run[i].ends && l in run[i + 1].ends
    ensures var w, w' := run[i].ends[l].worker, run[i + 1].ends[l].worker;
            && (!(steps[i].Work? && steps[i].link == l) ==> w' == w)
            && (steps[i].Work? && steps[i].link == l && w.Learning? ==>
                  if w.keys == [] then w'.Listing? else w' == Learning(w.keys[1..]))
            && (w'.Learning? && !w.Learning? ==> TakesList(run, steps, i, l, w'.keys))
            && (forall keys :: TakesList(run, steps, i, l, keys) ==> w' == Learning(keys))
  {
    hide Init;
    assert Follows(cfg, run, steps, i);
    StepAtEnd(cfg, run[i], steps[i], l);
  }

  // ---- every announced key is recorded ----

  /** A worker of which `rest` is still to be recorded of the list it took at step i. */
  ghost predicate OnItsWay(run: seq<State>, steps: seq<Step>, i: nat, m: nat, l: Link, keys: seq<Str>, rest: seq<Str>)
    requires |run| == |steps| + 1 && i <= m <= |steps|
    requires l.me in run[i].others && l.me in run[m].others
  {
    var before, now := run[i].others[l.me], run[m].others[l.me];
    && (forall key | NotedByNoOther(run, steps, i, m, l, key) ::
          SameEntry(LearnedAll(now, rest, l.peer), LearnedAll(before, keys, l.peer), key))
    && (forall key | key in keys :: key in rest || key in now)
  }

  lemma SameEntryThen(a: map<Str, NodeId>, b: map<Str, NodeId>, c: map<Str, NodeId>, key: Str)
    requires SameEntry(a, b, key) && SameEntry(b, c, key)
    ensures SameEntry(a, c, key)
  {
  }

  lemma LearnedSame(a: map<Str, NodeId>, b: map<Str, NodeId>, rest: seq<Str>, n: NodeId, key: Str)
    requires SameEntry(a, b, key)
    ensures SameEntry(LearnedAll(a, rest, n), LearnedAll(b, rest, n), key)
  {
  }

  lemma LearnedFirst(a: map<Str, NodeId>, b: map<Str, NodeId>, rest: seq<Str>, n: NodeId, key: Str)
    requires rest != [] && if key == rest[0] then key in b && b[key] == n else SameEntry(a, b, key)
    ensures SameEntry(LearnedAll(b, rest[1..], n), LearnedAll(a, rest, n), key)
  {
  }

  /** One step, while the worker of `l` has keys to record. */
  lemma StepOnItsWay(
    cfg: Config, run: seq<State>, steps: seq<Step>, i: nat, m: nat, l: Link, left: seq<Str>, rest: seq<Str>, key: Str)
    requires IsRun(cfg, run, steps) && i <= m < |steps| && l in cfg.links && l.me in cfg.nodes
    requires l in run[m].ends && run[m].ends[l].worker == Learning(left)
    requires l in run[m + 1].ends && run[m + 1].ends[l].worker == Learning(rest)
    ensures l.me in run[m].others && l.me in run[m + 1].others
    ensures var now, next := run[m].others[l.me], run[m + 1].others[l.me];
            && (NotedByNoOther(run, steps, i, m + 1, l, key) ==>
                  && NotedByNoOther(run, steps, i, m, l, key)
                  && SameEntry(LearnedAll(next, rest, l.peer), LearnedAll(now, left, l.peer), key))
            && (key in left || key in now ==> key in rest || key in next)
  {
    hide IsRun, LearnedAll;
    RunLengths(cfg, run, steps);
    StepLearns(cfg, run, steps, m, l);
    StepNotes(cfg, run, steps, m, l.me, key);
    var now, next := run[m].others[l.me], run[m + 1].others[l.me];
    if steps[m].Work? && steps[m].link == l {
      LearnedFirst(now, next, left, l.peer, key);
    } else if NotedByNoOther(run, steps, i, m + 1, l, key) {
      assert !(steps[m].Work? && steps[m].link.me == l.me && Notes(run, steps, m, steps[m].link, key));
      LearnedSame(next, now, rest, l.peer, key);
    }
  }

  /** What is left to record of a list moves into the remote keys, key by key. */
  lemma {:induction false} ListUnderWay(
    cfg: Config, run: seq<State>, steps: seq<Step>, i: nat, m: nat, l: Link, keys: seq<Str>) returns (rest: seq<Str>)
    requires IsRun(cfg, run, steps) && i < m < |run| && l in cfg.links && TakesList(run, steps, i, l, keys)
    requires forall k | i < k <= m :: l in run[k].ends && run[k].ends[l].worker.Learning?
    ensures l.me in cfg.nodes && l.me in run[i].others && l.me in run[m].others
    ensures run[m].ends[l].worker == Learning(rest) && OnItsWay(run, steps, i, m, l, keys, rest)
    decreases m
  {
    hide IsRun, SameEntry, LearnedAll;
    RunLengths(cfg, run, steps);
    LinkedNodes(cfg, run, steps, i, l);
    LinkedNodes(cfg, run, steps, m, l);
    StepLearns(cfg, run, steps, m - 1, l);
    rest := run[m].ends[l].worker.keys;
    var before, now := run[i].others[l.me], run[m].others[l.me];
    if m == i + 1 {
      forall key ensures SameEntry(LearnedAll(now, rest, l.peer), LearnedAll(before, keys, l.peer), key) {
        StepNotes(cfg, run, steps, i, l.me, key);
        LearnedSame(before, now, keys, l.peer, key);
        SameEntryBack(LearnedAll(before, keys, l.peer), LearnedAll(now, rest, l.peer), key);
      }
    } else {
      var left := ListUnderWay(cfg, run, steps, i, m - 1, l, keys);
      var was := run[m - 1].others[l.me];
      forall key ensures key in keys ==> key in rest || key in now
                 ensures NotedByNoOther(run, steps, i, m, l, key) ==>
                           SameEntry(LearnedAll(now, rest, l.peer), LearnedAll(before, keys, l.peer), key) {
        StepOnItsWay(cfg, run, steps, i, m - 1, l, left, rest, key);
        if NotedByNoOther(run, steps, i, m, l, key) {
          SameEntryThen(LearnedAll(now, rest, l.peer), LearnedAll(was, left, l.peer),
                        LearnedAll(before, keys, l.peer), key);
        }
      }
    }
  }

  lemma SameEntryBack(a: map<Str, NodeId>, b: map<Str, NodeId>, key: Str)
    requires SameEntry(a, b, key)
    ensures SameEntry(b, a, key)
  {
  }

  lemma LinkedNodes(cfg: Config, run: seq<State>, steps: seq<Step>, m: nat, l: Link)
    requires IsRun(cfg, run, steps) && m < |run| && l in cfg.links
    ensures Inv(cfg, run[m]) && l.me in cfg.nodes && l.peer in cfg.nodes && l.me in run[m].others && l in run[m].ends
  {
    RunHasInv(cfg, run, steps, m);
  }

  /** A key is recorded for its owner, whoever has recorded it. */
  lemma NotedForOwner(cfg: Config, s: State, l: Link, key: Str)
    requires Inv(cfg, s) && l in cfg.links && key in Local(s, l.peer) && key in s.others[l.me]
    ensures s.others[l.me][key] == l.peer
  {
    hide LinkInv;
    assert NodeInv(cfg, s, l.me) && NodeInv(cfg, s, l.peer);
    assert Link(l.me, s.others[l.me][key]) in cfg.links;
    assert NodeInv(cfg, s, s.others[l.me][key]);
  }

  lemma ListedIsHeld(cfg: Config, run: seq<State>, steps: seq<Step>, i: nat, j: nat, l: Link, keys: seq<Str>, key: Str)
    requires IsRun(cfg, run, steps) && i <= j < |run| && i < |steps| && l in cfg.links
    requires TakesList(run, steps, i, l, keys) && key in keys
    ensures Shape(cfg, run[j]) && key in Local(run[j], l.peer)
  {
    RunHasInv(cfg, run, steps, i);
    AnnouncedKeysAreHeld(cfg, run, steps, i, Reverse(l), 0);
    StaysHeld(cfg, run, steps, i, j, l.peer, key);
  }

  /** A node never forgets a key of its own. */
  lemma {:induction false} StaysHeld(
    cfg: Config, run: seq<State>, steps: seq<Step>, i: nat, j: nat, n: NodeId, key: Str)
    requires IsRun(cfg, run, steps) && i <= j < |run| && n in cfg.nodes
    requires Shape(cfg, run[i]) && key in Local(run[i], n)
    ensures Shape(cfg, run[j]) && key in Local(run[j], n)
    decreases j
  {
    hide IsRun, GoodConfig;
    RunLengths(cfg, run, steps);
    if i < j {
      StaysHeld(cfg, run, steps, i, j - 1, n, key);
      RunStepPuts(cfg, run, steps, j - 1, n);
    }
  }

  /**
    A list of keys that a worker has taken off its wire is recorded in full. When the worker leaves
    off recording (at time j, for the first time since), every key of the list is known to be the
    peer's; and every key, listed or not, that no other worker of the node has recorded meanwhile has
    the entry that `_update_keys` gives it in one go.
   */
  lemma ListIsLearned(cfg: Config, run: seq<State>, steps: seq<Step>, i: nat, j: nat, l: Link, keys: seq<Str>)
    requires IsRun(cfg, run, steps) && i + 1 < j < |run| && l in cfg.links && TakesList(run, steps, i, l, keys)
    requires forall k | i < k < j :: l in run[k].ends && run[k].ends[l].worker.Learning?
    requires l in run[j].ends && !run[j].ends[l].worker.Learning?
    ensures l.me in run[i].others && l.me in run[j].others
    ensures forall key | key in keys :: key in run[j].others[l.me] && run[j].others[l.me][key] == l.peer
    ensures forall key | NotedByNoOther(run, steps, i, j, l, key) ::
              SameEntry(run[j].others[l.me], LearnedAll(run[i].others[l.me], keys, l.peer), key)
  {
    hide IsRun, SameEntry, LinkInv, NodeInv;
    RunLengths(cfg, run, steps);
    var rest := ListUnderWay(cfg, run, steps, i, j - 1, l, keys);
    LinkedNodes(cfg, run, steps, j, l);
    StepLearns(cfg, run, steps, j - 1, l);
    var before, was, now := run[i].others[l.me], run[j - 1].others[l.me], run[j].others[l.me];
    forall key ensures SameEntry(now, was, key) {
      StepNotes(cfg, run, steps, j - 1, l.me, key);
      SameEntryBack(was, now, key);
    }
    forall key | NotedByNoOther(run, steps, i, j, l, key)
      ensures SameEntry(now, LearnedAll(before, keys, l.peer), key)
    {
      SameEntryThen(now, LearnedAll(was, rest, l.peer), LearnedAll(before, keys, l.peer), key);
    }
    forall key | key in keys ensures key in now && now[key] == l.peer {
      assert SameEntry(now, was, key);
      InBoth(now, was, key);
      ListedIsHeld(cfg, run, steps, i, j, l, keys, key);
      NotedForOwner(cfg, run[j], l, key);
    }
  }

  lemma InBoth(a: map<Str, NodeId>, b: map<Str, NodeId>, key: Str)
    requires SameEntry(a, b, key)
    ensures key in a <==> key in b
  {
  }

  /** If no other worker of the node records anything meanwhile, the remote keys are those that
      `_update_keys` leaves. */
  lemma LearningIsUpdateKeys(cfg: Config, run: seq<State>, steps: seq<Step>, i: nat, j: nat, l: Link, keys: seq<Str>)
    requires IsRun(cfg, run, steps) && i + 1 < j < |run| && l in cfg.links && TakesList(run, steps, i, l, keys)
    requires forall k | i < k < j :: l in run[k].ends && run[k].ends[l].worker.Learning?
    requires l in run[j].ends && !run[j].ends[l].worker.Learning?
    requires forall key :: NotedByNoOther(run, steps, i, j, l, key)
    ensures l.me in run[i].others && l.me in run[j].others
    ensures run[j].others[l.me] == LearnedAll(run[i].others[l.me], keys, l.peer)
  {
    hide IsRun, LearnedAll;
    RunLengths(cfg, run, steps);
    ListIsLearned(cfg, run, steps, i, j, l, keys);
    var after, all := run[j].others[l.me], LearnedAll(run[i].others[l.me], keys, l.peer);
    forall key ensures SameEntry(after, all, key) {
      assert NotedByNoOther(run, steps, i, j, l, key);
    }
    SameMaps(after, all);
  }

  lemma SameMaps(a: map<Str, NodeId>, b: map<Str, NodeId>)
    requires forall key :: SameEntry(a, b, key)
    ensures a == b
  {
    assert forall key :: key in a <==> key in b by {
      forall key ensures key in a <==> key in b {
        assert SameEntry(a, b, key);
      }
    }
    forall key | key in a ensures a[key] == b[key] {
      assert SameEntry(a, b, key);
    }
  }

  // ---- nothing else is recorded ----

  /** The worker of `l` has taken a list with the key before time j. */
  ghost predicate Heard(run: seq<State>, steps: seq<Step>, j: nat, l: Link, key: Str)
    requires |run| == |steps| + 1
  {
    exists i: nat, keys :: i < j && i < |steps| && TakesList(run, steps, i, l, keys) && key in keys
  }

  lemma {:induction false} LearningWasHeard(
    cfg: Config, run: seq<State>, steps: seq<Step>, j: nat, l: Link, key: Str)
    requires IsRun(cfg, run, steps) && j < |run| && l in cfg.links
    requires l in run[j].ends && run[j].ends[l].worker.Learning? && key in run[j].ends[l].worker.keys
    ensures Heard(run, steps, j, l, key)
  {
    if j > 0 {
      hide TakesList, IsRun, Heard;
      RunLengths(cfg, run, steps);
      StepLearns(cfg, run, steps, j - 1, l);
      var w, keys := run[j - 1].ends[l].worker, run[j].ends[l].worker.keys;
      if w.Learning? {
        LearningWasHeard(cfg, run, steps, j - 1, l, key);
        StillHeard(run, steps, j, l, key);
      } else {
        JustHeard(run, steps, j, l, keys, key);
      }
    }
  }

  /** A node knows a key to be remote only from a list that came from the node it has recorded. */
  lemma {:induction false} RemoteKeyWasAnnounced(
    cfg: Config, run: seq<State>, steps: seq<Step>, j: nat, n: NodeId, key: Str)
    requires IsRun(cfg, run, steps) && j < |run| && n in cfg.nodes
    requires n in run[j].others && key in run[j].others[n]
    ensures Link(n, run[j].others[n][key]) in cfg.links
    ensures Heard(run, steps, j, Link(n, run[j].others[n][key]), key)
  {
    hide IsRun, Heard;
    RunLengths(cfg, run, steps);
    if j == 0 {
      NothingKnownFirst(cfg, run, steps, n);
    } else {
      StepNotes(cfg, run, steps, j - 1, n, key);
      var a := steps[j - 1];
      if a.Work? && a.link.me == n && Notes(run, steps, j - 1, a.link, key) {
        StepLinked(cfg, run, steps, j - 1);
        LearningWasHeard(cfg, run, steps, j - 1, a.link, key);
        assert a.link == Link(n, run[j].others[n][key]);
      } else {
        RemoteKeyWasAnnounced(cfg, run, steps, j - 1, n, key);
      }
      StillHeard(run, steps, j, Link(n, run[j].others[n][key]), key);
    }
  }

  lemma JustHeard(run: seq<State>, steps: seq<Step>, j: nat, l: Link, keys: seq<Str>, key: Str)
    requires |run| == |steps| + 1 && 0 < j <= |steps| && TakesList(run, steps, j - 1, l, keys) && key in keys
    ensures Heard(run, steps, j, l, key)
  {
    hide TakesList;
  }

  lemma StillHeard(run: seq<State>, steps: seq<Step>, j: nat, l: Link, key: Str)
    requires |run| == |steps| + 1 && 0 < j && Heard(run, steps, j - 1, l, key)
    ensures Heard(run, steps, j, l, key)
  {
    hide TakesList;
  }

  lemma StepLinked(cfg: Config, run: seq<State>, steps: seq<Step>, i: nat)
    requires IsRun(cfg, run, steps) && i < |steps| && steps[i].Work?
    ensures steps[i].link in cfg.links
  {
    hide Apply, WorkerEnabled, InputOf;
    assert Follows(cfg, run, steps, i);
  }

  lemma NothingKnownFirst(cfg: Config, run: seq<State>, steps: seq<Step>, n: NodeId)
    requires IsRun(cfg, run, steps) && n in cfg.nodes
    ensures n in run[0].others && run[0].others[n] == map[]
  {
  }

  // ---- a list is complete ----

  /** The names are all the keys of some version. */
  ghost predicate AllKeysOf(versions: seq<Store>, names: seq<Str>) {
    exists v :: 0 <= v < |versions| && (set k | k in names) == versions[v].Keys
  }

  ghost predicate CompletePacket(p: Packet, versions: seq<Store>) {
    p.KeyList? ==> AllKeysOf(versions, p.keys)
  }

  /** Every list that the worker of an end is about to send, and every list it has sent, is complete. */
  ghost predicate CompleteLists(w: WorkerState, out: seq<Packet>, versions: seq<Store>) {
    && (w.Announcing? ==> AllKeysOf(versions, w.keys))
    && forall n | 0 <= n < |out| :: CompletePacket(out[n], versions)
  }

  lemma MoreVersions(versions: seq<Store>, more: seq<Store>, names: seq<Str>)
    requires versions <= more && AllKeysOf(versions, names)
    ensures AllKeysOf(more, names)
  {
    var v :| 0 <= v < |versions| && (set k | k in names) == versions[v].Keys;
    assert more[v] == versions[v];
  }

  lemma StaysComplete(w: WorkerState, out: seq<Packet>, versions: seq<Store>, more: seq<Store>)
    requires CompleteLists(w, out, versions) && versions <= more
    ensures CompleteLists(w, out, more)
  {
    hide AllKeysOf;
    if w.Announcing? {
      MoreVersions(versions, more, w.keys);
    }
    forall n | 0 <= n < |out| ensures CompletePacket(out[n], more) {
      if out[n].KeyList? {
        assert CompletePacket(out[n], versions);
        MoreVersions(versions, more, out[n].keys);
      }
    }
  }

  lemma WorkerKeepsComplete(e: Endpoint, i: Input, out: seq<Packet>, versions: seq<Store>)
    requires WorkerEnabled(e, i) && CompleteLists(e.worker, out, versions)
    requires versions != [] && i.local == Newest(versions)
    ensures CompleteLists(WorkerApply(e, i).worker, out + Sent(e.worker), versions)
  {
    if e.worker.Listing? {
      assert (set k | k in i.order) == versions[|versions| - 1].Keys;
    }
  }

  lemma ShorterIsComplete(w: WorkerState, out: seq<Packet>, versions: seq<Store>)
    requires CompleteLists(w, out, versions) && out != []
    ensures CompleteLists(w, out[1..], versions)
  {
    hide AllKeysOf;
    forall n | 0 <= n < |out[1..]| ensures CompletePacket(out[1..][n], versions) {
      assert out[1..][n] == out[n + 1];
    }
  }

  lemma StepKeepsComplete(cfg: Config, s: State, a: Step, l: Link)
    requires Shape(cfg, s) && Enabled(cfg, s, a) && l in cfg.links
    requires CompleteLists(s.ends[l].worker, s.wires[l], s.history[l.me])
    ensures var t := Apply(cfg, s, a); CompleteLists(t.ends[l].worker, t.wires[l], t.history[l.me])
  {
    hide CompleteLists, WorkerApply, WorkerEnabled, Others;
    match a
    case Put(n, key, value) =>
      StaysComplete(s.ends[l].worker, s.wires[l], s.history[l.me], Apply(cfg, s, a).history[l.me]);
    case Call(x, id, action) =>
    case Work(x, hasData, order) =>
      if x == l {
        WorkerKeepsComplete(s.ends[l], InputOf(s, l, hasData, order), s.wires[l], s.history[l.me]);
      } else if Reverse(x) == l && s.ends[x].worker.Receiving? && hasData {
        ShorterIsComplete(s.ends[l].worker, s.wires[l], s.history[l.me]);
      }
  }

  lemma {:induction false} RunKeepsComplete(cfg: Config, run: seq<State>, steps: seq<Step>, i: nat, l: Link)
    requires IsRun(cfg, run, steps) && i < |run| && l in cfg.links
    ensures Shape(cfg, run[i]) && CompleteLists(run[i].ends[l].worker, run[i].wires[l], run[i].history[l.me])
  {
    hide Apply, Enabled, GoodConfig;
    if i > 0 {
      RunKeepsComplete(cfg, run, steps, i - 1, l);
      assert Follows(cfg, run, steps, i - 1);
      StepKeepsComplete(cfg, run[i - 1], steps[i - 1], l);
    }
  }

  /** A list of keys on a wire has exactly the keys that its sender's map held at some time. */
  lemma ListsAreComplete(cfg: Config, run: seq<State>, steps: seq<Step>, i: nat, l: Link, n: nat)
    requires IsRun(cfg, run, steps) && i < |run| && l in cfg.links
    requires l in run[i].wires && n < |run[i].wires[l]| && run[i].wires[l][n].KeyList?
    ensures l.me in run[i].history
    ensures exists v :: 0 <= v < |run[i].history[l.me]|
                        && (set k | k in run[i].wires[l][n].keys) == run[i].history[l.me][v].Keys
  {
    hide IsRun;
    RunKeepsComplete(cfg, run, steps, i, l);
    assert CompletePacket(run[i].wires[l][n], run[i].history[l.me]);
  }
}
