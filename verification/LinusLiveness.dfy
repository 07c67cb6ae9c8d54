/** The application can always finish: whatever has happened so far, some continuation of the run sets
    every key of the commits node and of the users node. */
module LinusLiveness {
  import opened Bytes
  import opened Collaboration
  import opened Frames
  import opened LinusLogs
  import opened LinusTheorems
  import opened Protocol
  import opened ProtocolAvailability
  import opened ProtocolLiveness
  import opened ProtocolTheorems
  import opened SharedFilters
  import opened Wrappers
  import Linus
  import NetworkInvariant

  /** A user with a uuid and a name. */
  predicate CompleteUser(row: Row) {
    IntAt(row, 0) && |row| > 1 && row[1].Some? && row[1].value.Text?
  }

  /** The two nodes are connected, every user has a uuid and a name, and one of them is Linus. */
  ghost predicate Playable(cfg: Config, roles: Roles, h: History) {
    && GoodConfig(cfg) && LinusNetwork(cfg, roles) && Link(roles.users, roles.commits) in cfg.links
    && Rectangular(h.users) && (forall r | 0 <= r < |Rows(h.users)| :: CompleteUser(Rows(h.users)[r]))
    && CommitsTable(h.commits) && h.uuid.Some? && FirstLinus(Rows(h.users), h.uuid)
  }

  ghost predicate SameGame(h: History, h': History) {
    h'.users == h.users && h'.commits == h.commits && h'.uuid == h.uuid
  }

  // ---- what a longer run keeps ----

  lemma {:induction false} NoMoreEntries(steps: seq<Step>, steps': seq<Step>, n: NodeId)
    requires steps <= steps' && forall i | |steps| <= i < |steps'| :: !steps'[i].Put?
    ensures PutsAt(steps', n) == PutsAt(steps, n)
    decreases |steps'|
  {
    if |steps| < |steps'| {
      var init := steps'[..|steps'| - 1];
      NoMoreEntries(steps, init, n);
      assert PutsAt(init, n) + [] == PutsAt(init, n);
    } else {
      assert steps == steps';
    }
  }

  lemma StillReturned(cfg: Config, run: seq<State>, run': seq<State>, r: Read, key: Str, f: Frame)
    requires run <= run' && Returns(cfg, run, r, key, f)
    ensures Returns(cfg, run', r, key, f)
  {
    assert run'[r.at] == run[r.at];
  }

  /** The reads of the users node, and the one of the commits node if there was one, in a longer run. */
  lemma StillRead(cfg: Config, roles: Roles, run: seq<State>, steps: seq<Step>, run': seq<State>, h: History)
    requires LinusRun(cfg, roles, run, steps, h) && run <= run'
    ensures |PutsAt(steps, roles.commits)| > 1 ==> Returns(cfg, run', h.uuidRead, LinusUuidName(), h.uuidFrame)
    ensures forall d | 0 <= d < |h.degreeReads| ::
              Returns(cfg, run', h.degreeReads[d], UuidsName(d + 1), h.degreeFrames[d])
  {
    hide IsRun, Returns, UsersLog, CommitsLog, LinusNetwork;
    if |PutsAt(steps, roles.commits)| > 1 {
      StillReturned(cfg, run, run', h.uuidRead, LinusUuidName(), h.uuidFrame);
    }
    forall d | 0 <= d < |h.degreeReads|
      ensures Returns(cfg, run', h.degreeReads[d], UuidsName(d + 1), h.degreeFrames[d])
    {
      StillReturned(cfg, run, run', h.degreeReads[d], UuidsName(d + 1), h.degreeFrames[d]);
    }
  }

  // ---- one set ----

  /** The node sets a key of its own. */
  lemma Sets(cfg: Config, roles: Roles, run: seq<State>, steps: seq<Step>, n: NodeId, key: Str, value: Frame)
    returns (run': seq<State>, steps': seq<Step>)
    requires GoodConfig(cfg) && LinusNetwork(cfg, roles) && IsRun(cfg, run, steps)
    requires n in cfg.nodes && key in KeysOf(roles, n)
    ensures IsRun(cfg, run', steps') && run <= run' && steps <= steps'
    ensures PutsAt(steps', n) == PutsAt(steps, n) + [Entry(key, value)]
    ensures forall m | m != n :: PutsAt(steps', m) == PutsAt(steps, m)
  {
    hide IsRun, LinusNetwork, KeysOf;
    OneWriter(cfg, roles, key, n);
    RunLengths(cfg, run, steps);
    NetworkInvariant.RunHasInv(cfg, run, steps, |run| - 1);
    var a := Put(n, key, value);
    var t := OneStepOn(cfg, run, steps, a);
    run', steps' := run + [t], steps + [a];
    forall m ensures PutsAt(steps', m) == PutsAt(steps, m) + if m == n then [Entry(key, value)] else [] {
      PutsAtNext(steps, a, m);
    }
  }

  /** The frame that a filter makes of the rows when nothing is interleaved. */
  ghost function Made(f: Filter, rows: seq<Row>): Frame
    requires AllReadable(f, rows)
  {
    OneColumn(OutType(f), EmitAll(f, rows))
  }

  lemma CommitsFrameMade(commits: Frame, seeds: set<Int32>, k: nat)
    requires CommitsTable(commits) && k > 0
    ensures var f := CommitsFilter(Rows(commits), seeds, k);
            AllReadable(f, Rows(commits)) && CommitsFrameAt(Made(f, Rows(commits)), Rows(commits), seeds, k)
  {
    hide Rows, Rectangular, EmitAll, Commits, IdFrame;
    var rows, f := Rows(commits), CommitsFilter(Rows(commits), seeds, k);
    Linus.CommitsAreReadable(rows, f);
    var g := Made(f, rows);
    assert FilterOutput(g, f, rows);
    Linus.OutputIds(g, f, rows);
  }

  /** An entry with which the log of the commits node goes on. */
  lemma NextCommitsEntry(commits: Frame, seeds: set<Int32>, log: seq<Entry>) returns (e: Entry)
    requires CommitsLog(commits, seeds, log) && |log| < 15
    ensures e.name == CommitsNameAt(|log|) && CommitsLog(commits, seeds, log + [e])
  {
    hide CommitsLog, CommitsFrameAt, CommitsNameAt, Rows;
    CommitsTableOf(commits, seeds, log);
    var k := |log|;
    if k == 0 {
      e := Entry(CommitsNameAt(0), commits);
    } else {
      CommitsFrameMade(commits, seeds, k);
      e := Entry(CommitsNameAt(k), Made(CommitsFilter(Rows(commits), seeds, k), Rows(commits)));
    }
    Linus.CommitsLogGrows(commits, seeds, log, e);
  }

  lemma CommitsTableOf(commits: Frame, seeds: set<Int32>, log: seq<Entry>)
    requires CommitsLog(commits, seeds, log)
    ensures CommitsTable(commits)
  {
  }

  lemma NodesOf(cfg: Config, roles: Roles, h: History)
    requires Playable(cfg, roles, h)
    ensures roles.users in cfg.nodes && roles.commits in cfg.nodes && Link(roles.commits, roles.users) in cfg.links
    ensures GoodConfig(cfg) && LinusNetwork(cfg, roles) && roles.users != roles.commits
  {
    assert Reverse(Link(roles.users, roles.commits)) == Link(roles.commits, roles.users);
  }

  /** The commits node sets its next frame. */
  lemma CommitsGoesOn(cfg: Config, roles: Roles, run: seq<State>, steps: seq<Step>, h: History)
    returns (run': seq<State>, steps': seq<Step>)
    requires LinusRun(cfg, roles, run, steps, h) && Playable(cfg, roles, h) && |PutsAt(steps, roles.commits)| < 15
    requires |PutsAt(steps, roles.commits)| == 1 ==> Returns(cfg, run, h.uuidRead, LinusUuidName(), h.uuidFrame)
    ensures LinusRun(cfg, roles, run', steps', h) && run <= run' && steps <= steps'
    ensures |PutsAt(steps', roles.commits)| == |PutsAt(steps, roles.commits)| + 1
    ensures PutsAt(steps', roles.users) == PutsAt(steps, roles.users)
  {
    hide IsRun, Returns, UsersLog, CommitsLog, LinusNetwork, GoodConfig, KeysOf, IntSet, Rows;
    var log := PutsAt(steps, roles.commits);
    var e := NextCommitsEntry(h.commits, IntSet(Rows(h.uuidFrame)), log);
    NodesOf(cfg, roles, h);
    OwnersOf(roles, 1, |log|);
    run', steps' := Sets(cfg, roles, run, steps, roles.commits, e.name, e.value);
    StillRead(cfg, roles, run, steps, run', h);
    if |log| == 1 {
      StillReturned(cfg, run, run', h.uuidRead, LinusUuidName(), h.uuidFrame);
    }
  }

  /** An entry with which the log of the users node goes on. */
  lemma NextUsersEntry(users: Frame, uuid: Int32, frames: seq<Frame>, log: seq<Entry>) returns (e: Entry)
    requires UsersLog(users, Some(uuid), frames, log) && |log| < 9
    requires forall r | 0 <= r < |Rows(users)| :: CompleteUser(Rows(users)[r])
    requires |log| > 1 ==> |log| - 1 <= |frames| && Rectangular(frames[|log| - 2])
    ensures e.name == UsersNameAt(true, |log|) && UsersLog(users, Some(uuid), frames, log + [e])
  {
    hide IdFrame, UsersNameAt, IntSet, EmitAll, FirstLinus;
    var k := |log|;
    if k == 0 {
      e := Entry(UsersNameAt(true, 0), users);
    } else if k == 1 {
      Linus.Scalar(uuid);
      e := Entry(UsersNameAt(true, 1), OneColumn(IntType, [Some(Int(uuid))]));
    } else {
      var f := UuidsToNames(IntSet(Rows(frames[k - 2])));
      e := Entry(UsersNameAt(true, k), Made(f, Rows(users)));
      assert FilterOutput(e.value, f, Rows(users));
    }
    hide FilterOutput, Rows;
    Linus.UsersLogGrows(users, Some(uuid), frames, log, e);
  }

  /** The users node sets its next frame. */
  lemma UsersGoesOn(cfg: Config, roles: Roles, run: seq<State>, steps: seq<Step>, h: History)
    returns (run': seq<State>, steps': seq<Step>)
    requires LinusRun(cfg, roles, run, steps, h) && Playable(cfg, roles, h) && |PutsAt(steps, roles.users)| < 9
    requires |PutsAt(steps, roles.users)| > 1 ==> |PutsAt(steps, roles.users)| - 1 <= |h.degreeReads|
    ensures LinusRun(cfg, roles, run', steps', h) && run <= run' && steps <= steps'
    ensures |PutsAt(steps', roles.users)| == |PutsAt(steps, roles.users)| + 1
    ensures PutsAt(steps', roles.commits) == PutsAt(steps, roles.commits)
  {
    hide IsRun, Returns, UsersLog, CommitsLog, LinusNetwork, GoodConfig, KeysOf, IntSet, Rows, Rectangular, FirstLinus;
    var log := PutsAt(steps, roles.users);
    if |log| > 1 {
      DegreeIsRead(cfg, roles, run, steps, h, h.degreeReads[|log| - 2], |log| - 1, h.degreeFrames[|log| - 2]);
    }
    var e := NextUsersEntry(h.users, h.uuid.value, h.degreeFrames, log);
    NodesOf(cfg, roles, h);
    UsersNameOwned(roles, |log|);
    run', steps' := Sets(cfg, roles, run, steps, roles.users, e.name, e.value);
    StillRead(cfg, roles, run, steps, run', h);
  }

  lemma UsersNameOwned(roles: Roles, k: nat)
    requires k < 9
    ensures UsersNameAt(true, k) in KeysOf(roles, roles.users)
  {
    UsersNameIsKey(true, k);
  }

  // ---- one read ----

  /** An entry of the log is in the map. */
  lemma {:induction false} InReplay(m: Store, log: seq<Entry>, k: nat)
    requires k < |log|
    ensures log[k].name in Replay(m, log)
    decreases |log|
  {
    if k < |log| - 1 {
      InReplay(m, log[..|log| - 1], k);
    }
  }

  /** A node reads a key that another one has set. */
  lemma ReadsKey(cfg: Config, run: seq<State>, steps: seq<Step>, l: Link, k: nat)
    returns (run': seq<State>, steps': seq<Step>, r: Read, f: Frame)
    requires IsRun(cfg, run, steps) && l in cfg.links && GoodConfig(cfg) && k < |PutsAt(steps, l.peer)|
    ensures IsRun(cfg, run', steps') && run <= run' && steps <= steps'
    ensures forall i | |steps| <= i < |steps'| :: !steps'[i].Put?
    ensures Returns(cfg, run', r, PutsAt(steps, l.peer)[k].name, f)
  {
    hide IsRun;
    RunLengths(cfg, run, steps);
    var log := PutsAt(steps, l.peer);
    assert steps[..|steps|] == steps;
    LocalIsReplay(cfg, run, steps, |run| - 1, l.peer);
    InReplay(map[], log, k);
    var id;
    run', steps', id := HeldKeyCanBeRead(cfg, run, steps, l, log[k].name);
    RunLengths(cfg, run', steps');
    r, f := Read(|run'| - 1, l, id), Local(Last(run), l.peer)[log[k].name];
  }

  lemma StillLinusRun(cfg: Config, roles: Roles, run: seq<State>, steps: seq<Step>, run': seq<State>,
                      steps': seq<Step>, h: History)
    requires LinusRun(cfg, roles, run, steps, h) && IsRun(cfg, run', steps') && run <= run' && steps <= steps'
    requires forall i | |steps| <= i < |steps'| :: !steps'[i].Put?
    ensures LinusRun(cfg, roles, run', steps', h)
    ensures PutsAt(steps', roles.users) == PutsAt(steps, roles.users)
    ensures PutsAt(steps', roles.commits) == PutsAt(steps, roles.commits)
  {
    hide IsRun, Returns, UsersLog, CommitsLog, LinusNetwork;
    NoMoreEntries(steps, steps', roles.users);
    NoMoreEntries(steps, steps', roles.commits);
    StillRead(cfg, roles, run, steps, run', h);
  }

  /** The first set of the commits node does not depend on what it reads. */
  lemma AnySeeds(commits: Frame, seeds: set<Int32>, other: set<Int32>, log: seq<Entry>)
    requires CommitsLog(commits, seeds, log) && |log| <= 1
    ensures CommitsLog(commits, other, log)
  {
    hide Commits, Rectangular;
    forall k | 0 <= k < |log| ensures CommitsEntry(commits, other, k, log[k]) {
      assert CommitsEntry(commits, seeds, k, log[k]);
    }
  }

  lemma MoreFrames(users: Frame, uuid: Option<Int32>, frames: seq<Frame>, f: Frame, log: seq<Entry>)
    requires UsersLog(users, uuid, frames, log)
    ensures UsersLog(users, uuid, frames + [f], log)
  {
    hide IdFrame, FilterOutput, FirstLinus, UsersNameAt, IntSet, Rectangular;
    forall k | 0 <= k < |log| ensures UsersEntry(users, uuid, frames + [f], k, log[k]) {
      assert UsersEntry(users, uuid, frames, k, log[k]);
    }
  }

  lemma UuidLogged(users: Frame, uuid: Option<Int32>, frames: seq<Frame>, log: seq<Entry>)
    requires UsersLog(users, uuid, frames, log) && uuid.Some? && |log| > 1
    ensures log[1].name == LinusUuidName()
  {
    assert UsersEntry(users, uuid, frames, 1, log[1]);
  }

  lemma DegreeLogged(commits: Frame, seeds: set<Int32>, log: seq<Entry>, d: nat)
    requires CommitsLog(commits, seeds, log) && 1 <= d <= 7 && 2 * d < |log|
    ensures log[2 * d].name == UuidsName(d)
  {
    hide Commits, CommitsFrameAt, Rectangular;
    assert CommitsEntry(commits, seeds, 2 * d, log[2 * d]);
  }

  /** The commits node reads Linus' uuid. */
  lemma ReadsUuid(cfg: Config, roles: Roles, run: seq<State>, steps: seq<Step>, h: History)
    returns (run': seq<State>, steps': seq<Step>, h': History)
    requires LinusRun(cfg, roles, run, steps, h) && Playable(cfg, roles, h)
    requires |PutsAt(steps, roles.users)| > 1 && |PutsAt(steps, roles.commits)| <= 1
    ensures LinusRun(cfg, roles, run', steps', h') && run <= run' && steps <= steps'
    ensures h' == h.(uuidRead := h'.uuidRead, uuidFrame := h'.uuidFrame)
    ensures Returns(cfg, run', h'.uuidRead, LinusUuidName(), h'.uuidFrame)
    ensures PutsAt(steps', roles.users) == PutsAt(steps, roles.users)
    ensures PutsAt(steps', roles.commits) == PutsAt(steps, roles.commits)
  {
    hide IsRun, Returns, UsersLog, CommitsLog, LinusNetwork, GoodConfig, FirstLinus, IntSet, Rows, Rectangular;
    NodesOf(cfg, roles, h);
    UuidLogged(h.users, h.uuid, h.degreeFrames, PutsAt(steps, roles.users));
    var r, f;
    run', steps', r, f := ReadsKey(cfg, run, steps, Link(roles.commits, roles.users), 1);
    StillLinusRun(cfg, roles, run, steps, run', steps', h);
    UuidIsRead(cfg, roles, run', steps', h, r, f);
    AnySeeds(h.commits, IntSet(Rows(h.uuidFrame)), IntSet(Rows(f)), PutsAt(steps, roles.commits));
    h' := h.(uuidRead := r, uuidFrame := f);
  }

  /** The users node reads the users of the next degree. */
  lemma ReadsDegree(cfg: Config, roles: Roles, run: seq<State>, steps: seq<Step>, h: History)
    returns (run': seq<State>, steps': seq<Step>, h': History)
    requires LinusRun(cfg, roles, run, steps, h) && Playable(cfg, roles, h)
    requires |h.degreeReads| < 7 && |PutsAt(steps, roles.commits)| == 15
    ensures LinusRun(cfg, roles, run', steps', h') && run <= run' && steps <= steps'
    ensures h' == h.(degreeReads := h'.degreeReads, degreeFrames := h'.degreeFrames)
    ensures |h'.degreeReads| == |h.degreeReads| + 1
    ensures PutsAt(steps', roles.users) == PutsAt(steps, roles.users)
    ensures PutsAt(steps', roles.commits) == PutsAt(steps, roles.commits)
  {
    hide IsRun, Returns, UsersLog, CommitsLog, LinusNetwork, GoodConfig, FirstLinus, IntSet, Rows, Rectangular;
    NodesOf(cfg, roles, h);
    var d := |h.degreeReads| + 1;
    DegreeLogged(h.commits, IntSet(Rows(h.uuidFrame)), PutsAt(steps, roles.commits), d);
    var r, f;
    run', steps', r, f := ReadsKey(cfg, run, steps, Link(roles.users, roles.commits), 2 * d);
    StillLinusRun(cfg, roles, run, steps, run', steps', h);
    MoreFrames(h.users, h.uuid, h.degreeFrames, f, PutsAt(steps, roles.users));
    h' := h.(degreeReads := h.degreeReads + [r], degreeFrames := h.degreeFrames + [f]);
    forall c | 0 <= c < |h'.degreeReads|
      ensures Returns(cfg, run', h'.degreeReads[c], UuidsName(c + 1), h'.degreeFrames[c])
    {
      if c < |h.degreeReads| {
        assert Returns(cfg, run', h.degreeReads[c], UuidsName(c + 1), h.degreeFrames[c]);
      }
    }
  }

  // ---- to the end ----

  /** Sets and reads that are still to come. */
  ghost function ToCome(roles: Roles, steps: seq<Step>, h: History): int {
    (15 - |PutsAt(steps, roles.commits)|) + (9 - |PutsAt(steps, roles.users)|) + (7 - |h.degreeReads|)
  }

  lemma LogLimits(cfg: Config, roles: Roles, run: seq<State>, steps: seq<Step>, h: History)
    requires LinusRun(cfg, roles, run, steps, h) && h.uuid.Some?
    ensures |PutsAt(steps, roles.commits)| <= 15 && |PutsAt(steps, roles.users)| <= 9 && |h.degreeReads| <= 7
  {
  }

  /** One more set or read: the next one that can be made. */
  lemma OneMore(cfg: Config, roles: Roles, run: seq<State>, steps: seq<Step>, h: History)
    returns (run': seq<State>, steps': seq<Step>, h': History)
    requires LinusRun(cfg, roles, run, steps, h) && Playable(cfg, roles, h) && ToCome(roles, steps, h) > 0
    ensures LinusRun(cfg, roles, run', steps', h') && run <= run' && steps <= steps' && SameGame(h, h')
    ensures ToCome(roles, steps', h') < ToCome(roles, steps, h)
  {
    hide LinusRun, Returns, PutsAt;
    LogLimits(cfg, roles, run, steps, h);
    var a, b := |PutsAt(steps, roles.commits)|, |PutsAt(steps, roles.users)|;
    h' := h;
    if b < 2 {
      run', steps' := UsersGoesOn(cfg, roles, run, steps, h);
    } else if a == 1 {
      run', steps', h' := ReadsUuid(cfg, roles, run, steps, h);
      var run1, steps1 := run', steps';
      run', steps' := CommitsGoesOn(cfg, roles, run1, steps1, h');
    } else if a < 15 {
      run', steps' := CommitsGoesOn(cfg, roles, run, steps, h);
    } else if |h.degreeReads| < 7 {
      run', steps', h' := ReadsDegree(cfg, roles, run, steps, h);
    } else {
      run', steps' := UsersGoesOn(cfg, roles, run, steps, h);
    }
  }

  /**
    The application can always finish. However far the two nodes have come, and whatever else has
    happened in the network, some continuation of the run is one in which the commits node has set its
    fifteen keys, and the users node its nine, after reading the users of all seven degrees.
   */
  lemma {:induction false} CanFinish(cfg: Config, roles: Roles, run: seq<State>, steps: seq<Step>, h: History)
    returns (run': seq<State>, steps': seq<Step>, h': History)
    requires LinusRun(cfg, roles, run, steps, h) && Playable(cfg, roles, h)
    ensures LinusRun(cfg, roles, run', steps', h') && run <= run' && steps <= steps'
    ensures h'.users == h.users && h'.commits == h.commits && h'.uuid == h.uuid
    ensures |PutsAt(steps', roles.commits)| == 15 && |PutsAt(steps', roles.users)| == 9 && |h'.degreeReads| == 7
    decreases ToCome(roles, steps, h)
  {
    hide LinusRun, PutsAt;
    LogLimits(cfg, roles, run, steps, h);
    if ToCome(roles, steps, h) == 0 {
      run', steps', h' := run, steps, h;
    } else {
      var run1, steps1, h1 := OneMore(cfg, roles, run, steps, h);
      SamePlay(cfg, roles, h, h1);
      LogLimits(cfg, roles, run1, steps1, h1);
      run', steps', h' := CanFinish(cfg, roles, run1, steps1, h1);
    }
  }

  lemma SamePlay(cfg: Config, roles: Roles, h: History, h': History)
    requires Playable(cfg, roles, h) && SameGame(h, h')
    ensures Playable(cfg, roles, h')
  {
  }

  /** And it can start: in every network that connects the nodes, with any users and any commits. */
  lemma CanStart(cfg: Config, roles: Roles, h: History) returns (s: State)
    requires Playable(cfg, roles, h) && Rectangular(h.uuidFrame) && h.degreeReads == [] && h.degreeFrames == []
    ensures LinusRun(cfg, roles, [s], [], h)
  {
    hide LinusNetwork;
    s := FirstRun(cfg);
    assert PutsAt([], roles.users) == [] && PutsAt([], roles.commits) == [];
  }
}
