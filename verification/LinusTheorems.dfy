/** The application as a whole: from the users and the commits frame to what any node reads. */
module LinusTheorems {
  import opened Bytes
  import opened Collaboration
  import opened FilterOutputs
  import opened Frames
  import opened LinusLogs
  import opened NetworkInvariant
  import opened Protocol
  import opened ProtocolTheorems
  import opened SharedFilters
  import opened Wrappers

  // ---- one writer for each key ----

  datatype Roles = Roles(users: NodeId, commits: NodeId, projects: NodeId)

  ghost function Owners(roles: Roles): map<Str, NodeId> {
    map k | k in CommitsKeys() + UsersKeys() + ProjectsKeys() ::
      if k in CommitsKeys() then roles.commits else if k in UsersKeys() then roles.users else roles.projects
  }

  /** The keys a node may set. */
  ghost function KeysOf(roles: Roles, n: NodeId): set<Str> {
    (if n == roles.commits then CommitsKeys() else {})
    + (if n == roles.users then UsersKeys() else {})
    + (if n == roles.projects then ProjectsKeys() else {})
  }

  ghost predicate LinusNetwork(cfg: Config, roles: Roles) {
    && roles.users != roles.commits && roles.users != roles.projects && roles.commits != roles.projects
    && cfg.owner == Owners(roles)
  }

  /** The application gives every key one writer. */
  lemma OneWriter(cfg: Config, roles: Roles, k: Str, n: NodeId)
    requires LinusNetwork(cfg, roles)
    ensures k in KeysOf(roles, n) <==> k in cfg.owner && cfg.owner[k] == n
  {
    hide CommitsKeys, UsersKeys, ProjectsKeys;
    KeysAreDisjoint();
  }

  /** In every reachable state, no node knows one of its own keys to be remote, and every key it
      knows to be remote is one of another node of the application: what `CommitsNode` and
      `UsersNode` ask of the network thread. */
  lemma PeersAnnounceTheirOwn(cfg: Config, roles: Roles, run: seq<State>, steps: seq<Step>, i: nat, n: NodeId, k: Str)
    requires LinusNetwork(cfg, roles) && IsRun(cfg, run, steps) && i < |run| && n in cfg.nodes
    ensures Shape(cfg, run[i])
    ensures k in run[i].others[n] ==>
              k !in KeysOf(roles, n) && run[i].others[n][k] != n && k in KeysOf(roles, run[i].others[n][k])
  {
    RunHasInv(cfg, run, steps, i);
    assert NodeInv(cfg, run[i], n);
    if k in run[i].others[n] {
      var m := run[i].others[n][k];
      assert Link(n, m) in cfg.links;
      assert NodeInv(cfg, run[i], m);
      OneWriter(cfg, roles, k, m);
      OneWriter(cfg, roles, k, n);
    }
  }

  // ---- one node ----

  /** After `CommitsNode` its map holds, for each degree, exactly the users at the end of a walk of
      that many steps from one of the uuids it has read. */
  lemma StoredDegreeIsWalks(
    start: Store, commits: Frame, seeds: set<Int32>, log: seq<Entry>, d: nat, v: Int32)
    requires CommitsLog(commits, seeds, log) && |log| == 15 && 1 <= d <= 7
    ensures UuidsName(d) in Replay(start, log) && Rectangular(Replay(start, log)[UuidsName(d)])
    ensures v in IntSet(Rows(Replay(start, log)[UuidsName(d)]))
       <==> exists path :: ReachedBy(Rows(commits), seeds, v, path, d)
  {
    hide Reach, ReachedBy, IntSet, Rows, Commits, Replay, IntsPresent, Rectangular, FilterOutput;
    CommitsReplayed(start, commits, seeds, log, 2 * d);
    ReachIsWalks(Rows(commits), seeds, d, v);
  }

  /** Each frame that the node has set is in its map. */
  lemma CommitsReplayed(start: Store, commits: Frame, seeds: set<Int32>, log: seq<Entry>, k: nat)
    requires CommitsLog(commits, seeds, log) && k < |log|
    ensures CommitsTable(commits) && CommitsEntry(commits, seeds, k, log[k])
    ensures log[k].name in Replay(start, log) && Replay(start, log)[log[k].name] == log[k].value
  {
    hide CommitsTable, CommitsFrameAt, CommitsNameAt, Replay;
    assert CommitsEntry(commits, seeds, k, log[k]);
    forall j | k < j < |log| ensures log[j].name != log[k].name {
      assert CommitsEntry(commits, seeds, j, log[j]);
      if log[j].name == log[k].name {
        CommitsNamesDiffer(j, k);
      }
    }
    ReplayHolds(start, log, k);
  }

  // ---- runs of the application ----

  /** The sets of a node in the run, in order. */
  function PutsAt(steps: seq<Step>, n: NodeId): seq<Entry> {
    if steps == [] then []
    else
      var last := steps[|steps| - 1];
      PutsAt(steps[..|steps| - 1], n)
      + if last.Put? && last.node == n then [Entry(last.name, last.value)] else []
  }

  /** A remote read that had returned at time `at`. */
  datatype Read = Read(at: nat, link: Link, id: Id)

  ghost predicate Returns(cfg: Config, run: seq<State>, r: Read, key: Str, f: Frame) {
    && r.at < |run| && r.link in cfg.links && r.link in run[r.at].ends && r.id in run[r.at].ends[r.link].reqs
    && var request := run[r.at].ends[r.link].reqs[r.id];
       request.phase.Returned? && request.key == key && request.value == Some(f)
  }

  /** The two frames the application starts from, Linus as the users node finds him, and what the
      nodes have read: the commits node Linus' uuid, the users node the first degrees. */
  datatype History = History(
    users: Frame, commits: Frame, uuid: Option<Int32>,
    uuidRead: Read, uuidFrame: Frame, degreeReads: seq<Read>, degreeFrames: seq<Frame>)

  /** What the users node and the commits node have set, in any number of their sets, is what
      `UsersNode` and `CommitsNode` set, and what they went by was returned by remote reads. That the
      reads come before the sets is not needed. */
  ghost predicate LinusRun(cfg: Config, roles: Roles, run: seq<State>, steps: seq<Step>, h: History) {
    && LinusNetwork(cfg, roles) && IsRun(cfg, run, steps)
    && UsersLog(h.users, h.uuid, h.degreeFrames, PutsAt(steps, roles.users))
    && Rectangular(h.uuidFrame)
    && CommitsLog(h.commits, IntSet(Rows(h.uuidFrame)), PutsAt(steps, roles.commits))
    && (|PutsAt(steps, roles.commits)| > 1 ==> Returns(cfg, run, h.uuidRead, LinusUuidName(), h.uuidFrame))
    && |h.degreeReads| == |h.degreeFrames| <= 7
    && forall d | 0 <= d < |h.degreeReads| ::
         Returns(cfg, run, h.degreeReads[d], UuidsName(d + 1), h.degreeFrames[d])
  }

  lemma {:induction false} PutIsEntry(steps: seq<Step>, i: nat) returns (k: nat)
    requires i < |steps| && steps[i].Put?
    ensures k < |PutsAt(steps, steps[i].node)|
    ensures PutsAt(steps, steps[i].node)[k] == Entry(steps[i].name, steps[i].value)
    decreases |steps|
  {
    var init := steps[..|steps| - 1];
    if i == |init| {
      k := |PutsAt(init, steps[i].node)|;
    } else {
      assert init[i] == steps[i];
      k := PutIsEntry(init, i);
    }
  }

  /** What any read of an application key returns is an entry in the log of the key's owner. */
  lemma ReadIsLogged(
    cfg: Config, roles: Roles, run: seq<State>, steps: seq<Step>, r: Read, key: Str, f: Frame, n: NodeId)
    returns (k: nat)
    requires LinusNetwork(cfg, roles) && IsRun(cfg, run, steps) && Returns(cfg, run, r, key, f)
    requires key in KeysOf(roles, n)
    ensures k < |PutsAt(steps, n)| && PutsAt(steps, n)[k] == Entry(key, f)
  {
    hide IsRun, KeysOf, LinusNetwork;
    var i := ReadWasPut(cfg, run, steps, r.at, r.link, r.id);
    RunLengths(cfg, run, steps);
    PutByOwner(cfg, run, steps, i);
    OneWriter(cfg, roles, key, n);
    k := PutIsEntry(steps, i);
  }

  lemma PutsAtNext(steps: seq<Step>, a: Step, n: NodeId)
    ensures PutsAt(steps + [a], n)
         == PutsAt(steps, n) + if a.Put? && a.node == n then [Entry(a.name, a.value)] else []
  {
    assert (steps + [a])[..|steps|] == steps;
  }

  lemma LocalNext(cfg: Config, run: seq<State>, steps: seq<Step>, i: nat, n: NodeId)
    requires IsRun(cfg, run, steps) && i < |steps| && n in cfg.nodes
    ensures Shape(cfg, run[i]) && Shape(cfg, run[i + 1])
    ensures Local(run[i + 1], n) == if steps[i].Put? && steps[i].node == n
                                    then Local(run[i], n)[steps[i].name := steps[i].value] else Local(run[i], n)
  {
    hide IsRun;
    RunStepPuts(cfg, run, steps, i, n);
  }

  /** A node's map is, at any time of any run, the replay of its sets: each key with the value of its
      last set. */
  lemma {:induction false} LocalIsReplay(cfg: Config, run: seq<State>, steps: seq<Step>, i: nat, n: NodeId)
    requires IsRun(cfg, run, steps) && i < |run| && n in cfg.nodes
    ensures Shape(cfg, run[i]) && i <= |steps| && Local(run[i], n) == Replay(map[], PutsAt(steps[..i], n))
  {
    if i > 0 {
      hide IsRun, GoodConfig;
      RunLengths(cfg, run, steps);
      LocalIsReplay(cfg, run, steps, i - 1, n);
      LocalNext(cfg, run, steps, i - 1, n);
      var a, log := steps[i - 1], PutsAt(steps[..i - 1], n);
      assert steps[..i] == steps[..i - 1] + [a];
      PutsAtNext(steps[..i - 1], a, n);
      if a.Put? && a.node == n {
        ReplayNext(map[], log, Entry(a.name, a.value));
      } else {
        assert log + [] == log;
      }
    }
  }

  // ---- from the frames to what is read ----

  lemma UuidEntry(found: bool, k: nat)
    requires k < UsersSets(found) && UsersNameAt(found, k) == LinusUuidName()
    ensures found && k == 1
  {
    UsersNamesDiffer(true, if found || k == 0 then k else k + 1, 1);
  }

  lemma CommitsPlace(j: nat, k: nat)
    requires j < 15 && k < 15 && CommitsNameAt(j) == CommitsNameAt(k)
    ensures j == k
  {
    CommitsNamesDiffer(j, k);
  }

  lemma NamesEntry(found: bool, d: nat, k: nat)
    requires 1 <= d <= 7 && k < UsersSets(found) && UsersNameAt(found, k) == NamesName(d)
    ensures k == d + if found then 1 else 0
  {
    UsersNamesDiffer(found, k, d + if found then 1 else 0);
  }

  lemma OwnersOf(roles: Roles, d: nat, k: nat)
    requires 1 <= d <= 7 && k < 15
    ensures LinusUuidName() in KeysOf(roles, roles.users) && NamesName(d) in KeysOf(roles, roles.users)
    ensures CommitsNameAt(k) in KeysOf(roles, roles.commits)
  {
    UsersNameIsKey(true, 1);
    UsersNameIsKey(true, d + 1);
  }

  /** Whoever reads Linus' uuid gets the uuid of the first user of his name; it is read only if
      there is one. */
  lemma UuidIsRead(
    cfg: Config, roles: Roles, run: seq<State>, steps: seq<Step>, h: History, r: Read, f: Frame)
    requires LinusRun(cfg, roles, run, steps, h) && Returns(cfg, run, r, LinusUuidName(), f)
    ensures h.uuid.Some? && FirstLinus(Rows(h.users), h.uuid) && IdFrame(f, {h.uuid.value})
  {
    hide IsRun, LinusNetwork, CommitsLog, Returns, KeysOf, FirstLinus, UsersNameAt, LinusUuidName, IdFrame;
    OwnersOf(roles, 1, 0);
    var k := ReadIsLogged(cfg, roles, run, steps, r, LinusUuidName(), f, roles.users);
    UuidEntry(h.uuid.Some?, k);
  }

  /** Whoever reads a frame of the commits node gets the output of its filter, and its ids, for Linus. */
  lemma CommitsFrameIsRead(
    cfg: Config, roles: Roles, run: seq<State>, steps: seq<Step>, h: History, r: Read, k: nat, f: Frame)
    requires LinusRun(cfg, roles, run, steps, h) && 1 <= k < 15 && Returns(cfg, run, r, CommitsNameAt(k), f)
    ensures CommitsTable(h.commits) && h.uuid.Some? && FirstLinus(Rows(h.users), h.uuid)
    ensures CommitsFrameAt(f, Rows(h.commits), {h.uuid.value}, k)
  {
    hide IsRun, LinusNetwork, UsersLog, Returns, KeysOf, FirstLinus, CommitsNameAt, CommitsFrameAt, Commits;
    OwnersOf(roles, 1, k);
    var place := ReadIsLogged(cfg, roles, run, steps, r, CommitsNameAt(k), f, roles.commits);
    CommitsPlace(place, k);
    UuidIsRead(cfg, roles, run, steps, h, h.uuidRead, h.uuidFrame);
  }

  /** Whoever reads a degree gets a frame with exactly the users that are reached from him. */
  lemma DegreeIsRead(
    cfg: Config, roles: Roles, run: seq<State>, steps: seq<Step>, h: History, r: Read, d: nat, f: Frame)
    requires LinusRun(cfg, roles, run, steps, h) && 1 <= d <= 7 && Returns(cfg, run, r, UuidsName(d), f)
    ensures CommitsTable(h.commits) && h.uuid.Some? && FirstLinus(Rows(h.users), h.uuid)
    ensures IdFrame(f, Reach(Rows(h.commits), {h.uuid.value}, d))
  {
    hide LinusRun, Returns, FirstLinus, Commits, Reach, IdFrame, FilterOutput;
    assert CommitsNameAt(2 * d) == UuidsName(d);
    CommitsFrameIsRead(cfg, roles, run, steps, h, r, 2 * d, f);
  }

  /**
    From the commits frame to a remote read: in any run of the application, a read of
    uuids_degree_d that returns yields a frame that holds a user if and only if the user is at the
    end of a walk of d steps, each between two users who touched a common project, from the first
    user of Linus' name.
   */
  lemma DegreeIsWalks(
    cfg: Config, roles: Roles, run: seq<State>, steps: seq<Step>, h: History, r: Read, d: nat, f: Frame, v: Int32)
    requires LinusRun(cfg, roles, run, steps, h) && 1 <= d <= 7 && Returns(cfg, run, r, UuidsName(d), f)
    ensures Rectangular(f) && CommitsTable(h.commits) && h.uuid.Some? && FirstLinus(Rows(h.users), h.uuid)
    ensures v in IntSet(Rows(f))
       <==> exists path :: ReachedBy(Rows(h.commits), {h.uuid.value}, v, path, d)
  {
    hide LinusRun, Returns, ReachedBy, Reach, IntSet, Commits, FirstLinus;
    DegreeIsRead(cfg, roles, run, steps, h, r, d, f);
    ReachIsWalks(Rows(h.commits), {h.uuid.value}, d, v);
  }

  /** If Linus is in some commit it is the ball of radius d around him; otherwise it is empty. */
  lemma DegreeIsBall(
    cfg: Config, roles: Roles, run: seq<State>, steps: seq<Step>, h: History, r: Read, d: nat, f: Frame, v: Int32)
    requires LinusRun(cfg, roles, run, steps, h) && 1 <= d <= 7 && Returns(cfg, run, r, UuidsName(d), f)
    ensures Rectangular(f) && CommitsTable(h.commits) && h.uuid.Some?
    ensures v in IntSet(Rows(f))
       <==> Active(Rows(h.commits), h.uuid.value) && Within(Rows(h.commits), h.uuid.value, v, d)
  {
    hide LinusRun, Returns, ReachedBy, Reach, IntSet, Commits, Active, Within;
    DegreeIsRead(cfg, roles, run, steps, h, r, d, f);
    if Active(Rows(h.commits), h.uuid.value) {
      ReachIsBall(Rows(h.commits), h.uuid.value, d, v);
    } else {
      NestedIffActive(Rows(h.commits), h.uuid.value, d - 1);
    }
  }

  /** The project was touched by a user at the end of a walk of d steps from Linus. */
  ghost predicate ProjectReached(commits: seq<Row>, uuid: Int32, project: Int32, d: nat) {
    exists u, path :: ReachedBy(commits, {uuid}, u, path, d) && Touched(commits, u, project)
  }

  lemma ProjectsReached(commits: seq<Row>, uuid: Int32, project: Int32, d: nat)
    requires Commits(commits)
    ensures project in ProjectsOf(commits, Reach(commits, {uuid}, d)) <==> ProjectReached(commits, uuid, project, d)
  {
    hide ProjectsOf, Reach, ReachedBy, Touched, Commits;
    var users := Reach(commits, {uuid}, d);
    ProjectsAreTouched(commits, users, project);
    if u :| u in users && Touched(commits, u, project) {
      ReachIsWalks(commits, {uuid}, d, u);
    }
    if u, path :| ReachedBy(commits, {uuid}, u, path, d) && Touched(commits, u, project) {
      ReachIsWalks(commits, {uuid}, d, u);
    }
  }

  /** A read of linus_projects, or of projects_degree_d, yields the projects that were touched by the
      users at the end of a walk of no, or of d, steps. */
  lemma ProjectsAreRead(
    cfg: Config, roles: Roles, run: seq<State>, steps: seq<Step>, h: History, r: Read, d: nat, f: Frame, p: Int32)
    requires LinusRun(cfg, roles, run, steps, h) && d <= 6
    requires Returns(cfg, run, r, if d == 0 then LinusProjectsName() else ProjectsDegreeName(d), f)
    ensures Rectangular(f) && CommitsTable(h.commits) && h.uuid.Some?
    ensures p in IntSet(Rows(f)) <==> ProjectReached(Rows(h.commits), h.uuid.value, p, d)
  {
    hide LinusRun, Returns, FirstLinus, Commits, Reach, ProjectsOf, IntSet, FilterOutput, ProjectReached;
    assert CommitsNameAt(2 * d + 1) == if d == 0 then LinusProjectsName() else ProjectsDegreeName(d);
    CommitsFrameIsRead(cfg, roles, run, steps, h, r, 2 * d + 1, f);
    ProjectsReached(Rows(h.commits), h.uuid.value, p, d);
  }

  /** Column c of the row has a user at the end of a walk of d steps from Linus. */
  ghost predicate UserReached(commits: seq<Row>, row: Row, c: nat, uuid: Int32, d: nat) {
    IntAt(row, c) && exists path :: ReachedBy(commits, {uuid}, row[c].value.i, path, d)
  }

  /** The commits to the project by such a user. */
  ghost function CommitsToReached(commits: seq<Row>, uuid: Int32, p: Int32, d: nat): set<nat> {
    set r: nat | r < |commits| && CellIs(commits[r], 0, Int(p))
                 && (UserReached(commits, commits[r], 1, uuid, d) || UserReached(commits, commits[r], 2, uuid, d))
  }

  lemma CommitsToMatch(commits: seq<Row>, uuid: Int32, p: Int32, d: nat)
    requires Commits(commits)
    ensures MatchingRows(commits, CommitsTo(Reach(commits, {uuid}, d), p)) == CommitsToReached(commits, uuid, p, d)
  {
    hide Reach, ReachedBy;
    var users := Reach(commits, {uuid}, d);
    forall r: nat, c | r < |commits| && 1 <= c <= 2
      ensures Has(commits[r], c, users) <==> UserReached(commits, commits[r], c, uuid, d)
    {
      if IntAt(commits[r], c) {
        ReachIsWalks(commits, {uuid}, d, commits[r][c].value.i);
      }
    }
  }

  /** In such a frame a project occurs once for each of these commits. */
  lemma ProjectsAreCounted(
    cfg: Config, roles: Roles, run: seq<State>, steps: seq<Step>, h: History, r: Read, d: nat, f: Frame, p: Int32)
    requires LinusRun(cfg, roles, run, steps, h) && d <= 6
    requires Returns(cfg, run, r, if d == 0 then LinusProjectsName() else ProjectsDegreeName(d), f)
    ensures Rectangular(h.commits) && h.uuid.Some?
    ensures exists cells :: f == OneColumn(IntType, cells)
                            && multiset(cells)[Some(Int(p))] == |CommitsToReached(Rows(h.commits), h.uuid.value, p, d)|
  {
    hide LinusRun, Returns, FirstLinus, Commits, Reach, IdFrame, CommitsToReached, MatchingRows, EmitAll, AllReadable;
    assert CommitsNameAt(2 * d + 1) == if d == 0 then LinusProjectsName() else ProjectsDegreeName(d);
    CommitsFrameIsRead(cfg, roles, run, steps, h, r, 2 * d + 1, f);
    var rows, uuid := Rows(h.commits), h.uuid.value;
    assert CommitsFilter(rows, {uuid}, 2 * d + 1) == UuidsToProjects(Reach(rows, {uuid}, d));
    ProjectsCounted(rows, Reach(rows, {uuid}, d), p);
    CommitsToMatch(rows, uuid, p, d);
  }

  /** The commits of u, as the author (c is 1) or as the committer (c is 2), to a project that was
      touched by a user at the end of a walk of d steps. */
  ghost function CommitsReached(commits: seq<Row>, uuid: Int32, u: Int32, c: nat, d: nat): set<nat>
    requires Commits(commits)
  {
    set r: nat | r < |commits| && CellIs(commits[r], c, Int(u))
                 && ProjectReached(commits, uuid, commits[r][0].value.i, d)
  }

  lemma CommitsMatch(commits: seq<Row>, uuid: Int32, u: Int32, c: nat, d: nat)
    requires Commits(commits)
    ensures MatchingRows(commits, CommitsBy(ProjectsOf(commits, Reach(commits, {uuid}, d)), u, c))
         == CommitsReached(commits, uuid, u, c, d)
  {
    hide ProjectsOf, Reach, ProjectReached;
    var projects := ProjectsOf(commits, Reach(commits, {uuid}, d));
    forall r: nat | r < |commits|
      ensures CommitRow(commits[r])
      ensures commits[r][0].value.i in projects <==> ProjectReached(commits, uuid, commits[r][0].value.i, d)
    {
      ProjectsReached(commits, uuid, commits[r][0].value.i, d);
    }
  }

  /** In the frame that is read for a degree, a user occurs once for each of these commits. */
  lemma DegreeIsCounted(
    cfg: Config, roles: Roles, run: seq<State>, steps: seq<Step>, h: History, r: Read, d: nat, f: Frame, u: Int32)
    requires LinusRun(cfg, roles, run, steps, h) && 1 <= d <= 7 && Returns(cfg, run, r, UuidsName(d), f)
    ensures CommitsTable(h.commits) && h.uuid.Some?
    ensures exists cells :: f == OneColumn(IntType, cells)
                            && multiset(cells)[Some(Int(u))]
                               == |CommitsReached(Rows(h.commits), h.uuid.value, u, 1, d - 1)|
                                  + |CommitsReached(Rows(h.commits), h.uuid.value, u, 2, d - 1)|
  {
    hide LinusRun, Returns, FirstLinus, Commits, Reach, ProjectsOf, IdFrame, CommitsReached, MatchingRows, EmitAll;
    hide AllReadable;
    assert CommitsNameAt(2 * d) == UuidsName(d);
    CommitsFrameIsRead(cfg, roles, run, steps, h, r, 2 * d, f);
    var rows, uuid := Rows(h.commits), h.uuid.value;
    var projects := ProjectsOf(rows, Reach(rows, {uuid}, d - 1));
    assert CommitsFilter(rows, {uuid}, 2 * d) == ProjectsToUuids(projects);
    UsersCounted(rows, projects, u);
    CommitsMatch(rows, uuid, u, 1, d - 1);
    CommitsMatch(rows, uuid, u, 2, d - 1);
  }

  /** Whoever reads the names of a degree gets those of the users that are reached. */
  lemma NamesAreRead(
    cfg: Config, roles: Roles, run: seq<State>, steps: seq<Step>, h: History, r: Read, d: nat, g: Frame)
    requires LinusRun(cfg, roles, run, steps, h) && 1 <= d <= 7 && Returns(cfg, run, r, NamesName(d), g)
    ensures Rectangular(h.users) && CommitsTable(h.commits) && h.uuid.Some?
    ensures FilterOutput(g, UuidsToNames(Reach(Rows(h.commits), {h.uuid.value}, d)), Rows(h.users))
  {
    hide IsRun, LinusNetwork, CommitsLog, Returns, KeysOf, FirstLinus, UsersNameAt, NamesName, UuidsName;
    hide FilterOutput, Reach, Commits;
    OwnersOf(roles, d, 0);
    var k := ReadIsLogged(cfg, roles, run, steps, r, NamesName(d), g, roles.users);
    NamesEntry(h.uuid.Some?, d, k);
    assert Returns(cfg, run, h.degreeReads[d - 1], UuidsName(d), h.degreeFrames[d - 1]);
    DegreeIsRead(cfg, roles, run, steps, h, h.degreeReads[d - 1], d, h.degreeFrames[d - 1]);
  }

  /** The users of that name at the end of a walk of d steps. */
  ghost predicate NamedAndReached(row: Row, commits: seq<Row>, uuid: Int32, d: nat, name: Str) {
    && IntAt(row, 0) && |row| > 1 && row[1] == Some(Text(name))
    && exists path :: ReachedBy(commits, {uuid}, row[0].value.i, path, d)
  }

  ghost function RowsReached(h: History, d: nat, name: Str): set<nat>
    requires Rectangular(h.users) && CommitsTable(h.commits) && h.uuid.Some?
  {
    set r | 0 <= r < |Rows(h.users)| && NamedAndReached(Rows(h.users)[r], Rows(h.commits), h.uuid.value, d, name)
  }

  /**
    From both frames to a remote read: a read of degree_d that returns yields one column, in which
    a name occurs as often as there are users of that name at the end of a walk of d steps from
    Linus.
   */
  lemma NamesAreWalks(
    cfg: Config, roles: Roles, run: seq<State>, steps: seq<Step>, h: History, r: Read, d: nat, g: Frame, name: Str)
    requires LinusRun(cfg, roles, run, steps, h) && 1 <= d <= 7 && Returns(cfg, run, r, NamesName(d), g)
    ensures Rectangular(h.users) && CommitsTable(h.commits) && h.uuid.Some?
    ensures exists cells :: g == OneColumn(StringType, cells)
                            && multiset(cells)[Some(Text(name))] == |RowsReached(h, d, name)|
  {
    hide LinusRun, Returns, ReachedBy, Reach, Commits, IsRun;
    NamesAreRead(cfg, roles, run, steps, h, r, d, g);
    var users, reached := Rows(h.users), Reach(Rows(h.commits), {h.uuid.value}, d);
    var cells :| && g == OneColumn(StringType, cells)
                 && multiset(cells) == multiset(EmitAll(UuidsToNames(reached), users));
    NamesCounted(users, reached, name);
    forall i: nat | i < |users|
      ensures UsersNamed(reached, name)(users[i])
         <==> NamedAndReached(users[i], Rows(h.commits), h.uuid.value, d, name)
    {
      if IntAt(users[i], 0) {
        ReachIsWalks(Rows(h.commits), {h.uuid.value}, d, users[i][0].value.i);
      }
    }
    assert MatchingRows(users, UsersNamed(reached, name)) == RowsReached(h, d, name);
  }
}
