/** What the nodes of the Linus application set, in which order, and under which keys. */
module LinusLogs {
  import opened Bytes
  import opened Collaboration
  import opened Frames
  import opened SharedFilters
  import opened Wrappers
  import Protocol

  // ---- keys ----

  const DEGREES: nat := 7

  /** std::to_string of a degree. */
  function Digit(d: nat): Str
    requires d <= 9
  {
    [48 + d]
  }

  function CommitsName(): Str { Ascii("commits") }
  function LinusProjectsName(): Str { Ascii("linus_projects") }
  function UsersName(): Str { Ascii("users") }
  function LinusUuidName(): Str { Ascii("linus_uuid") }
  function ProjectsName(): Str { Ascii("projects") }

  function UuidsName(d: nat): Str
    requires d <= 9
  {
    Ascii("uuids_degree_") + Digit(d)
  }

  function ProjectsDegreeName(d: nat): Str
    requires d <= 9
  {
    Ascii("projects_degree_") + Digit(d)
  }

  function NamesName(d: nat): Str
    requires d <= 9
  {
    Ascii("degree") + Digit(d)
  }

  /** The key of the k-th `set` of the commits node: the commits, Linus' projects, and then by turns
      the users of a degree and the projects of these users. */
  const COMMITS_SETS: nat := 2 * DEGREES + 1

  function CommitsNameAt(k: nat): Str
    requires k < COMMITS_SETS
  {
    if k == 0 then CommitsName()
    else if k == 1 then LinusProjectsName()
    else if k % 2 == 0 then UuidsName(k / 2)
    else ProjectsDegreeName(k / 2)
  }

  /** The users node sets the users, Linus' uuid if it has found him, and the names of each degree. */
  function UsersSets(found: bool): nat {
    DEGREES + if found then 2 else 1
  }

  function UsersNameAt(found: bool, k: nat): Str
    requires k < UsersSets(found)
  {
    if k == 0 then UsersName()
    else if !found then NamesName(k)
    else if k == 1 then LinusUuidName()
    else NamesName(k - 1)
  }

  ghost function CommitsKeys(): set<Str> {
    set k: nat | k < COMMITS_SETS :: CommitsNameAt(k)
  }

  ghost function UsersKeys(): set<Str> {
    set k: nat | k < UsersSets(true) :: UsersNameAt(true, k)
  }

  ghost function ProjectsKeys(): set<Str> {
    {ProjectsName()}
  }

  /** The names of the entries, in order. */
  ghost predicate LogSpells(log: seq<Entry>, names: seq<string>) {
    |log| == |names| && forall k | 0 <= k < |log| :: Spells(log[k].name, names[k])
  }

  /** Every set of the commits node has been made, and these are its keys. */
  lemma CommitsSpelled(log: seq<Entry>)
    requires |log| == COMMITS_SETS && forall k | 0 <= k < |log| :: log[k].name == CommitsNameAt(k)
    ensures LogSpells(log, ["commits", "linus_projects", "uuids_degree_1", "projects_degree_1", "uuids_degree_2",
                            "projects_degree_2", "uuids_degree_3", "projects_degree_3", "uuids_degree_4",
                            "projects_degree_4", "uuids_degree_5", "projects_degree_5", "uuids_degree_6",
                            "projects_degree_6", "uuids_degree_7"])
  {
  }

  lemma UsersSpelled(log: seq<Entry>, found: bool)
    requires |log| == UsersSets(found) && forall k | 0 <= k < |log| :: log[k].name == UsersNameAt(found, k)
    ensures LogSpells(log, if found then ["users", "linus_uuid", "degree1", "degree2", "degree3", "degree4", "degree5",
                                          "degree6", "degree7"]
                           else ["users", "degree1", "degree2", "degree3", "degree4", "degree5", "degree6", "degree7"])
  {
  }

  /** What tells the keys apart: the first character, the length, and the digit at the end. */
  lemma CommitsNameShape(k: nat)
    requires k < COMMITS_SETS
    ensures var name := CommitsNameAt(k);
            if k == 0 then |name| == 7 && name[0] == 99
            else if k == 1 then |name| == 14 && name[0] == 108
            else if k % 2 == 0 then |name| == 14 && name[0] == 117 && name[13] == 48 + k / 2
            else |name| == 17 && name[0] == 112 && name[16] == 48 + k / 2
  {
  }

  lemma UsersNameShape(found: bool, k: nat)
    requires k < UsersSets(found)
    ensures var name := UsersNameAt(found, k);
            if k == 0 then |name| == 5
            else if found && k == 1 then |name| == 10
            else |name| == 7 && name[0] == 100 && name[6] == 48 + k - if found then 1 else 0
  {
  }

  lemma CommitsNamesDiffer(j: nat, k: nat)
    requires j < COMMITS_SETS && k < COMMITS_SETS && CommitsNameAt(j) == CommitsNameAt(k)
    ensures j == k
  {
    hide CommitsNameAt;
    CommitsNameShape(j);
    CommitsNameShape(k);
  }

  lemma UsersNamesDiffer(found: bool, j: nat, k: nat)
    requires j < UsersSets(found) && k < UsersSets(found) && UsersNameAt(found, j) == UsersNameAt(found, k)
    ensures j == k
  {
    hide UsersNameAt;
    UsersNameShape(found, j);
    UsersNameShape(found, k);
  }

  /** The key of each set of the users node is one of its keys. */
  lemma UsersNameIsKey(found: bool, k: nat)
    requires k < UsersSets(found)
    ensures UsersNameAt(found, k) in UsersKeys()
  {
    var j := if found || k == 0 then k else k + 1;
    assert UsersNameAt(found, k) == UsersNameAt(true, j);
  }

  /** No key is set by two of the nodes. */
  lemma KeysAreDisjoint()
    ensures CommitsKeys() !! UsersKeys() && CommitsKeys() !! ProjectsKeys() && UsersKeys() !! ProjectsKeys()
    ensures forall name :: name in ProjectsKeys() <==> Spells(name, "projects")
  {
    hide CommitsNameAt, UsersNameAt;
    forall name: Str ensures name in ProjectsKeys() <==> Spells(name, "projects") {
      assert Spells(name, "projects") ==> name == ProjectsName();
    }
    forall name | name in CommitsKeys() ensures name !in UsersKeys() + ProjectsKeys() {
      var k: nat :| k < COMMITS_SETS && CommitsNameAt(k) == name;
      CommitsNameShape(k);
      NotUsers(name);
    }
    forall name | name in UsersKeys() ensures |name| != 8 {
      var k: nat :| k < UsersSets(true) && UsersNameAt(true, k) == name;
      UsersNameShape(true, k);
    }
  }

  lemma NotUsers(name: Str)
    requires |name| == 14 || |name| == 17 || (|name| == 7 && name[0] == 99)
    ensures name !in UsersKeys() && name !in ProjectsKeys()
  {
    hide UsersNameAt;
    forall k: nat | k < UsersSets(true) ensures UsersNameAt(true, k) != name {
      UsersNameShape(true, k);
    }
  }

  // ---- values ----

  /** A frame from which the generator of ints makes `ids`. */
  ghost predicate IdFrame(f: Frame, ids: set<Int32>) {
    Rectangular(f) && IntsPresent(f) && IntSet(Rows(f)) == ids
  }

  function Torvalds(): Str { Ascii("torvalds") }

  predicate IsLinus(row: Row) {
    |row| > 1 && row[1] == Some(Text(Torvalds()))
  }

  /** A row of the users frame has two columns; the uuid of every row of that name is there. */
  predicate UserRow(row: Row) {
    |row| > 1 && (IsLinus(row) ==> IntAt(row, 0))
  }

  /** The first row of that name decides. */
  ghost predicate FirstLinus(rows: seq<Row>, uuid: Option<Int32>) {
    if uuid.None? then forall r | 0 <= r < |rows| :: !IsLinus(rows[r])
    else exists r :: 0 <= r < |rows| && LinusAt(rows, r, uuid.value)
  }

  ghost predicate LinusAt(rows: seq<Row>, r: nat, uuid: Int32)
    requires r < |rows|
  {
    IsLinus(rows[r]) && rows[r][0] == Some(Int(uuid)) && forall q | 0 <= q < r :: !IsLinus(rows[q])
  }

  /** The frame is what the filter makes of the rows: one column with the cells it appends, each as
      often as it is appended, in some order. */
  ghost predicate FilterOutput(g: Frame, f: Filter, rows: seq<Row>) {
    && AllReadable(f, rows)
    && exists cells :: g == OneColumn(OutType(f), cells) && multiset(cells) == multiset(EmitAll(f, rows))
  }

  // ---- logs ----

  /** One `set` of a node. */
  datatype Entry = Entry(name: Str, value: Frame)

  /** The local map after the sets of the log. */
  function Replay(m: Protocol.Store, log: seq<Entry>): Protocol.Store {
    if log == [] then m
    else
      var last := log[|log| - 1];
      Replay(m, log[..|log| - 1])[last.name := last.value]
  }

  lemma ReplayNext(m: Protocol.Store, log: seq<Entry>, e: Entry)
    ensures Replay(m, log + [e]) == Replay(m, log)[e.name := e.value]
  {
    assert (log + [e])[..|log|] == log;
  }

  /** An entry whose key is not set again is in the map. */
  lemma {:induction false} ReplayHolds(m: Protocol.Store, log: seq<Entry>, k: nat)
    requires k < |log| && forall j | k < j < |log| :: log[j].name != log[k].name
    ensures log[k].name in Replay(m, log) && Replay(m, log)[log[k].name] == log[k].value
    decreases |log|
  {
    if k < |log| - 1 {
      ReplayHolds(m, log[..|log| - 1], k);
    }
  }

  /** A key that is not set keeps what it had; nothing else is there. */
  lemma {:induction false} ReplayKeeps(m: Protocol.Store, log: seq<Entry>, name: Str)
    requires forall j | 0 <= j < |log| :: log[j].name != name
    ensures name in Replay(m, log) <==> name in m
    ensures name in m ==> Replay(m, log)[name] == m[name]
    decreases |log|
  {
    if log != [] {
      ReplayKeeps(m, log[..|log| - 1], name);
    }
  }

  ghost predicate CommitsTable(f: Frame) {
    Rectangular(f) && Commits(Rows(f))
  }

  /** The ids in the k-th frame of the commits node: the seeds, their projects, the users of these,
      and so on. */
  ghost function CommitsIds(rows: seq<Row>, seeds: set<Int32>, k: nat): set<Int32>
    requires Commits(rows)
  {
    if k % 2 == 0 then Reach(rows, seeds, k / 2) else ProjectsOf(rows, Reach(rows, seeds, k / 2))
  }

  /** The filter that makes the k-th frame from the one before. */
  ghost function CommitsFilter(rows: seq<Row>, seeds: set<Int32>, k: nat): Filter
    requires Commits(rows) && k > 0
  {
    if k % 2 == 1 then UuidsToProjects(CommitsIds(rows, seeds, k - 1))
    else ProjectsToUuids(CommitsIds(rows, seeds, k - 1))
  }

  /** The k-th frame after the first has the output of its filter, and so the ids. */
  ghost predicate CommitsFrameAt(f: Frame, rows: seq<Row>, seeds: set<Int32>, k: nat)
    requires Commits(rows) && k > 0
  {
    FilterOutput(f, CommitsFilter(rows, seeds, k), rows) && IdFrame(f, CommitsIds(rows, seeds, k))
  }

  ghost predicate CommitsEntry(commits: Frame, seeds: set<Int32>, k: nat, e: Entry)
    requires CommitsTable(commits) && k < COMMITS_SETS
  {
    && e.name == CommitsNameAt(k)
    && if k == 0 then e.value == commits else CommitsFrameAt(e.value, Rows(commits), seeds, k)
  }

  /** What a commits node may have set so far, after reading `seeds` as Linus' uuid. */
  ghost predicate CommitsLog(commits: Frame, seeds: set<Int32>, log: seq<Entry>) {
    && CommitsTable(commits) && |log| <= COMMITS_SETS
    && forall k {:trigger log[k]} | 0 <= k < |log| :: CommitsEntry(commits, seeds, k, log[k])
  }

  ghost predicate UsersEntry(users: Frame, uuid: Option<Int32>, frames: seq<Frame>, k: nat, e: Entry)
    requires Rectangular(users) && k < UsersSets(uuid.Some?)
  {
    && e.name == UsersNameAt(uuid.Some?, k)
    && if k == 0 then e.value == users
       else if uuid.Some? && k == 1 then IdFrame(e.value, {uuid.value})
       else
         var d := k - if uuid.Some? then 1 else 0;
         && d <= |frames| && Rectangular(frames[d - 1])
         && FilterOutput(e.value, UuidsToNames(IntSet(Rows(frames[d - 1]))), Rows(users))
  }

  /** What a users node may have set so far; `frames` are those it has read for the degrees. */
  ghost predicate UsersLog(users: Frame, uuid: Option<Int32>, frames: seq<Frame>, log: seq<Entry>) {
    && Rectangular(users) && FirstLinus(Rows(users), uuid) && |log| <= UsersSets(uuid.Some?)
    && forall k {:trigger log[k]} | 0 <= k < |log| :: UsersEntry(users, uuid, frames, k, log[k])
  }
}
