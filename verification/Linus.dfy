/** What the commits node and the users node of the Linus application execute. */
module Linus {
  import opened Bytes
  import opened Collaboration
  import opened DataFrames
  import opened Frames
  import opened KVStores
  import opened LinusLogs
  import opened Messages
  import opened Packets
  import opened SharedFilters
  import opened Wrappers
  import Protocol

  // ---- one filter ----

  lemma {:induction false} EmittedCells(f: Filter, rows: seq<Row>, cell: Cell)
    requires AllReadable(f, rows) && cell in EmitAll(f, rows)
    ensures cell.Some? && CellHasType(cell, OutType(f))
    decreases |rows|
  {
    var init := rows[..|rows| - 1];
    if cell in EmitAll(f, init) {
      EmittedCells(f, init, cell);
    }
  }

  lemma SameMembers(a: seq<Cell>, b: seq<Cell>)
    requires multiset(a) == multiset(b)
    ensures forall cell :: cell in a <==> cell in b
  {
    forall cell ensures cell in a <==> cell in b {
      assert cell in a <==> cell in multiset(a);
    }
  }

  /** The ints of a frame with one column are those of the column. */
  lemma ColumnIds(cells: seq<Cell>)
    requires forall cell | cell in cells :: cell.Some? && CellHasType(cell, IntType)
    ensures IdFrame(OneColumn(IntType, cells), RowInts(cells))
  {
    var f := OneColumn(IntType, cells);
    forall r | 0 <= r < |cells| ensures RowAt(f, r) == [cells[r]] {}
    forall i: Int32 ensures i in IntSet(Rows(f)) <==> i in RowInts(cells) {
      IntSetMembers(Rows(f), i);
      if i in RowInts(cells) {
        var r :| 0 <= r < |cells| && cells[r] == Some(Int(i));
        assert Some(Int(i)) in Rows(f)[r];
      }
      if r :| 0 <= r < |Rows(f)| && Some(Int(i)) in Rows(f)[r] {
        assert cells[r] == Some(Int(i));
      }
    }
  }

  /** A filter's output in any order holds the ids the filter yields. */
  lemma OutputIds(g: Frame, f: Filter, rows: seq<Row>)
    requires FilterOutput(g, f, rows) && OutType(f) == IntType
    ensures IdFrame(g, RowInts(EmitAll(f, rows)))
  {
    var output: seq<Cell> :| g == OneColumn(IntType, output) && multiset(output) == multiset(EmitAll(f, rows));
    SameMembers(output, EmitAll(f, rows));
    forall cell | cell in output ensures cell.Some? && CellHasType(cell, IntType) {
      EmittedCells(f, rows, cell);
    }
    ColumnIds(output);
    assert forall i: Int32 :: i in RowInts(output) <==> i in RowInts(EmitAll(f, rows));
  }

  /** Makes a filter, maps it over the frame in parallel, and finishes it. */
  method RunFilter(df: DataFrame, f: Filter) returns (out: DataFrame)
    requires df.Valid() && Rectangular(df.View()) && AllReadable(f, df.AllRows())
    ensures df.Valid() && df.View() == old(df.View()) && df.AllRows() == old(df.AllRows())
    ensures out.Valid() && FilterOutput(out.View(), f, old(df.AllRows()))
  {
    hide Rectangular, AllReadable, EmitAll, OneColumn, DataFrame.Valid, DataFrame.View, DataFrame.AllRows;
    var uf := new UnorderedFilter(f);
    Untouched(df);
    Pmap(df, uf);
    Untouched(df);
    ghost var cells := uf.Output();
    out := uf.FinishFilter();
    Untouched(df);
  }

  /** The frame holds these ids. */
  ghost predicate Ids(df: DataFrame, ids: set<Int32>)
    reads df, df.schema, df.columns
  {
    df.Valid() && IdFrame(df.View(), ids)
  }

  method CollectIds(source: DataFrame, ghost ids: set<Int32>) returns (collected: set<Int32>)
    requires Ids(source, ids)
    ensures collected == ids
  {
    collected := CollectInts(source);
  }

  // ---- remote reads and sets ----

  /** The packet with which a peer answers a request for the key. */
  ghost predicate AnswerFor(answer: Tlv, key: Str, f: Frame) {
    MessageFits(Reply(key, Some(f))) && answer == PacketOf(Reply(key, Some(f)))
  }

  /** The frame that a requester gets when the answer has come. */
  method Fetch(answer: Tlv, ghost key: Str, ghost f: Frame) returns (df: DataFrame)
    requires AnswerFor(answer, key, f)
    ensures fresh(df) && df.Valid() && df.View() == f
  {
    hide EncodeReply, DecodeReply, DataFrame.Valid, DataFrame.View;
    ReplyRoundTrip(key, Some(f));
    var _, frame := ReadReply(answer.value);
    df := frame;
  }

  /** What the network thread may do at any time: record keys that its peers announce. */
  method NetworkThread(store: KVStore, peerKeys: set<Str>)
    requires store.Valid() && store.Others().Keys <= peerKeys
    modifies store`otherNodes
    ensures store.Valid() && store.Others().Keys <= peerKeys
  {
    var heard: nat :| 0 <= heard;
    for i := 0 to heard
      invariant store.Valid() && store.Others().Keys <= peerKeys
    {
      if peerKeys != {} {
        var name :| name in peerKeys;
        var node: Protocol.NodeId :| 0 <= node;
        store.AddNonlocal(Key(name, node));
      }
    }
  }

  /** Sets a key of this node, while the network thread runs; `log` are the sets before. */
  method Publish(store: KVStore, key: Str, df: DataFrame, peerKeys: set<Str>,
                 ghost start: Protocol.Store, ghost log: seq<Entry>) returns (ghost log': seq<Entry>)
    requires store.Valid() && store.Others().Keys <= peerKeys && key !in peerKeys && df.Valid()
    requires store.localMap == Replay(start, log)
    modifies store
    ensures store.Valid() && store.Others().Keys <= peerKeys
    ensures log' == log + [Entry(key, old(df.View()))] && store.localMap == Replay(start, log')
  {
    hide DataFrame.View, DataFrame.Valid;
    var value := df.Table();
    NetworkThread(store, peerKeys);
    ReplayNext(start, log, Entry(key, value));
    store.Set(key, value);
    log' := log + [Entry(key, value)];
    NetworkThread(store, peerKeys);
  }

  // ---- the commits node ----

  ghost predicate CommitsFrame(df: DataFrame)
    reads df, df.schema, df.columns
  {
    df.Valid() && Rectangular(df.View()) && Commits(df.AllRows())
  }

  /** Rows without cells are no commits. */
  lemma CommitsHaveColumns(df: DataFrame)
    requires CommitsFrame(df)
    ensures CommitsTable(df.View()) && df.AllRows() == Rows(df.View())
  {
    assert df.AllRows() != [] ==> CommitRow(df.AllRows()[0]);
  }

  lemma CommitsAreReadable(rows: seq<Row>, f: Filter)
    requires Commits(rows) && !f.UuidsToNames?
    ensures AllReadable(f, rows)
  {
  }

  /** The projects that the users of a frame touched, as a frame. */
  method ProjectsFrame(cdf: DataFrame, users: DataFrame, ghost ids: set<Int32>) returns (out: DataFrame)
    requires CommitsFrame(cdf) && Ids(users, ids)
    ensures CommitsFrame(cdf) && cdf.View() == old(cdf.View()) && CommitsTable(cdf.View())
    ensures Ids(out, ProjectsOf(Rows(cdf.View()), ids))
    ensures FilterOutput(out.View(), UuidsToProjects(ids), Rows(cdf.View()))
  {
    hide Rectangular, AllReadable, EmitAll, Rows, OneColumn, IdFrame, Commits;
    hide DataFrame.Valid, DataFrame.View, DataFrame.AllRows;
    CommitsHaveColumns(cdf);
    ghost var rows := cdf.AllRows();
    var collected := CollectIds(users, ids);
    Untouched(cdf);
    CommitsAreReadable(rows, UuidsToProjects(collected));
    out := RunFilter(cdf, UuidsToProjects(collected));
    OutputIds(out.View(), UuidsToProjects(collected), rows);
  }

  /** The users that touched the projects of a frame, as a frame. */
  method UsersFrame(cdf: DataFrame, projects: DataFrame, ghost ids: set<Int32>) returns (out: DataFrame)
    requires CommitsFrame(cdf) && Ids(projects, ids)
    ensures CommitsFrame(cdf) && cdf.View() == old(cdf.View()) && CommitsTable(cdf.View())
    ensures Ids(out, UsersOf(Rows(cdf.View()), ids))
    ensures FilterOutput(out.View(), ProjectsToUuids(ids), Rows(cdf.View()))
  {
    hide Rectangular, AllReadable, EmitAll, Rows, OneColumn, IdFrame, Commits;
    hide DataFrame.Valid, DataFrame.View, DataFrame.AllRows;
    CommitsHaveColumns(cdf);
    ghost var rows := cdf.AllRows();
    var collected := CollectIds(projects, ids);
    Untouched(cdf);
    CommitsAreReadable(rows, ProjectsToUuids(collected));
    out := RunFilter(cdf, ProjectsToUuids(collected));
    OutputIds(out.View(), ProjectsToUuids(collected), rows);
  }

  /** The commits node after the sets of its log. */
  ghost predicate CommitsState(store: KVStore, cdf: DataFrame, peerKeys: set<Str>, start: Protocol.Store,
                               commits: Frame, seeds: set<Int32>, log: seq<Entry>)
    reads store, cdf, cdf.schema, cdf.columns
  {
    && CommitsFrame(cdf) && cdf.View() == commits
    && store.Valid() && store.Others().Keys <= peerKeys && peerKeys !! CommitsKeys()
    && CommitsLog(commits, seeds, log) && store.localMap == Replay(start, log)
  }

  lemma CommitsLogGrows(commits: Frame, seeds: set<Int32>, log: seq<Entry>, e: Entry)
    requires CommitsLog(commits, seeds, log) && |log| < COMMITS_SETS
    requires CommitsEntry(commits, seeds, |log|, e)
    ensures CommitsLog(commits, seeds, log + [e])
  {
    hide CommitsEntry, Rectangular, Commits;
    var log' := log + [e];
    forall k | 0 <= k < |log'| ensures CommitsEntry(commits, seeds, k, log'[k]) {
      if k < |log| {
        assert log'[k] == log[k];
      }
    }
  }

  lemma CommitsNameIsKey(k: nat)
    requires k < COMMITS_SETS
    ensures CommitsNameAt(k) in CommitsKeys()
  {
  }

  /** One set of the commits node after the first. */
  method SetIds(store: KVStore, cdf: DataFrame, key: Str, df: DataFrame, peerKeys: set<Str>,
                ghost start: Protocol.Store, ghost commits: Frame, ghost seeds: set<Int32>, ghost log: seq<Entry>)
    returns (ghost log': seq<Entry>)
    requires CommitsState(store, cdf, peerKeys, start, commits, seeds, log)
    requires 0 < |log| < COMMITS_SETS && key == CommitsNameAt(|log|)
    requires Ids(df, CommitsIds(Rows(commits), seeds, |log|))
    requires FilterOutput(df.View(), CommitsFilter(Rows(commits), seeds, |log|), Rows(commits))
    modifies store
    ensures CommitsState(store, cdf, peerKeys, start, commits, seeds, log') && |log'| == |log| + 1
    ensures Ids(df, CommitsIds(Rows(commits), seeds, |log|))
  {
    hide IdFrame, FilterOutput, CommitsFilter, Commits, CommitsIds, CommitsKeys, CommitsNameAt, Replay, Rows;
    hide Rectangular;
    hide DataFrame.Valid, DataFrame.View, KVStore.Valid, KVStore.Others;
    CommitsNameIsKey(|log|);
    log' := Publish(store, key, df, peerKeys, start, log);
    Untouched(cdf);
    Untouched(df);
    CommitsLogGrows(commits, seeds, log, Entry(key, df.View()));
  }

  /** Generates and sets the users of a degree. */
  method SetUsers(store: KVStore, cdf: DataFrame, projects: DataFrame, degree: nat, peerKeys: set<Str>,
                  ghost start: Protocol.Store, ghost commits: Frame, ghost seeds: set<Int32>, ghost log: seq<Entry>)
    returns (users: DataFrame, ghost log': seq<Entry>)
    requires 1 <= degree <= 7 && |log| == 2 * degree
    requires CommitsState(store, cdf, peerKeys, start, commits, seeds, log)
    requires Ids(projects, CommitsIds(Rows(commits), seeds, |log| - 1))
    modifies store
    ensures CommitsState(store, cdf, peerKeys, start, commits, seeds, log') && |log'| == |log| + 1
    ensures Ids(users, CommitsIds(Rows(commits), seeds, |log|))
  {
    hide IdFrame, FilterOutput, ProjectsOf, UsersOf, Commits, CommitsKeys, Rows, Rectangular, CommitsEntry, Replay;
    hide UuidsName, AllReadable;
    hide DataFrame.Valid, DataFrame.View, KVStore.Valid, KVStore.Others;
    users := UsersFrame(cdf, projects, CommitsIds(Rows(commits), seeds, |log| - 1));
    log' := SetIds(store, cdf, UuidsName(degree), users, peerKeys, start, commits, seeds, log);
  }

  /** Generates and sets the projects of these users. */
  method SetProjects(store: KVStore, cdf: DataFrame, users: DataFrame, degree: nat, peerKeys: set<Str>,
                     ghost start: Protocol.Store, ghost commits: Frame, ghost seeds: set<Int32>, ghost log: seq<Entry>)
    returns (projects: DataFrame, ghost log': seq<Entry>)
    requires 1 <= degree < 7 && |log| == 2 * degree + 1
    requires CommitsState(store, cdf, peerKeys, start, commits, seeds, log)
    requires Ids(users, CommitsIds(Rows(commits), seeds, |log| - 1))
    modifies store
    ensures CommitsState(store, cdf, peerKeys, start, commits, seeds, log') && |log'| == |log| + 1
    ensures Ids(projects, CommitsIds(Rows(commits), seeds, |log|))
  {
    hide IdFrame, FilterOutput, ProjectsOf, UsersOf, Commits, CommitsKeys, Rows, Rectangular, CommitsEntry, Replay;
    hide AllReadable, ProjectsDegreeName, Reach, DataFrame.Valid, DataFrame.View, KVStore.Valid, KVStore.Others;
    projects := ProjectsFrame(cdf, users, CommitsIds(Rows(commits), seeds, |log| - 1));
    log' := SetIds(store, cdf, ProjectsDegreeName(degree), projects, peerKeys, start, commits, seeds, log);
  }

  /** The commits are set before Linus' uuid is read, and his projects after it. */
  method SetCommits(store: KVStore, cdf: DataFrame, peerKeys: set<Str>, ghost seeds: set<Int32>)
    returns (ghost log: seq<Entry>)
    requires CommitsFrame(cdf)
    requires store.Valid() && store.Others().Keys <= peerKeys && peerKeys !! CommitsKeys()
    modifies store
    ensures CommitsState(store, cdf, peerKeys, old(store.localMap), old(cdf.View()), seeds, log) && |log| == 1
  {
    hide Rectangular, Commits, Rows, CommitsKeys, CommitsName;
    hide DataFrame.Valid, DataFrame.View, KVStore.Valid, KVStore.Others;
    CommitsHaveColumns(cdf);
    CommitsNameIsKey(0);
    log := Publish(store, CommitsName(), cdf, peerKeys, store.localMap, []);
    Untouched(cdf);
    CommitsLogGrows(cdf.View(), seeds, [], Entry(CommitsName(), cdf.View()));
  }

  /** Reads Linus' uuid, and generates and sets the projects he touched. */
  method SetLinusProjects(store: KVStore, cdf: DataFrame, answer: Tlv, peerKeys: set<Str>, ghost uuidFrame: Frame,
                          ghost start: Protocol.Store, ghost commits: Frame, ghost log: seq<Entry>)
    returns (projects: DataFrame, ghost log': seq<Entry>)
    requires AnswerFor(answer, LinusUuidName(), uuidFrame) && Rectangular(uuidFrame) && IntsPresent(uuidFrame)
    requires |log| == 1 && CommitsState(store, cdf, peerKeys, start, commits, IntSet(Rows(uuidFrame)), log)
    modifies store
    ensures CommitsState(store, cdf, peerKeys, start, commits, IntSet(Rows(uuidFrame)), log') && |log'| == 2
    ensures Ids(projects, CommitsIds(Rows(commits), IntSet(Rows(uuidFrame)), 1))
  {
    hide ProjectsOf, Commits, Rows, CommitsKeys, CommitsEntry, Rectangular, IntsPresent, IntSet, Replay;
    hide AnswerFor, LinusProjectsName, DataFrame.Valid, DataFrame.View, KVStore.Valid, KVStore.Others;
    ghost var seeds := IntSet(Rows(uuidFrame));
    var uuidDf := Fetch(answer, LinusUuidName(), uuidFrame);
    Untouched(cdf);
    projects := ProjectsFrame(cdf, uuidDf, seeds);
    log' := SetIds(store, cdf, LinusProjectsName(), projects, peerKeys, start, commits, seeds, log);
  }

  /** The loop over the degrees. */
  method SetDegrees(store: KVStore, cdf: DataFrame, projects: DataFrame, peerKeys: set<Str>,
                    ghost start: Protocol.Store, ghost commits: Frame, ghost seeds: set<Int32>, ghost log: seq<Entry>)
    returns (ghost log': seq<Entry>)
    requires |log| == 2 && CommitsState(store, cdf, peerKeys, start, commits, seeds, log)
    requires Ids(projects, CommitsIds(Rows(commits), seeds, 1))
    modifies store
    ensures CommitsState(store, cdf, peerKeys, start, commits, seeds, log') && |log'| == COMMITS_SETS
  {
    hide CommitsIds, Commits, Rows, CommitsKeys, CommitsEntry, Rectangular, Replay, Ids;
    hide DataFrame.Valid, DataFrame.View, KVStore.Valid, KVStore.Others;
    log' := log;
    var projectFrame := projects;
    var degree := 1;
    while degree <= 7
      invariant 1 <= degree <= 7 && |log'| == 2 * degree
      invariant CommitsState(store, cdf, peerKeys, start, commits, seeds, log')
      invariant Ids(projectFrame, CommitsIds(Rows(commits), seeds, |log'| - 1))
      decreases 7 - degree
    {
      var degreeUuids;
      degreeUuids, log' := SetUsers(store, cdf, projectFrame, degree, peerKeys, start, commits, seeds, log');
      if degree == 7 {
        break;
      }
      projectFrame, log' := SetProjects(store, cdf, degreeUuids, degree, peerKeys, start, commits, seeds, log');
      degree := degree + 1;
    }
  }

  /**
    The commits node: it sets the commits, reads Linus' uuid from the users node, and sets the
    projects and the users of each degree. Whatever its peers announce meanwhile, and however the
    threads of each `pmap` are interleaved, it sets these keys in this order, each once, and the
    ids in the k-th frame are those of k turns from users to projects and back.
   */
  method CommitsNode(store: KVStore, cdf: DataFrame, answer: Tlv, peerKeys: set<Str>, ghost uuidFrame: Frame)
    returns (ghost log: seq<Entry>)
    requires CommitsFrame(cdf) && AnswerFor(answer, LinusUuidName(), uuidFrame)
    requires Rectangular(uuidFrame) && IntsPresent(uuidFrame)
    requires store.Valid() && store.Others().Keys <= peerKeys && peerKeys !! CommitsKeys()
    modifies store
    ensures CommitsFrame(cdf) && cdf.View() == old(cdf.View())
    ensures store.Valid() && store.Others().Keys <= peerKeys
    ensures CommitsLog(cdf.View(), IntSet(Rows(uuidFrame)), log) && |log| == 15
    ensures LogSpells(log, ["commits", "linus_projects", "uuids_degree_1", "projects_degree_1", "uuids_degree_2",
                            "projects_degree_2", "uuids_degree_3", "projects_degree_3", "uuids_degree_4",
                            "projects_degree_4", "uuids_degree_5", "projects_degree_5", "uuids_degree_6",
                            "projects_degree_6", "uuids_degree_7"])
    ensures store.localMap == Replay(old(store.localMap), log)
  {
    hide CommitsIds, Commits, Rows, CommitsKeys, CommitsEntry, Rectangular, IntsPresent, IntSet, Replay, AnswerFor;
    hide Ids, DataFrame.Valid, DataFrame.View, KVStore.Valid, KVStore.Others;
    ghost var start, commits, seeds := store.localMap, cdf.View(), IntSet(Rows(uuidFrame));
    log := SetCommits(store, cdf, peerKeys, seeds);
    var projects;
    projects, log := SetLinusProjects(store, cdf, answer, peerKeys, uuidFrame, start, commits, log);
    log := SetDegrees(store, cdf, projects, peerKeys, start, commits, seeds, log);
    CommitsLogSpelled(commits, seeds, log);
  }

  lemma CommitsLogSpelled(commits: Frame, seeds: set<Int32>, log: seq<Entry>)
    requires CommitsLog(commits, seeds, log) && |log| == 15
    ensures LogSpells(log, ["commits", "linus_projects", "uuids_degree_1", "projects_degree_1", "uuids_degree_2",
                            "projects_degree_2", "uuids_degree_3", "projects_degree_3", "uuids_degree_4",
                            "projects_degree_4", "uuids_degree_5", "projects_degree_5", "uuids_degree_6",
                            "projects_degree_6", "uuids_degree_7"])
  {
    forall k | 0 <= k < |log| ensures log[k].name == CommitsNameAt(k) {
      assert CommitsEntry(commits, seeds, k, log[k]);
    }
    CommitsSpelled(log);
  }

  lemma UsersLogSpelled(users: Frame, uuid: Option<Int32>, frames: seq<Frame>, log: seq<Entry>)
    requires UsersLog(users, uuid, frames, log) && |log| == if uuid.Some? then 9 else 8
    ensures LogSpells(log, if uuid.Some? then ["users", "linus_uuid", "degree1", "degree2", "degree3", "degree4",
                                               "degree5", "degree6", "degree7"]
                           else ["users", "degree1", "degree2", "degree3", "degree4", "degree5", "degree6", "degree7"])
  {
    forall k | 0 <= k < |log| ensures log[k].name == UsersNameAt(uuid.Some?, k) {
      assert UsersEntry(users, uuid, frames, k, log[k]);
    }
    UsersSpelled(log, uuid.Some?);
  }

  // ---- the users node ----

  /** A row of the users frame has two columns; the uuid of every row of Linus' name is there. */
  ghost predicate UsersFrameOk(df: DataFrame)
    reads df, df.schema, df.columns
  {
    && df.Valid() && Rectangular(df.View())
    && forall r | 0 <= r < |df.AllRows()| :: UserRow(df.AllRows()[r])
  }

  lemma UsersHaveColumns(df: DataFrame)
    requires UsersFrameOk(df)
    ensures df.AllRows() == Rows(df.View())
  {
    assert df.AllRows() != [] ==> UserRow(df.AllRows()[0]);
  }

  /** The name in the row, which is its second cell, is that of the literal. */
  predicate NameSpells(row: Row, name: string) {
    |row| > 1 && row[1].Some? && row[1].value.Text? && Spells(row[1].value.s, name)
  }

  lemma LinusIsSpelled(rows: seq<Row>)
    ensures forall r | 0 <= r < |rows| :: IsLinus(rows[r]) <==> NameSpells(rows[r], "torvalds")
  {
    forall r | 0 <= r < |rows| ensures IsLinus(rows[r]) <==> NameSpells(rows[r], "torvalds") {
      if NameSpells(rows[r], "torvalds") {
        assert rows[r][1].value.s == Torvalds();
      }
    }
  }

  method FindLinus(udf: DataFrame) returns (uuid: Option<Int32>)
    requires UsersFrameOk(udf)
    ensures FirstLinus(udf.AllRows(), uuid)
    ensures uuid.None? ==> forall r | 0 <= r < |udf.AllRows()| :: !NameSpells(udf.AllRows()[r], "torvalds")
    ensures uuid.Some? ==>
              exists r :: 0 <= r < |udf.AllRows()| && NameSpells(udf.AllRows()[r], "torvalds")
                          && udf.AllRows()[r][0] == Some(Int(uuid.value))
                          && forall q | 0 <= q < r :: !NameSpells(udf.AllRows()[q], "torvalds")
  {
    hide IsLinus, NameSpells, Rectangular, DataFrame.Valid, DataFrame.View, DataFrame.AllRows;
    ghost var rows := udf.AllRows();
    LinusIsSpelled(rows);
    var n := udf.RowTotal();
    for r := 0 to n
      invariant forall q | 0 <= q < r :: !IsLinus(rows[q])
    {
      var row := udf.FillRow(r);
      assert row == rows[r] && UserRow(row);
      if IsLinus(row) {
        assert LinusAt(rows, r, row[0].value.i);
        return Some(row[0].value.i);
      }
    }
    return None;
  }

  /** A frame with one int. */
  method FromScalar(i: Int32) returns (df: DataFrame)
    ensures df.Valid() && IdFrame(df.View(), {i})
  {
    hide IdFrame, DataFrame.View, DataFrame.Valid;
    df := EmptyFrame(IntType);
    df.AddRow([Some(Int(i))]);
    Scalar(i);
  }

  lemma Scalar(i: Int32)
    ensures WithRow(OneColumn(IntType, []), [Some(Int(i))]) == OneColumn(IntType, [Some(Int(i))])
    ensures IdFrame(OneColumn(IntType, [Some(Int(i))]), {i})
  {
    hide IdFrame;
    assert WithRow(OneColumn(IntType, []), [Some(Int(i))]).columns[0] == [Some(Int(i))];
    ColumnIds([Some(Int(i))]);
    assert RowInts([Some(Int(i))]) == {i};
  }

  /** The users can be filtered by the ids of a frame that was read for a degree. */
  ghost predicate ReadForNames(users: Frame, read: Frame) {
    && Rectangular(users) && Rectangular(read) && IntsPresent(read)
    && AllReadable(UuidsToNames(IntSet(Rows(read))), Rows(users))
  }

  /** The names of the users whose uuids have come. */
  method NamesOf(udf: DataFrame, answer: Tlv, ghost key: Str, ghost read: Frame) returns (names: DataFrame)
    requires UsersFrameOk(udf) && AnswerFor(answer, key, read) && ReadForNames(udf.View(), read)
    ensures UsersFrameOk(udf) && udf.View() == old(udf.View())
    ensures names.Valid() && FilterOutput(names.View(), UuidsToNames(IntSet(Rows(read))), Rows(udf.View()))
  {
    hide AnswerFor, Rectangular, IntsPresent, IntSet, Rows, EmitAll, AllReadable, UserRow;
    hide DataFrame.Valid, DataFrame.View, DataFrame.AllRows;
    UsersHaveColumns(udf);
    var uuids := Fetch(answer, key, read);
    Untouched(udf);
    var collected := CollectInts(uuids);
    Untouched(udf);
    names := RunFilter(udf, UuidsToNames(collected));
  }

  /** The users node after the sets of its log. */
  ghost predicate UsersState(store: KVStore, udf: DataFrame, peerKeys: set<Str>, start: Protocol.Store, users: Frame,
                             uuid: Option<Int32>, frames: seq<Frame>, log: seq<Entry>)
    reads store, udf, udf.schema, udf.columns
  {
    && UsersFrameOk(udf) && udf.View() == users
    && store.Valid() && store.Others().Keys <= peerKeys && peerKeys !! UsersKeys()
    && UsersLog(users, uuid, frames, log) && store.localMap == Replay(start, log)
  }

  lemma UsersLogGrows(users: Frame, uuid: Option<Int32>, frames: seq<Frame>, log: seq<Entry>, e: Entry)
    requires UsersLog(users, uuid, frames, log) && |log| < UsersSets(uuid.Some?)
    requires UsersEntry(users, uuid, frames, |log|, e)
    ensures UsersLog(users, uuid, frames, log + [e])
  {
    hide UsersEntry, Rectangular, FirstLinus;
    var log' := log + [e];
    forall k | 0 <= k < |log'| ensures UsersEntry(users, uuid, frames, k, log'[k]) {
      if k < |log| {
        assert log'[k] == log[k];
      }
    }
  }

  /** Sets the users, and Linus' uuid if some row has his name. */
  method SetLinus(store: KVStore, udf: DataFrame, peerKeys: set<Str>, ghost frames: seq<Frame>)
    returns (uuid: Option<Int32>, ghost log: seq<Entry>)
    requires UsersFrameOk(udf)
    requires store.Valid() && store.Others().Keys <= peerKeys && peerKeys !! UsersKeys()
    modifies store
    ensures UsersState(store, udf, peerKeys, old(store.localMap), old(udf.View()), uuid, frames, log)
    ensures |log| == if uuid.Some? then 2 else 1
  {
    hide IdFrame, Rectangular, Rows, FirstLinus, UserRow, UsersKeys, UsersName, LinusUuidName;
    hide DataFrame.Valid, DataFrame.View, KVStore.Valid, KVStore.Others;
    ghost var start, users := store.localMap, udf.View();
    UsersHaveColumns(udf);
    UsersNameIsKey(false, 0);
    log := Publish(store, UsersName(), udf, peerKeys, start, []);
    Untouched(udf);
    uuid := FindLinus(udf);
    UsersLogGrows(users, uuid, frames, [], Entry(UsersName(), users));
    if uuid.Some? {
      log := SetUuid(store, udf, uuid.value, peerKeys, start, users, frames, log);
    }
  }

  method SetUuid(store: KVStore, udf: DataFrame, uuid: Int32, peerKeys: set<Str>, ghost start: Protocol.Store,
                 ghost users: Frame, ghost frames: seq<Frame>, ghost log: seq<Entry>) returns (ghost log': seq<Entry>)
    requires UsersState(store, udf, peerKeys, start, users, Some(uuid), frames, log) && |log| == 1
    modifies store
    ensures UsersState(store, udf, peerKeys, start, users, Some(uuid), frames, log') && |log'| == 2
  {
    hide IdFrame, Rectangular, Rows, FirstLinus, UserRow, UsersKeys, LinusUuidName, Replay;
    hide DataFrame.Valid, DataFrame.View, KVStore.Valid, KVStore.Others;
    UsersNameIsKey(true, 1);
    var scalar := FromScalar(uuid);
    Untouched(udf);
    label Found:
    UsersLogGrows(users, Some(uuid), frames, log, Entry(LinusUuidName(), scalar.View()));
    log' := Publish(store, LinusUuidName(), scalar, peerKeys, start, log);
    Untouched@Found(udf);
  }

  /** Reads the uuids of a degree, turns them into names, and sets them. */
  method SetNames(store: KVStore, udf: DataFrame, answer: Tlv, degree: nat, peerKeys: set<Str>,
                  ghost start: Protocol.Store, ghost users: Frame, ghost uuid: Option<Int32>,
                  ghost frames: seq<Frame>, ghost log: seq<Entry>)
    returns (ghost log': seq<Entry>)
    requires 1 <= degree <= 7 == |frames| && |log| == degree + if uuid.Some? then 1 else 0
    requires AnswerFor(answer, UuidsName(degree), frames[degree - 1]) && ReadForNames(users, frames[degree - 1])
    requires UsersState(store, udf, peerKeys, start, users, uuid, frames, log)
    modifies store
    ensures UsersState(store, udf, peerKeys, start, users, uuid, frames, log') && |log'| == |log| + 1
  {
    hide Rectangular, Rows, FirstLinus, UserRow, UsersKeys, FilterOutput, AnswerFor, UuidsName, NamesName, Replay;
    hide IntSet, IntsPresent, AllReadable, DataFrame.Valid, DataFrame.View, KVStore.Valid, KVStore.Others;
    UsersNameIsKey(uuid.Some?, |log|);
    var names := NamesOf(udf, answer, UuidsName(degree), frames[degree - 1]);
    label Generated:
    UsersLogGrows(users, uuid, frames, log, Entry(NamesName(degree), names.View()));
    log' := Publish(store, NamesName(degree), names, peerKeys, start, log);
    Untouched@Generated(udf);
  }

  /** The users node: it sets the users and Linus' uuid, reads the uuids of each degree from the
      commits node, and sets their names, each key once. */
  method UsersNode(store: KVStore, udf: DataFrame, answers: seq<Tlv>, peerKeys: set<Str>, ghost frames: seq<Frame>)
    returns (uuid: Option<Int32>, ghost log: seq<Entry>)
    requires UsersFrameOk(udf) && |answers| == |frames| == 7
    requires forall d | 0 <= d < 7 ::
               AnswerFor(answers[d], UuidsName(d + 1), frames[d]) && ReadForNames(udf.View(), frames[d])
    requires store.Valid() && store.Others().Keys <= peerKeys && peerKeys !! UsersKeys()
    modifies store
    ensures UsersFrameOk(udf) && udf.View() == old(udf.View())
    ensures store.Valid() && store.Others().Keys <= peerKeys
    ensures UsersLog(udf.View(), uuid, frames, log) && |log| == if uuid.Some? then 9 else 8
    ensures LogSpells(log, if uuid.Some? then ["users", "linus_uuid", "degree1", "degree2", "degree3", "degree4",
                                               "degree5", "degree6", "degree7"]
                           else ["users", "degree1", "degree2", "degree3", "degree4", "degree5", "degree6", "degree7"])
    ensures store.localMap == Replay(old(store.localMap), log)
  {
    hide Rectangular, Rows, UserRow, UsersKeys, UsersEntry, FirstLinus, AnswerFor, ReadForNames, UuidsName, Replay;
    hide DataFrame.Valid, DataFrame.View, KVStore.Valid, KVStore.Others;
    ghost var start, users := store.localMap, udf.View();
    uuid, log := SetLinus(store, udf, peerKeys, frames);
    for degree := 1 to 8
      invariant |log| == degree + if uuid.Some? then 1 else 0
      invariant UsersState(store, udf, peerKeys, start, users, uuid, frames, log)
    {
      assert AnswerFor(answers[degree - 1], UuidsName(degree), frames[degree - 1]);
      log := SetNames(store, udf, answers[degree - 1], degree, peerKeys, start, users, uuid, frames, log);
    }
    UsersLogSpelled(users, uuid, frames, log);
  }
}
