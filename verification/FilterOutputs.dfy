/** What the filters of Linus append, cell by cell: how often each value, and in which order. */
module FilterOutputs {
  import opened Bytes
  import opened Frames
  import opened SharedFilters
  import opened Wrappers

  // ---- rows that match ----

  /** The numbers of the rows with the property. */
  ghost function MatchingRows(rows: seq<Row>, p: Row -> bool): set<nat> {
    set r: nat | r < |rows| && p(rows[r])
  }

  lemma OneMoreMatching(rows: seq<Row>, row: Row, p: Row -> bool)
    ensures |MatchingRows(rows + [row], p)| == |MatchingRows(rows, p)| + if p(row) then 1 else 0
  {
    var before, after := MatchingRows(rows, p), MatchingRows(rows + [row], p);
    assert after == if p(row) then before + {|rows|} else before;
  }

  lemma NoneMatching(p: Row -> bool)
    ensures |MatchingRows([], p)| == 0
  {
    assert MatchingRows([], p) == {};
  }

  /** Column c of the row has an int of the set. */
  predicate Has(row: Row, c: nat, ids: set<Int32>) {
    c < |row| && row[c].Some? && row[c].value.Int? && row[c].value.i in ids
  }

  predicate CellIs(row: Row, c: nat, v: Value) {
    c < |row| && row[c] == Some(v)
  }

  // ---- how often ----

  /** A commit to project p, with a listed author or committer. */
  function CommitsTo(ids: set<Int32>, p: Int32): Row -> bool {
    row => CellIs(row, 0, Int(p)) && (Has(row, 1, ids) || Has(row, 2, ids))
  }

  /** A commit to a listed project, with u in column c. */
  function CommitsBy(ids: set<Int32>, u: Int32, c: nat): Row -> bool {
    row => Has(row, 0, ids) && CellIs(row, c, Int(u))
  }

  /** A listed user of that name. */
  function UsersNamed(ids: set<Int32>, name: Str): Row -> bool {
    row => Has(row, 0, ids) && CellIs(row, 1, Text(name))
  }

  /** A project is appended once for each commit to it with a listed author or committer. */
  lemma {:induction false} ProjectsCounted(rows: seq<Row>, ids: set<Int32>, p: Int32)
    requires AllReadable(UuidsToProjects(ids), rows)
    ensures multiset(EmitAll(UuidsToProjects(ids), rows))[Some(Int(p))] == |MatchingRows(rows, CommitsTo(ids, p))|
    decreases |rows|
  {
    if rows == [] {
      NoneMatching(CommitsTo(ids, p));
    } else {
      hide MatchingRows;
      var init, row := rows[..|rows| - 1], rows[|rows| - 1];
      assert rows == init + [row];
      ProjectsCounted(init, ids, p);
      OneMoreMatching(init, row, CommitsTo(ids, p));
    }
  }

  /** A user is appended once for each commit to a listed project as its author, and once more for
      each as its committer. */
  lemma {:induction false} UsersCounted(rows: seq<Row>, ids: set<Int32>, u: Int32)
    requires AllReadable(ProjectsToUuids(ids), rows)
    ensures multiset(EmitAll(ProjectsToUuids(ids), rows))[Some(Int(u))]
         == |MatchingRows(rows, CommitsBy(ids, u, 1))| + |MatchingRows(rows, CommitsBy(ids, u, 2))|
    decreases |rows|
  {
    if rows == [] {
      NoneMatching(CommitsBy(ids, u, 1));
      NoneMatching(CommitsBy(ids, u, 2));
    } else {
      hide MatchingRows;
      var init, row := rows[..|rows| - 1], rows[|rows| - 1];
      assert rows == init + [row];
      UsersCounted(init, ids, u);
      OneMoreMatching(init, row, CommitsBy(ids, u, 1));
      OneMoreMatching(init, row, CommitsBy(ids, u, 2));
    }
  }

  /** A name is appended once for each listed user who has it. */
  lemma {:induction false} NamesCounted(rows: seq<Row>, ids: set<Int32>, name: Str)
    requires AllReadable(UuidsToNames(ids), rows)
    ensures multiset(EmitAll(UuidsToNames(ids), rows))[Some(Text(name))] == |MatchingRows(rows, UsersNamed(ids, name))|
    decreases |rows|
  {
    if rows == [] {
      NoneMatching(UsersNamed(ids, name));
    } else {
      hide MatchingRows;
      var init, row := rows[..|rows| - 1], rows[|rows| - 1];
      assert rows == init + [row];
      NamesCounted(init, ids, name);
      OneMoreMatching(init, row, UsersNamed(ids, name));
    }
  }

  // ---- in which order ----

  /** The numbers of the rows with the property, in order. */
  function Hits(rows: seq<Row>, p: Row -> bool): (hits: seq<nat>)
    ensures forall k | 0 <= k < |hits| :: hits[k] < |rows|
    decreases |rows|
  {
    if rows == [] then []
    else
      var n := |rows| - 1;
      Hits(rows[..n], p) + if p(rows[n]) then [n] else []
  }

  /** Each of them once, and none left out. */
  lemma {:induction false} HitsAreMatching(rows: seq<Row>, p: Row -> bool)
    ensures forall j, k | 0 <= j < k < |Hits(rows, p)| :: Hits(rows, p)[j] < Hits(rows, p)[k]
    ensures forall r: nat :: r in Hits(rows, p) <==> r in MatchingRows(rows, p)
    decreases |rows|
  {
    if rows != [] {
      var n := |rows| - 1;
      var less, hits := Hits(rows[..n], p), Hits(rows, p);
      HitsAreMatching(rows[..n], p);
      forall r: nat ensures r in hits <==> r in MatchingRows(rows, p) {
        assert r in less <==> r in MatchingRows(rows[..n], p);
        assert r in hits <==> r in less || (p(rows[n]) && r == n);
      }
    }
  }

  lemma HitsSnoc(rows: seq<Row>, row: Row, p: Row -> bool)
    ensures Hits(rows + [row], p) == Hits(rows, p) + if p(row) then [|rows|] else []
  {
    assert (rows + [row])[..|rows|] == rows;
  }

  function HasAuthorOrCommitter(ids: set<Int32>): Row -> bool {
    row => Has(row, 1, ids) || Has(row, 2, ids)
  }

  function HasFirst(ids: set<Int32>): Row -> bool {
    row => Has(row, 0, ids)
  }

  /** The cells are those of column c of the rows `hits`, in order. */
  ghost predicate InColumn(cells: seq<Cell>, rows: seq<Row>, hits: seq<nat>, c: nat) {
    && |cells| == |hits|
    && forall k | 0 <= k < |hits| :: hits[k] < |rows| && c < |rows[hits[k]]| && cells[k] == rows[hits[k]][c]
  }

  /** The cells at even places, and those at odd places. */
  function Evens(cells: seq<Cell>): (s: seq<Cell>)
    ensures |s| == |cells| / 2 && forall k | 0 <= k < |s| :: s[k] == cells[2 * k]
  {
    seq(|cells| / 2, k requires 0 <= k < |cells| / 2 => cells[2 * k])
  }

  function Odds(cells: seq<Cell>): (s: seq<Cell>)
    ensures |s| == |cells| / 2 && forall k | 0 <= k < |s| :: s[k] == cells[2 * k + 1]
  {
    seq(|cells| / 2, k requires 0 <= k < |cells| / 2 => cells[2 * k + 1])
  }

  lemma PairSnoc(cells: seq<Cell>, a: Cell, b: Cell)
    requires |cells| % 2 == 0
    ensures Evens(cells + [a, b]) == Evens(cells) + [a] && Odds(cells + [a, b]) == Odds(cells) + [b]
  {
  }

  lemma InColumnSnoc(cells: seq<Cell>, rows: seq<Row>, hits: seq<nat>, c: nat, row: Row)
    requires InColumn(cells, rows, hits, c)
    ensures InColumn(cells, rows + [row], hits, c)
    ensures c < |row| ==> InColumn(cells + [row[c]], rows + [row], hits + [|rows|], c)
  {
    var more := rows + [row];
    forall k | 0 <= k < |hits| ensures hits[k] < |more| && c < |more[hits[k]]| && cells[k] == more[hits[k]][c] {
      assert more[hits[k]] == rows[hits[k]];
    }
  }

  /** `map` appends the projects in the order of the commits, and the names in the order of the
      users. */
  lemma {:induction false} OneColumnInOrder(f: Filter, rows: seq<Row>)
    requires AllReadable(f, rows) && !f.ProjectsToUuids?
    ensures var p := if f.UuidsToNames? then HasFirst(f.ids) else HasAuthorOrCommitter(f.ids);
            InColumn(EmitAll(f, rows), rows, Hits(rows, p), if f.UuidsToNames? then 1 else 0)
    decreases |rows|
  {
    if rows != [] {
      hide InColumn, Hits;
      var init, row := rows[..|rows| - 1], rows[|rows| - 1];
      assert rows == init + [row];
      var p := if f.UuidsToNames? then HasFirst(f.ids) else HasAuthorOrCommitter(f.ids);
      OneColumnInOrder(f, init);
      HitsSnoc(init, row, p);
      InColumnSnoc(EmitAll(f, init), init, Hits(init, p), if f.UuidsToNames? then 1 else 0, row);
    }
  }

  /** For each commit to a listed project it appends the author and then the committer. */
  lemma {:induction false} UsersInOrder(rows: seq<Row>, ids: set<Int32>)
    requires AllReadable(ProjectsToUuids(ids), rows)
    ensures var cells, hits := EmitAll(ProjectsToUuids(ids), rows), Hits(rows, HasFirst(ids));
            && |cells| == 2 * |hits|
            && InColumn(Evens(cells), rows, hits, 1) && InColumn(Odds(cells), rows, hits, 2)
    decreases |rows|
  {
    if rows != [] {
      hide InColumn, Hits, Evens, Odds;
      var f, init, row := ProjectsToUuids(ids), rows[..|rows| - 1], rows[|rows| - 1];
      assert rows == init + [row];
      UsersInOrder(init, ids);
      var cells, hits := EmitAll(f, init), Hits(init, HasFirst(ids));
      HitsSnoc(init, row, HasFirst(ids));
      InColumnSnoc(Evens(cells), init, hits, 1, row);
      InColumnSnoc(Odds(cells), init, hits, 2, row);
      if HasFirst(ids)(row) {
        PairSnoc(cells, row[1], row[2]);
      } else {
        assert cells + [] == cells;
      }
    }
  }
}
