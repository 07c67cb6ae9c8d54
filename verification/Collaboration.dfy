/** Who has worked with whom: users and projects of a commits frame, expanded by turns. */
module Collaboration {
  import opened Bytes
  import opened Frames
  import opened SharedFilters
  import opened Wrappers

  /** A row of the commits frame: project, author and committer are there. */
  predicate CommitRow(row: Row) {
    IntAt(row, 0) && IntAt(row, 1) && IntAt(row, 2)
  }

  ghost predicate Commits(rows: seq<Row>) {
    forall r | 0 <= r < |rows| :: CommitRow(rows[r])
  }

  /** The user is the author or the committer of a commit to the project. */
  ghost predicate Touched(rows: seq<Row>, user: Int32, project: Int32) {
    exists r :: 0 <= r < |rows| && TouchedIn(rows[r], user, project)
  }

  predicate TouchedIn(row: Row, user: Int32, project: Int32) {
    CommitRow(row) && row[0].value.i == project && (row[1].value.i == user || row[2].value.i == user)
  }

  /** The two users touched a common project. */
  ghost predicate Together(rows: seq<Row>, u: Int32, v: Int32) {
    exists p: Int32 :: Touched(rows, u, p) && Touched(rows, v, p)
  }

  /** Each user of the walk touched a common project with the next one. */
  ghost predicate Walk(rows: seq<Row>, path: seq<Int32>) {
    path != [] && forall i {:trigger path[i]} | 0 < i < |path| :: Together(rows, path[i - 1], path[i])
  }

  ghost predicate ReachedBy(rows: seq<Row>, seeds: set<Int32>, user: Int32, path: seq<Int32>, d: nat) {
    Walk(rows, path) && |path| == d + 1 && path[0] in seeds && path[d] == user
  }

  // ---- what the filters compute ----

  ghost function ProjectsOf(rows: seq<Row>, users: set<Int32>): set<Int32>
    requires Commits(rows)
  {
    RowInts(EmitAll(UuidsToProjects(users), rows))
  }

  ghost function UsersOf(rows: seq<Row>, projects: set<Int32>): set<Int32>
    requires Commits(rows)
  {
    RowInts(EmitAll(ProjectsToUuids(projects), rows))
  }

  /** The users after d rounds, starting from `seeds`. */
  ghost function Reach(rows: seq<Row>, seeds: set<Int32>, d: nat): set<Int32>
    requires Commits(rows)
  {
    if d == 0 then seeds else UsersOf(rows, ProjectsOf(rows, Reach(rows, seeds, d - 1)))
  }

  lemma TouchedSnoc(rows: seq<Row>, row: Row, user: Int32, project: Int32)
    ensures Touched(rows + [row], user, project) <==> Touched(rows, user, project) || TouchedIn(row, user, project)
  {
    var more := rows + [row];
    if r :| 0 <= r < |rows| && TouchedIn(rows[r], user, project) {
      assert more[r] == rows[r];
    }
    assert more[|rows|] == row;
  }

  lemma EmitSnoc(f: Filter, rows: seq<Row>, row: Row)
    requires AllReadable(f, rows) && Readable(f, row)
    ensures AllReadable(f, rows + [row]) && EmitAll(f, rows + [row]) == EmitAll(f, rows) + Emit(f, row)
  {
  }

  /** The projects a users-to-projects filter yields are those that one of the users touched. */
  lemma {:induction false} ProjectsAreTouched(rows: seq<Row>, users: set<Int32>, p: Int32)
    requires Commits(rows)
    ensures p in ProjectsOf(rows, users) <==> exists u :: u in users && Touched(rows, u, p)
    decreases |rows|
  {
    if rows != [] {
      var init, row := rows[..|rows| - 1], rows[|rows| - 1];
      assert rows == init + [row];
      ProjectsAreTouched(init, users, p);
      EmitSnoc(UuidsToProjects(users), init, row);
      forall u ensures Touched(rows, u, p) <==> Touched(init, u, p) || TouchedIn(row, u, p) {
        TouchedSnoc(init, row, u, p);
      }
      var cells := Emit(UuidsToProjects(users), row);
      assert Some(Int(p)) in cells <==> row[0].value.i == p && (row[1].value.i in users || row[2].value.i in users);
    }
  }

  /** The users a projects-to-users filter yields are those that touched one of the projects. */
  lemma {:induction false} UsersTouched(rows: seq<Row>, projects: set<Int32>, u: Int32)
    requires Commits(rows)
    ensures u in UsersOf(rows, projects) <==> exists p :: p in projects && Touched(rows, u, p)
    decreases |rows|
  {
    if rows != [] {
      var init, row := rows[..|rows| - 1], rows[|rows| - 1];
      assert rows == init + [row];
      UsersTouched(init, projects, u);
      EmitSnoc(ProjectsToUuids(projects), init, row);
      forall p ensures Touched(rows, u, p) <==> Touched(init, u, p) || TouchedIn(row, u, p) {
        TouchedSnoc(init, row, u, p);
      }
      var cells := Emit(ProjectsToUuids(projects), row);
      assert Some(Int(u)) in cells <==> row[0].value.i in projects && (row[1].value.i == u || row[2].value.i == u);
    }
  }

  /** One round adds exactly the users that touched a common project with one of `users`. */
  lemma OneRound(rows: seq<Row>, users: set<Int32>, v: Int32)
    requires Commits(rows)
    ensures v in UsersOf(rows, ProjectsOf(rows, users)) <==> exists u :: u in users && Together(rows, u, v)
  {
    hide ProjectsOf, UsersOf, Touched;
    var projects := ProjectsOf(rows, users);
    UsersTouched(rows, projects, v);
    if v in UsersOf(rows, projects) {
      var p :| p in projects && Touched(rows, v, p);
      ProjectsAreTouched(rows, users, p);
      var u :| u in users && Touched(rows, u, p);
      assert Together(rows, u, v);
    }
    if u :| u in users && Together(rows, u, v) {
      var p :| Touched(rows, u, p) && Touched(rows, v, p);
      ProjectsAreTouched(rows, users, p);
    }
  }

  // ---- walks ----

  lemma WalkExtends(rows: seq<Row>, seeds: set<Int32>, u: Int32, path: seq<Int32>, d: nat, v: Int32)
    requires ReachedBy(rows, seeds, u, path, d) && Together(rows, u, v)
    ensures ReachedBy(rows, seeds, v, path + [v], d + 1)
  {
  }

  lemma WalkShrinks(rows: seq<Row>, seeds: set<Int32>, v: Int32, path: seq<Int32>, d: nat)
    requires d > 0 && ReachedBy(rows, seeds, v, path, d)
    ensures ReachedBy(rows, seeds, path[d - 1], path[..d], d - 1) && Together(rows, path[d - 1], v)
  {
  }

  /**
    The users after d rounds are exactly those at the end of a walk of d steps from a seed,
    where each step goes to a user that touched a common project.
   */
  lemma {:induction false} ReachIsWalks(rows: seq<Row>, seeds: set<Int32>, d: nat, v: Int32)
    requires Commits(rows)
    ensures v in Reach(rows, seeds, d) <==> exists path :: ReachedBy(rows, seeds, v, path, d)
    decreases d
  {
    hide ProjectsOf, UsersOf, Together;
    if d == 0 {
      if v in seeds {
        assert ReachedBy(rows, seeds, v, [v], 0);
      }
    } else {
      OneRound(rows, Reach(rows, seeds, d - 1), v);
      if v in Reach(rows, seeds, d) {
        var u :| u in Reach(rows, seeds, d - 1) && Together(rows, u, v);
        ReachIsWalks(rows, seeds, d - 1, u);
        var path :| ReachedBy(rows, seeds, u, path, d - 1);
        WalkExtends(rows, seeds, u, path, d - 1, v);
      }
      if path :| ReachedBy(rows, seeds, v, path, d) {
        WalkShrinks(rows, seeds, v, path, d);
        ReachIsWalks(rows, seeds, d - 1, path[d - 1]);
      }
    }
  }

  // ---- balls ----

  /** The user appears in some commit. */
  ghost predicate Active(rows: seq<Row>, u: Int32) {
    exists p: Int32 :: Touched(rows, u, p)
  }

  lemma ActiveIsTogether(rows: seq<Row>, u: Int32)
    ensures Active(rows, u) <==> Together(rows, u, u)
  {
  }

  /** Once reached, a user stays reached. */
  lemma {:induction false} RoundKeeps(rows: seq<Row>, seeds: set<Int32>, d: nat)
    requires Commits(rows) && forall u | u in seeds :: Active(rows, u)
    ensures Reach(rows, seeds, d) <= Reach(rows, seeds, d + 1)
    decreases d
  {
    hide ProjectsOf, UsersOf, Active, Together;
    forall v | v in Reach(rows, seeds, d) ensures v in Reach(rows, seeds, d + 1) {
      ActiveIsTogether(rows, v);
      if d > 0 {
        ReachedIsActive(rows, seeds, d, v);
      }
      OneRound(rows, Reach(rows, seeds, d), v);
    }
  }

  lemma ReachedIsActive(rows: seq<Row>, seeds: set<Int32>, d: nat, v: Int32)
    requires Commits(rows) && d > 0 && v in Reach(rows, seeds, d)
    ensures Active(rows, v)
  {
    hide ProjectsOf, UsersOf;
    OneRound(rows, Reach(rows, seeds, d - 1), v);
  }

  /** For one seed the sets are nested exactly when the seed appears in some commit; if it does
      not, all later sets are empty. */
  lemma NestedIffActive(rows: seq<Row>, seed: Int32, d: nat)
    requires Commits(rows)
    ensures Active(rows, seed) <==> {seed} <= Reach(rows, {seed}, 1)
    ensures Active(rows, seed) ==> Reach(rows, {seed}, d) <= Reach(rows, {seed}, d + 1)
    ensures !Active(rows, seed) ==> Reach(rows, {seed}, d + 1) == {}
    decreases d
  {
    hide ProjectsOf, UsersOf, Active, Together, Reach;
    FirstRound(rows, seed);
    ActiveIsTogether(rows, seed);
    if Active(rows, seed) {
      RoundKeeps(rows, {seed}, d);
    } else {
      StaysEmpty(rows, seed, d);
    }
  }

  lemma FirstRound(rows: seq<Row>, seed: Int32)
    requires Commits(rows)
    ensures seed in Reach(rows, {seed}, 1) <==> Together(rows, seed, seed)
  {
    hide ProjectsOf, UsersOf, Together;
    assert Reach(rows, {seed}, 0) == {seed};
    OneRound(rows, {seed}, seed);
  }

  lemma {:induction false} StaysEmpty(rows: seq<Row>, seed: Int32, d: nat)
    requires Commits(rows) && !Active(rows, seed)
    ensures Reach(rows, {seed}, d + 1) == {}
    decreases d
  {
    hide ProjectsOf, UsersOf;
    assert Reach(rows, {seed}, 0) == {seed};
    if d > 0 {
      StaysEmpty(rows, seed, d - 1);
    }
    var reached := Reach(rows, {seed}, d + 1);
    forall v {:trigger v in reached} ensures !(v in reached) {
      OneRound(rows, Reach(rows, {seed}, d), v);
    }
  }

  /** The user is at most d collaboration steps away from the seed. */
  ghost predicate Within(rows: seq<Row>, seed: Int32, v: Int32, d: nat) {
    exists e: nat, path :: e <= d && ReachedBy(rows, {seed}, v, path, e)
  }

  lemma {:induction false} NestedUpTo(rows: seq<Row>, seeds: set<Int32>, e: nat, d: nat)
    requires Commits(rows) && e <= d && forall u | u in seeds :: Active(rows, u)
    ensures Reach(rows, seeds, e) <= Reach(rows, seeds, d)
    decreases d
  {
    hide Reach, Active;
    if e < d {
      NestedUpTo(rows, seeds, e, d - 1);
      RoundKeeps(rows, seeds, d - 1);
    }
  }

  /** If the seed appears in some commit, the users after d rounds are the ball of radius d. */
  lemma ReachIsBall(rows: seq<Row>, seed: Int32, d: nat, v: Int32)
    requires Commits(rows) && Active(rows, seed)
    ensures v in Reach(rows, {seed}, d) <==> Within(rows, seed, v, d)
  {
    hide Reach, Active, ReachedBy;
    ReachIsWalks(rows, {seed}, d, v);
    if Within(rows, seed, v, d) {
      var e: nat, path :| e <= d && ReachedBy(rows, {seed}, v, path, e);
      ReachIsWalks(rows, {seed}, e, v);
      NestedUpTo(rows, {seed}, e, d);
    }
  }

  /** Once two consecutive sets are equal, all later ones are. */
  lemma {:induction false} Stabilises(rows: seq<Row>, seeds: set<Int32>, d: nat, e: nat)
    requires Commits(rows) && d <= e && Reach(rows, seeds, d) == Reach(rows, seeds, d + 1)
    ensures Reach(rows, seeds, e) == Reach(rows, seeds, d)
    decreases e
  {
    hide ProjectsOf, UsersOf;
    if d < e {
      Stabilises(rows, seeds, d, e - 1);
    }
  }
}
