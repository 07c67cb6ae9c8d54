/** Rowers whose clones share one output frame under one mutex, and the set of ints of a frame. */
module SharedFilters {
  import opened Bytes
  import opened DataFrames
  import opened Frames
  import opened NullableArrays
  import opened ParallelMap
  import opened Wrappers

  // ---- what a filter appends ----

  /** The ids a filter looks for: users to projects and projects to users over a commits frame
      (project, author, committer), users to names over a users frame (uuid, name). */
  datatype Filter = UuidsToProjects(ids: set<Int32>) | ProjectsToUuids(ids: set<Int32>) | UuidsToNames(ids: set<Int32>)

  function OutType(f: Filter): ColType {
    if f.UuidsToNames? then StringType else IntType
  }

  predicate IntAt(row: Row, c: nat) {
    c < |row| && row[c].Some? && row[c].value.Int?
  }

  predicate Listed(f: Filter, row: Row, c: nat)
    requires IntAt(row, c)
  {
    row[c].value.i in f.ids
  }

  /** `accept` dereferences no missing cell of this row. */
  predicate Readable(f: Filter, row: Row) {
    match f
    case UuidsToProjects(_) =>
      && IntAt(row, 1) && (Listed(f, row, 1) || IntAt(row, 2))
      && (Listed(f, row, 1) || Listed(f, row, 2) ==> IntAt(row, 0))
    case ProjectsToUuids(_) =>
      IntAt(row, 0) && (Listed(f, row, 0) ==> IntAt(row, 1) && IntAt(row, 2))
    case UuidsToNames(_) =>
      IntAt(row, 0) && (Listed(f, row, 0) ==> |row| > 1 && row[1].Some? && row[1].value.Text?)
  }

  /** The cells `accept` appends for a row, each in its own critical section. */
  function Emit(f: Filter, row: Row): (cells: seq<Cell>)
    requires Readable(f, row)
    ensures |cells| <= 2
    ensures forall i | 0 <= i < |cells| :: cells[i].Some? && CellHasType(cells[i], OutType(f))
  {
    match f
    case UuidsToProjects(_) => if Listed(f, row, 1) || Listed(f, row, 2) then [row[0]] else []
    case ProjectsToUuids(_) => if Listed(f, row, 0) then [row[1], row[2]] else []
    case UuidsToNames(_) => if Listed(f, row, 0) then [row[1]] else []
  }

  ghost predicate AllReadable(f: Filter, rows: seq<Row>) {
    forall r | 0 <= r < |rows| :: Readable(f, rows[r])
  }

  /** What one thread appends for the rows, in order. */
  ghost function EmitAll(f: Filter, rows: seq<Row>): seq<Cell>
    requires AllReadable(f, rows)
    decreases |rows|
  {
    if rows == [] then [] else EmitAll(f, rows[..|rows| - 1]) + Emit(f, rows[|rows| - 1])
  }

  // ---- interleaved ----

  /** A thread handles each row in two steps, each of which appends at most one cell: step p is
      step p % 2 of row p / 2. */
  ghost function StepOf(f: Filter, rows: seq<Row>, p: nat): seq<Cell>
    requires AllReadable(f, rows) && p / 2 < |rows|
  {
    var cells := Emit(f, rows[p / 2]);
    if p % 2 < |cells| then [cells[p % 2]] else []
  }

  ghost function StepsOf(f: Filter, rows: seq<Row>, from: nat, till: nat): seq<Cell>
    requires AllReadable(f, rows) && from <= till <= 2 * |rows|
    decreases till
  {
    if from == till then [] else StepsOf(f, rows, from, till - 1) + StepOf(f, rows, till - 1)
  }

  lemma {:induction false} StepsSplit(f: Filter, rows: seq<Row>, from: nat, mid: nat, till: nat)
    requires AllReadable(f, rows) && from <= mid <= till <= 2 * |rows|
    ensures StepsOf(f, rows, from, till) == StepsOf(f, rows, from, mid) + StepsOf(f, rows, mid, till)
    decreases till
  {
    hide StepOf;
    if mid == till {
      assert StepsOf(f, rows, mid, till) == [];
    } else {
      StepsSplit(f, rows, from, mid, till - 1);
    }
  }

  lemma TwoSteps(f: Filter, rows: seq<Row>, r: nat)
    requires AllReadable(f, rows) && r < |rows|
    ensures StepOf(f, rows, 2 * r) + StepOf(f, rows, 2 * r + 1) == Emit(f, rows[r])
  {
    hide Emit, Readable;
    assert Readable(f, rows[r]);
    assert (2 * r) / 2 == r == (2 * r + 1) / 2 && (2 * r) % 2 == 0 && (2 * r + 1) % 2 == 1;
  }

  lemma StepsOfRow(f: Filter, rows: seq<Row>, r: nat)
    requires AllReadable(f, rows) && r < |rows|
    ensures StepsOf(f, rows, 0, 2 * r + 2) == StepsOf(f, rows, 0, 2 * r) + Emit(f, rows[r])
  {
    hide Emit, Readable, StepOf;
    TwoSteps(f, rows, r);
    var before, one, two := StepsOf(f, rows, 0, 2 * r), StepOf(f, rows, 2 * r), StepOf(f, rows, 2 * r + 1);
    assert StepsOf(f, rows, 0, 2 * r + 1) == before + one;
    assert before + one + two == before + (one + two);
  }

  lemma NoSteps(f: Filter, rows: seq<Row>)
    requires AllReadable(f, rows)
    ensures StepsOf(f, rows, 0, 0) == []
  {
  }

  lemma {:induction false} StepsAreRows(f: Filter, rows: seq<Row>, n: nat)
    requires AllReadable(f, rows) && n <= |rows|
    ensures StepsOf(f, rows, 0, 2 * n) == EmitAll(f, rows[..n])
  {
    hide Emit, Readable, StepOf, StepsOf;
    NoSteps(f, rows);
    if n > 0 {
      StepsAreRows(f, rows, n - 1);
      StepsOfRow(f, rows, n - 1);
      assert rows[..n][..n - 1] == rows[..n - 1];
    }
  }

  lemma StepsAreAll(f: Filter, rows: seq<Row>)
    requires AllReadable(f, rows)
    ensures StepsOf(f, rows, 0, 2 * |rows|) == EmitAll(f, rows)
  {
    hide StepsOf, EmitAll, AllReadable;
    StepsAreRows(f, rows, |rows|);
    assert rows[..|rows|] == rows;
  }

  lemma EmitNothing(f: Filter, rows: seq<Row>)
    requires rows == []
    ensures AllReadable(f, rows) && EmitAll(f, rows) == []
  {
  }

  lemma EmitNext(f: Filter, rows: seq<Row>, i: nat)
    requires AllReadable(f, rows) && i < |rows|
    ensures AllReadable(f, rows[..i]) && AllReadable(f, rows[..i + 1]) && Readable(f, rows[i])
    ensures EmitAll(f, rows[..i + 1]) == EmitAll(f, rows[..i]) + Emit(f, rows[i])
  {
    assert rows[..i + 1][..i] == rows[..i];
  }

  /** Everything that the workers before worker k have appended. */
  ghost function Appended(f: Filter, rows: seq<Row>, ranges: seq<Range>, at: seq<nat>, k: nat): multiset<Cell>
    requires AllReadable(f, rows) && Partition(ranges, 2 * |rows|) && Working(ranges, at) && k <= |at|
  {
    if k == 0 then multiset{}
    else Appended(f, rows, ranges, at, k - 1) + multiset(StepsOf(f, rows, ranges[k - 1].start, at[k - 1]))
  }

  lemma {:induction false} NoneAppended(f: Filter, rows: seq<Row>, ranges: seq<Range>, at: seq<nat>, k: nat)
    requires AllReadable(f, rows) && Partition(ranges, 2 * |rows|) && Working(ranges, at) && k <= |at|
    requires forall w | 0 <= w < |at| :: at[w] == ranges[w].start
    ensures Appended(f, rows, ranges, at, k) == multiset{}
  {
    if k > 0 {
      NoneAppended(f, rows, ranges, at, k - 1);
    }
  }

  lemma StepsOneMore(f: Filter, rows: seq<Row>, from: nat, till: nat)
    requires AllReadable(f, rows) && from <= till < 2 * |rows|
    ensures multiset(StepsOf(f, rows, from, till + 1))
         == multiset(StepsOf(f, rows, from, till)) + multiset(StepOf(f, rows, till))
  {
  }

  lemma Regrouped(
    a: multiset<Cell>, a': multiset<Cell>, b: multiset<Cell>, b': multiset<Cell>, c: multiset<Cell>,
    earlier: bool, last: bool)
    requires a' == a + if earlier then c else multiset{}
    requires b' == if last then b + c else b
    requires !(earlier && last)
    ensures a' + b' == a + b + if earlier || last then c else multiset{}
  {
  }

  lemma AppendedFirst(f: Filter, rows: seq<Row>, ranges: seq<Range>, at: seq<nat>)
    requires AllReadable(f, rows) && Partition(ranges, 2 * |rows|) && Working(ranges, at)
    ensures Appended(f, rows, ranges, at, 0) == multiset{}
  {
  }

  lemma AppendedLast(f: Filter, rows: seq<Row>, ranges: seq<Range>, at: seq<nat>, k: nat)
    requires AllReadable(f, rows) && Partition(ranges, 2 * |rows|) && Working(ranges, at) && 0 < k <= |at|
    ensures ranges[k - 1].start <= at[k - 1] <= 2 * |rows|
    ensures Appended(f, rows, ranges, at, k)
         == Appended(f, rows, ranges, at, k - 1) + multiset(StepsOf(f, rows, ranges[k - 1].start, at[k - 1]))
  {
  }

  /** A step of worker w adds what that step appends to what the workers have appended. */
  lemma {:induction false} OneAppends(f: Filter, rows: seq<Row>, ranges: seq<Range>, at: seq<nat>, k: nat, w: nat)
    requires AllReadable(f, rows) && Partition(ranges, 2 * |rows|) && Working(ranges, at) && k <= |at|
    requires w < |at| && at[w] < ranges[w].end
    ensures Working(ranges, at[w := at[w] + 1]) && at[w] / 2 < |rows|
    ensures Appended(f, rows, ranges, at[w := at[w] + 1], k)
         == Appended(f, rows, ranges, at, k) + if w < k then multiset(StepOf(f, rows, at[w])) else multiset{}
  {
    hide Appended, StepOf, StepsOf, Partition, AllReadable;
    InRange(ranges, 2 * |rows|, w);
    var at' := at[w := at[w] + 1];
    if k == 0 {
      AppendedFirst(f, rows, ranges, at);
      AppendedFirst(f, rows, ranges, at');
    } else {
      OneAppends(f, rows, ranges, at, k - 1, w);
      AppendedLast(f, rows, ranges, at, k);
      AppendedLast(f, rows, ranges, at', k);
      if w == k - 1 {
        StepsOneMore(f, rows, ranges[w].start, at[w]);
      }
      Regrouped(Appended(f, rows, ranges, at, k - 1), Appended(f, rows, ranges, at', k - 1),
                multiset(StepsOf(f, rows, ranges[k - 1].start, at[k - 1])),
                multiset(StepsOf(f, rows, ranges[k - 1].start, at'[k - 1])),
                multiset(StepOf(f, rows, at[w])), w < k - 1, w == k - 1);
    }
  }

  lemma {:induction false} AllAppended(f: Filter, rows: seq<Row>, ranges: seq<Range>, at: seq<nat>, k: nat)
    requires AllReadable(f, rows) && Partition(ranges, 2 * |rows|) && Working(ranges, at) && 0 < k <= |at|
    requires forall w | 0 <= w < |at| :: at[w] == ranges[w].end
    ensures Appended(f, rows, ranges, at, k) == multiset(StepsOf(f, rows, 0, ranges[k - 1].end))
  {
    if k == 1 {
      assert Appended(f, rows, ranges, at, 0) == multiset{};
    } else {
      AllAppended(f, rows, ranges, at, k - 1);
      StepsSplit(f, rows, 0, ranges[k - 1].start, ranges[k - 1].end);
    }
  }

  /** The ranges of rows as ranges of steps. */
  function Twice(ranges: seq<Range>): (twice: seq<Range>)
    ensures |twice| == |ranges|
  {
    seq(|ranges|, w requires 0 <= w < |ranges| => Range(2 * ranges[w].start, 2 * ranges[w].end))
  }

  lemma TwiceIsPartition(ranges: seq<Range>, n: nat)
    requires Partition(ranges, n)
    ensures Partition(Twice(ranges), 2 * n)
  {
  }

  // ---- the filter object ----

  /** The table of a frame with one column. */
  ghost function OneColumn(t: ColType, cells: seq<Cell>): Frame {
    Frame([t], [cells])
  }

  /** The rower and all its clones: they share the set and the output frame. */
  class UnorderedFilter {
    const filter: Filter
    var genDf: DataFrame

    ghost predicate Valid()
      reads this, genDf, genDf.schema, genDf.columns
    {
      genDf.Valid() && |genDf.columns| == 1 && genDf.columns[0].ty == OutType(filter)
    }

    /** The column of the output frame. */
    ghost function Output(): seq<Cell>
      requires Valid()
      reads this, genDf, genDf.schema, genDf.columns
    {
      genDf.columns[0].Cells()
    }

    constructor (f: Filter)
      ensures Valid() && filter == f && Output() == []
      ensures fresh(genDf) && fresh(genDf.columns[0])
    {
      hide DataFrame.View, OneColumn;
      filter := f;
      var empty := EmptyFrame(OutType(f));
      genDf := empty;
    }

    /** One critical section. */
    method AddToDf(cell: Cell)
      requires Valid() && CellHasType(cell, OutType(filter))
      modifies genDf.columns
      ensures Valid() && Output() == old(Output()) + [cell]
    {
      genDf.AddRow([cell]);
    }

    method Accept(row: Row)
      requires Valid() && Readable(filter, row)
      modifies genDf.columns
      ensures Valid() && Output() == old(Output()) + Emit(filter, row)
    {
      match filter
      case UuidsToProjects(ids) =>
        if row[1].value.i in ids || row[2].value.i in ids {
          AddToDf(row[0]);
        }
      case ProjectsToUuids(ids) =>
        if row[0].value.i in ids {
          AddToDf(row[1]);
          AddToDf(row[2]);
        }
      case UuidsToNames(ids) =>
        if row[0].value.i in ids {
          AddToDf(row[1]);
        }
    }

    lemma OutputIsTable()
      requires Valid()
      ensures genDf.View() == OneColumn(OutType(filter), Output())
    {
    }

    /** Hands the output frame over and goes on with an empty one. */
    method FinishFilter() returns (result: DataFrame)
      requires Valid()
      modifies this
      ensures result == old(genDf) && result.Valid()
      ensures result.View() == OneColumn(OutType(filter), old(Output()))
      ensures Valid() && Output() == [] && fresh(genDf) && fresh(genDf.columns[0])
    {
      hide OneColumn, OutType, DataFrame.View;
      OutputIsTable();
      result := genDf;
      genDf := EmptyFrame(OutType(filter));
      Untouched(result);
    }
  }

  /** A frame with one column, which is empty. */
  method EmptyFrame(t: ColType) returns (df: DataFrame)
    ensures df.Valid() && |df.columns| == 1 && df.columns[0].ty == t && df.columns[0].Cells() == []
    ensures df.View() == OneColumn(t, [])
    ensures fresh(df) && fresh(df.schema) && fresh(df.columns[0])
  {
    df := new DataFrame();
    var column := new NullableArray(t);
    df.AddColumn(column);
  }

  // ---- mapping a filter over a frame ----

  /** The rows are readable, and the frame that is read shares no column with the output. */
  ghost predicate Separate(df: DataFrame, uf: UnorderedFilter)
    reads df, uf, uf.genDf
  {
    forall c | c in uf.genDf.columns :: c !in df.columns
  }

  method Map(df: DataFrame, uf: UnorderedFilter)
    requires df.Valid() && Rectangular(df.View()) && uf.Valid() && Separate(df, uf)
    requires AllReadable(uf.filter, df.AllRows())
    modifies uf.genDf.columns
    ensures df.Valid() && df.View() == old(df.View()) && uf.Valid()
    ensures uf.Output() == old(uf.Output()) + EmitAll(uf.filter, df.AllRows())
  {
    hide Emit, EmitAll, AllReadable, Rectangular, Readable;
    hide DataFrame.Valid, DataFrame.View, DataFrame.AllRows, UnorderedFilter.Valid, UnorderedFilter.Output;
    ghost var f, rows := uf.filter, df.AllRows();
    var n := df.RowTotal();
    EmitNothing(f, rows[..0]);
    for i := 0 to n
      modifies uf.genDf.columns
      invariant df.Valid() && df.View() == old(df.View()) && uf.Valid()
      invariant AllReadable(f, rows[..i]) && uf.Output() == old(uf.Output()) + EmitAll(f, rows[..i])
    {
      var row := df.FillRow(i);
      EmitNext(f, rows, i);
      label BeforeRow:
      uf.Accept(row);
      Untouched@BeforeRow(df);
    }
    assert rows[..n] == rows;
  }

  /** One step of a worker: it appends what step p appends. */
  method WorkerStep(df: DataFrame, uf: UnorderedFilter, p: nat)
    requires df.Valid() && Rectangular(df.View()) && uf.Valid() && Separate(df, uf)
    requires AllReadable(uf.filter, df.AllRows()) && p / 2 < |df.AllRows()|
    modifies uf.genDf.columns
    ensures df.Valid() && df.View() == old(df.View()) && uf.Valid()
    ensures uf.Output() == old(uf.Output()) + StepOf(uf.filter, df.AllRows(), p)
  {
    hide Rectangular, RowAt, Readable, DataFrame.Valid, DataFrame.View, UnorderedFilter.Valid, UnorderedFilter.Output;
    var row := df.FillRow(p / 2);
    assert row == df.AllRows()[p / 2];
    var cells := Emit(uf.filter, row);
    if p % 2 < |cells| {
      uf.AddToDf(cells[p % 2]);
      Untouched(df);
    }
  }

  /** Runs the workers over ranges of steps: any worker that has steps left may make the next. */
  method RunWorkers(df: DataFrame, uf: UnorderedFilter, ranges: seq<Range>)
    requires df.Valid() && Rectangular(df.View()) && uf.Valid() && Separate(df, uf)
    requires AllReadable(uf.filter, df.AllRows()) && Partition(ranges, 2 * |df.AllRows()|)
    modifies uf.genDf.columns
    ensures df.Valid() && df.View() == old(df.View()) && uf.Valid()
    ensures multiset(uf.Output())
         == multiset(old(uf.Output())) + multiset(StepsOf(uf.filter, df.AllRows(), 0, 2 * |df.AllRows()|))
  {
    hide Rectangular, RowAt, Rows, AllReadable, StepOf, StepsOf, Appended, Partition;
    hide DataFrame.Valid, DataFrame.View, UnorderedFilter.Valid, UnorderedFilter.Output;
    ghost var f, rows := uf.filter, df.AllRows();
    ghost var before := multiset(uf.Output());
    var at: seq<nat> := seq(|ranges|, w requires 0 <= w < |ranges| => ranges[w].start);
    ghost var todo := UpTo(2 * |rows|);
    Started(ranges, 2 * |rows|, at, todo);
    NoneAppended(f, rows, ranges, at, |at|);
    while exists w :: 0 <= w < |at| && at[w] < ranges[w].end
      modifies uf.genDf.columns
      invariant df.Valid() && df.View() == old(df.View()) && uf.Valid()
      invariant Working(ranges, at) && Ahead(ranges, at, todo)
      invariant multiset(uf.Output()) == before + Appended(f, rows, ranges, at, |at|)
      decreases |todo|
    {
      var w :| 0 <= w < |at| && at[w] < ranges[w].end;
      StepAhead(ranges, 2 * |rows|, at, todo, w);
      OneAppends(f, rows, ranges, at, |at|, w);
      WorkerStep(df, uf, at[w]);
      todo, at := todo - {at[w]}, at[w := at[w] + 1];
    }
    Finished(f, rows, ranges, at);
  }

  lemma Started(ranges: seq<Range>, n: nat, at: seq<nat>, todo: set<nat>)
    requires Partition(ranges, n) && |at| == |ranges|
    requires forall w | 0 <= w < |at| :: at[w] == ranges[w].start
    requires forall p | 0 <= p < n :: p in todo
    ensures Working(ranges, at) && Ahead(ranges, at, todo)
  {
  }

  lemma Finished(f: Filter, rows: seq<Row>, ranges: seq<Range>, at: seq<nat>)
    requires AllReadable(f, rows) && Partition(ranges, 2 * |rows|) && Working(ranges, at)
    requires forall w | 0 <= w < |at| :: at[w] >= ranges[w].end
    ensures Appended(f, rows, ranges, at, |at|) == multiset(StepsOf(f, rows, 0, 2 * |rows|))
  {
    AllAppended(f, rows, ranges, at, |at|);
  }

  /**
    `pmap` with a shared-frame filter appends the same cells as `map`, each as often, in every
    interleaving of the critical sections. Cloning shares the output, joining does nothing.
   */
  method Pmap(df: DataFrame, uf: UnorderedFilter)
    requires df.Valid() && Rectangular(df.View()) && uf.Valid() && Separate(df, uf)
    requires AllReadable(uf.filter, df.AllRows())
    modifies uf.genDf.columns
    ensures df.Valid() && df.View() == old(df.View()) && uf.Valid()
    ensures multiset(uf.Output()) == multiset(old(uf.Output())) + multiset(EmitAll(uf.filter, df.AllRows()))
  {
    hide Rectangular, RowAt, Rows, AllReadable, StepOf, StepsOf, EmitAll, Partition, Typed;
    hide DataFrame.Valid, DataFrame.View, UnorderedFilter.Valid, UnorderedFilter.Output;
    ghost var f, rows := uf.filter, df.AllRows();
    var n := df.RowTotal();
    if n / THREAD_ROWS <= 1 {
      Map(df, uf);
      return;
    }
    var ranges := Split(n);
    TwiceIsPartition(ranges, n);
    RunWorkers(df, uf, Twice(ranges));
    StepsAreAll(f, rows);
  }

  // ---- the set of ints of a frame ----

  function RowInts(row: Row): (ints: set<Int32>)
    ensures forall i: Int32 :: i in ints <==> Some(Int(i)) in row
  {
    set cell | cell in row && cell.Some? && cell.value.Int? :: cell.value.i
  }

  /** Every int that occurs. */
  ghost function IntSet(rows: seq<Row>): (ints: set<Int32>)
    decreases |rows|
  {
    if rows == [] then {} else IntSet(rows[..|rows| - 1]) + RowInts(rows[|rows| - 1])
  }

  lemma {:induction false} IntSetMembers(rows: seq<Row>, i: Int32)
    ensures i in IntSet(rows) <==> exists r :: 0 <= r < |rows| && Some(Int(i)) in rows[r]
    decreases |rows|
  {
    if rows != [] {
      var init := rows[..|rows| - 1];
      IntSetMembers(init, i);
      assert forall r | 0 <= r < |init| :: init[r] == rows[r];
    }
  }

  /** The generator dereferences no missing int. */
  predicate NoMissingInts(types: seq<ColType>, row: Row) {
    RowTyped(types, row) && forall c | 0 <= c < |row| && types[c].IntType? :: row[c].Some?
  }

  ghost predicate IntsPresent(f: Frame)
    requires Rectangular(f)
  {
    forall r | 0 <= r < RowCount(f) :: NoMissingInts(f.types, RowAt(f, r))
  }

  class IntSetGenerator {
    var ints: set<Int32>

    constructor ()
      ensures ints == {}
    {
      ints := {};
    }

    method Accept(types: seq<ColType>, row: Row)
      requires NoMissingInts(types, row)
      modifies this
      ensures ints == old(ints) + RowInts(row)
    {
      for c := 0 to |row|
        invariant ints == old(ints) + RowInts(row[..c])
      {
        assert row[..c + 1] == row[..c] + [row[c]];
        if types[c].IntType? {
          ints := ints + {row[c].value.i};
        }
      }
      assert row[..|row|] == row;
    }

    method FinishSet() returns (result: set<Int32>)
      modifies this
      ensures result == old(ints) && ints == {}
    {
      result, ints := ints, {};
    }
  }

  /** Maps a generator over a frame, as the constructors of the filters do. */
  method CollectInts(df: DataFrame) returns (ints: set<Int32>)
    requires df.Valid() && Rectangular(df.View())
    requires IntsPresent(df.View())
    ensures ints == IntSet(df.AllRows()) == IntSet(Rows(df.View()))
  {
    hide Rows, Rectangular, IntsPresent, NoMissingInts, RowInts, IntSet;
    hide DataFrame.Valid, DataFrame.View, DataFrame.AllRows;
    ghost var f, rows := df.View(), df.AllRows();
    var types := df.Types();
    var generator := new IntSetGenerator();
    var n := df.RowTotal();
    IntSetNone(rows[..0]);
    for i := 0 to n
      modifies generator
      invariant df.Valid() && df.View() == f && df.AllRows() == rows && generator.ints == IntSet(rows[..i])
    {
      label BeforeRow:
      var row := df.FillRow(i);
      IntSetNext(rows, i);
      RowIntsPresent(df, i);
      generator.Accept(types, row);
      Untouched@BeforeRow(df);
    }
    assert rows[..n] == rows;
    IntsOfTable(df);
    ints := generator.FinishSet();
    Untouched(df);
  }

  lemma RowIntsPresent(df: DataFrame, r: nat)
    requires df.Valid() && Rectangular(df.View()) && IntsPresent(df.View()) && r < |df.AllRows()|
    ensures NoMissingInts(df.View().types, df.AllRows()[r])
  {
  }

  /** Rows without cells add no ints. */
  lemma IntsOfTable(df: DataFrame)
    requires df.Valid() && Rectangular(df.View())
    ensures IntSet(df.AllRows()) == IntSet(Rows(df.View()))
  {
    if df.columns == [] {
      NoCellsNoInts(df.AllRows());
      NoCellsNoInts(Rows(df.View()));
    }
  }

  lemma {:induction false} NoCellsNoInts(rows: seq<Row>)
    requires forall r | 0 <= r < |rows| :: rows[r] == []
    ensures IntSet(rows) == {}
    decreases |rows|
  {
    if rows != [] {
      NoCellsNoInts(rows[..|rows| - 1]);
    }
  }

  lemma IntSetNone(rows: seq<Row>)
    requires rows == []
    ensures IntSet(rows) == {}
  {
  }

  lemma IntSetNext(rows: seq<Row>, i: nat)
    requires i < |rows|
    ensures IntSet(rows[..i + 1]) == IntSet(rows[..i]) + RowInts(rows[i])
  {
    assert rows[..i + 1][..i] == rows[..i];
  }
}
