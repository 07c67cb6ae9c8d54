/** `DataFrame::map` and `DataFrame::pmap` for rowers that are cloned and joined. */
module ParallelMap {
  import opened Bytes
  import opened DataFrames
  import opened Frames

  const MAX_THREADS: nat := 8
  const THREAD_ROWS: nat := 5000

  // ---- ranges ----

  datatype Range = Range(start: nat, end: nat)

  function ThreadCount(n: nat): nat {
    Min(n / THREAD_ROWS, MAX_THREADS)
  }

  function StepSize(n: nat): nat {
    if n / THREAD_ROWS > MAX_THREADS then n / MAX_THREADS else THREAD_ROWS
  }

  /** The ranges follow one another from row 0 to row n. */
  predicate Partition(ranges: seq<Range>, n: nat) {
    && ranges != []
    && ranges[0].start == 0 && ranges[|ranges| - 1].end == n
    && (forall i | 0 <= i < |ranges| :: ranges[i].start <= ranges[i].end <= n)
    && (forall i | 0 < i < |ranges| :: ranges[i].start == ranges[i - 1].end)
  }

  lemma ThreadsAndStep(n: nat)
    ensures StepSize(n) == if n < 45000 then THREAD_ROWS else n / MAX_THREADS
    ensures ThreadCount(n) == if n / THREAD_ROWS > MAX_THREADS then MAX_THREADS else n / THREAD_ROWS
  {
  }

  lemma Steps(n: nat, i: nat)
    requires n / THREAD_ROWS > 1 && i < ThreadCount(n)
    ensures i * StepSize(n) + StepSize(n) == (i + 1) * StepSize(n) <= n
    ensures i + 1 == ThreadCount(n) ==>
              n - i * StepSize(n) < if n < 45000 then 10000 else StepSize(n) + 8
  {
  }

  /** The rows of thread i. */
  function RangesOf(n: nat): (ranges: seq<Range>)
    requires n / THREAD_ROWS > 1
    ensures |ranges| == ThreadCount(n)
  {
    var k, step := ThreadCount(n), StepSize(n);
    seq(k, i requires 0 <= i < k => Range(i * step, if i == k - 1 then n else (i + 1) * step))
  }

  lemma RangesPartition(n: nat)
    requires n / THREAD_ROWS > 1
    ensures Partition(RangesOf(n), n)
  {
    var k, ranges := ThreadCount(n), RangesOf(n);
    forall i | 0 <= i < k ensures ranges[i].start <= ranges[i].end <= n {
      Steps(n, i);
    }
  }

  /** Which rows each thread gets: at least two and at most eight ranges, all but the last of
      the same size, and a last one that is not much longer. */
  method Split(n: nat) returns (ranges: seq<Range>)
    requires n / THREAD_ROWS > 1
    ensures ranges == RangesOf(n) && Partition(ranges, n)
    ensures 2 <= |ranges| <= MAX_THREADS
    ensures forall i | 0 <= i < |ranges| - 1 ::
              ranges[i].end - ranges[i].start == if n < 45000 then THREAD_ROWS else n / MAX_THREADS
    ensures var last := ranges[|ranges| - 1].end - ranges[|ranges| - 1].start;
            if n < 45000 then THREAD_ROWS <= last < 10000 else n / MAX_THREADS <= last <= n / MAX_THREADS + 7
  {
    var threads, step := n / THREAD_ROWS, THREAD_ROWS;
    if threads > MAX_THREADS {
      threads, step := MAX_THREADS, n / MAX_THREADS;
    }
    hide StepSize, ThreadCount, Partition;
    ThreadsAndStep(n);
    RangesPartition(n);
    ranges := [];
    var start := 0;
    for i := 0 to threads
      invariant |ranges| == i && forall j | 0 <= j < i :: ranges[j] == RangesOf(n)[j]
      invariant if i == threads then start == n else start == i * step
    {
      Steps(n, i);
      var end := if i == threads - 1 then n else start + step;
      assert end <= n;
      ranges := ranges + [Range(start, end)];
      start := end;
    }
    forall i | 0 <= i < threads
      ensures i < threads - 1 ==> ranges[i].end - ranges[i].start == step
      ensures i == threads - 1 ==> step <= ranges[i].end - ranges[i].start < if n < 45000 then 10000 else step + 8
    {
      Steps(n, i);
    }
  }

  // ---- rowers ----

  /** A rower with state S: what it does with a row, how it is cloned, and how a clone is
      joined back into it. */
  datatype Rower<!S> = Rower(accept: (S, Row) -> S, clone: S -> S, join: (S, S) -> S)

  /** The rower has accepted the rows, one after the other. */
  function Fold<S>(r: Rower<S>, s: S, rows: seq<Row>): S
    decreases |rows|
  {
    if rows == [] then s else r.accept(Fold(r, s, rows[..|rows| - 1]), rows[|rows| - 1])
  }

  /** Joining the clone that has accepted the next rows is the same as accepting them: at
      every cut of these rows. */
  ghost predicate LawOn<S>(r: Rower<S>, s: S, rows: seq<Row>) {
    forall i, j {:trigger rows[i..j]} | 0 <= i <= j <= |rows| ::
      r.join(Fold(r, s, rows[..i]), Fold(r, r.clone(s), rows[i..j])) == Fold(r, s, rows[..j])
  }

  /** The law of a clone-and-join rower, for any state and any rows. */
  ghost predicate Lawful<S(!new)>(r: Rower<S>, s: S) {
    forall t, rows {:trigger Fold(r, t, rows)} :: r.join(t, Fold(r, r.clone(s), rows)) == Fold(r, t, rows)
  }

  lemma {:induction false} FoldAppend<S>(r: Rower<S>, s: S, a: seq<Row>, b: seq<Row>)
    ensures Fold(r, s, a + b) == Fold(r, Fold(r, s, a), b)
    decreases |b|
  {
    if b == [] {
      assert a + b == a;
    } else {
      var init := b[..|b| - 1];
      FoldAppend(r, s, a, init);
      assert (a + b)[..|a + b| - 1] == a + init;
    }
  }

  lemma LawfulOnRows<S(!new)>(r: Rower<S>, s: S, rows: seq<Row>)
    requires Lawful(r, s)
    ensures LawOn(r, s, rows)
  {
    forall i, j | 0 <= i <= j <= |rows|
      ensures r.join(Fold(r, s, rows[..i]), Fold(r, r.clone(s), rows[i..j])) == Fold(r, s, rows[..j])
    {
      FoldAppend(r, s, rows[..i], rows[i..j]);
      assert rows[..i] + rows[i..j] == rows[..j];
    }
  }

  lemma FoldNone<S>(r: Rower<S>, s: S, rows: seq<Row>)
    requires rows == []
    ensures Fold(r, s, rows) == s
  {
  }

  lemma FoldNext<S>(r: Rower<S>, s: S, rows: seq<Row>, i: nat, j: nat)
    requires i <= j < |rows|
    ensures Fold(r, s, rows[i..j + 1]) == r.accept(Fold(r, s, rows[i..j]), rows[j])
  {
    assert rows[i..j + 1][..j - i] == rows[i..j];
  }

  method Map<S>(df: DataFrame, r: Rower<S>, s: S) returns (t: S)
    requires df.Valid() && Rectangular(df.View())
    ensures t == Fold(r, s, df.AllRows())
  {
    hide Fold, Rectangular, DataFrame.Valid, DataFrame.View, DataFrame.AllRows;
    ghost var rows := df.AllRows();
    var n := df.RowTotal();
    t := s;
    FoldNone(r, s, rows[..0]);
    for i := 0 to n
      invariant t == Fold(r, s, rows[..i])
    {
      var row := df.FillRow(i);
      FoldNext(r, s, rows, 0, i);
      t := r.accept(t, row);
    }
    assert rows[..n] == rows;
  }

  // ---- the scheduler ----

  /** How far each worker has come: `at[w]` is its next row. */
  predicate Working(ranges: seq<Range>, at: seq<nat>) {
    |at| == |ranges| && forall w | 0 <= w < |at| :: ranges[w].start <= at[w] <= ranges[w].end
  }

  ghost function UpTo(n: nat): (all: set<nat>)
    ensures forall i | 0 <= i < n :: i in all
  {
    if n == 0 then {} else UpTo(n - 1) + {n - 1}
  }

  /** Rows that some worker has still to accept. */
  ghost predicate Ahead(ranges: seq<Range>, at: seq<nat>, todo: set<nat>)
    requires Working(ranges, at)
  {
    forall w, row | 0 <= w < |at| && at[w] <= row < ranges[w].end :: row in todo
  }

  lemma {:induction false} InOrder(ranges: seq<Range>, n: nat, v: nat, w: nat)
    requires Partition(ranges, n) && v < w < |ranges|
    ensures ranges[v].end <= ranges[w].start
  {
    if v + 1 < w {
      InOrder(ranges, n, v, w - 1);
    }
  }

  /** A worker's next row is no other worker's. */
  lemma StepAhead(ranges: seq<Range>, n: nat, at: seq<nat>, todo: set<nat>, w: nat)
    requires Partition(ranges, n) && Working(ranges, at) && Ahead(ranges, at, todo)
    requires w < |at| && at[w] < ranges[w].end
    ensures at[w] in todo
    ensures Working(ranges, at[w := at[w] + 1])
    ensures Ahead(ranges, at[w := at[w] + 1], todo - {at[w]})
  {
    forall v, row | 0 <= v < |at| && at[w := at[w] + 1][v] <= row < ranges[v].end
      ensures row in todo - {at[w]}
    {
      if v < w {
        InOrder(ranges, n, v, w);
      } else if w < v {
        InOrder(ranges, n, w, v);
      }
    }
  }

  /** The state in which worker w starts: thread 0 uses the rower itself, the others clones. */
  function StartOf<S>(r: Rower<S>, s: S, w: nat): S {
    if w == 0 then s else r.clone(s)
  }

  /** Every worker's rower has accepted exactly the rows the worker has passed. */
  ghost predicate Progress<S>(r: Rower<S>, s: S, rows: seq<Row>, ranges: seq<Range>, at: seq<nat>, states: seq<S>)
    requires Working(ranges, at) && Partition(ranges, |rows|)
  {
    && |states| == |at|
    && forall w | 0 <= w < |at| :: states[w] == Fold(r, StartOf(r, s, w), rows[ranges[w].start..at[w]])
  }

  lemma StepProgress<S>(
    r: Rower<S>, s: S, rows: seq<Row>, ranges: seq<Range>, at: seq<nat>, states: seq<S>, w: nat)
    requires Partition(ranges, |rows|) && Working(ranges, at) && Progress(r, s, rows, ranges, at, states)
    requires w < |at| && at[w] < ranges[w].end
    requires Working(ranges, at[w := at[w] + 1])
    ensures Progress(r, s, rows, ranges, at[w := at[w] + 1], states[w := r.accept(states[w], rows[at[w]])])
  {
    FoldNext(r, StartOf(r, s, w), rows, ranges[w].start, at[w]);
  }

  /** Runs the workers: any worker that has rows left may make the next step. */
  method RunWorkers<S>(df: DataFrame, r: Rower<S>, ghost s: S, ranges: seq<Range>, starts: seq<S>)
    returns (states: seq<S>)
    requires df.Valid() && Rectangular(df.View()) && Partition(ranges, |df.AllRows()|)
    requires |starts| == |ranges| && forall w | 0 <= w < |starts| :: starts[w] == StartOf(r, s, w)
    ensures |states| == |ranges|
    ensures forall w | 0 <= w < |states| ::
              states[w] == Fold(r, StartOf(r, s, w), df.AllRows()[ranges[w].start..ranges[w].end])
  {
    hide Fold, Partition, Rectangular, DataFrame.Valid, DataFrame.View, DataFrame.AllRows;
    ghost var rows := df.AllRows();
    var at: seq<nat> := seq(|ranges|, w requires 0 <= w < |ranges| => ranges[w].start);
    states := starts;
    ghost var todo := UpTo(|rows|);
    StartProgress(r, s, rows, ranges, at, states, todo);
    while exists w :: 0 <= w < |at| && at[w] < ranges[w].end
      invariant Working(ranges, at) && Ahead(ranges, at, todo)
      invariant Progress(r, s, rows, ranges, at, states)
      decreases |todo|
    {
      var w :| 0 <= w < |at| && at[w] < ranges[w].end;
      StepAhead(ranges, |rows|, at, todo, w);
      StepProgress(r, s, rows, ranges, at, states, w);
      InRange(ranges, |rows|, w);
      var row := df.FillRow(at[w]);
      states, todo, at := states[w := r.accept(states[w], row)], todo - {at[w]}, at[w := at[w] + 1];
    }
  }

  lemma InRange(ranges: seq<Range>, n: nat, w: nat)
    requires Partition(ranges, n) && w < |ranges|
    ensures ranges[w].start <= ranges[w].end <= n
  {
  }

  lemma StartProgress<S>(
    r: Rower<S>, s: S, rows: seq<Row>, ranges: seq<Range>, at: seq<nat>, states: seq<S>, todo: set<nat>)
    requires Partition(ranges, |rows|) && |at| == |ranges| == |states|
    requires forall w | 0 <= w < |at| :: at[w] == ranges[w].start && states[w] == StartOf(r, s, w)
    requires forall row | 0 <= row < |rows| :: row in todo
    ensures Working(ranges, at) && Ahead(ranges, at, todo) && Progress(r, s, rows, ranges, at, states)
  {
  }

  /** The rower after the clones of the ranges before range k have been joined into it, in order. */
  function Joined<S>(r: Rower<S>, s: S, rows: seq<Row>, ranges: seq<Range>, k: nat): S
    requires Partition(ranges, |rows|) && 0 < k <= |ranges|
  {
    var here := Fold(r, StartOf(r, s, k - 1), rows[ranges[k - 1].start..ranges[k - 1].end]);
    if k == 1 then here else r.join(Joined(r, s, rows, ranges, k - 1), here)
  }

  /** What `pmap` makes of a rower, whether its law holds or not. */
  function ParallelFold<S>(r: Rower<S>, s: S, rows: seq<Row>): S {
    if |rows| / THREAD_ROWS <= 1 then Fold(r, s, rows)
    else
      RangesPartition(|rows|);
      Joined(r, s, rows, RangesOf(|rows|), ThreadCount(|rows|))
  }

  lemma ParallelUnfolded<S>(r: Rower<S>, s: S, rows: seq<Row>)
    ensures |rows| / THREAD_ROWS <= 1 ==> ParallelFold(r, s, rows) == Fold(r, s, rows)
    ensures |rows| / THREAD_ROWS > 1 ==>
              && Partition(RangesOf(|rows|), |rows|)
              && ParallelFold(r, s, rows) == Joined(r, s, rows, RangesOf(|rows|), |RangesOf(|rows|)|)
  {
    if |rows| / THREAD_ROWS > 1 {
      RangesPartition(|rows|);
    }
  }

  lemma {:induction false} JoinedIsFold<S>(r: Rower<S>, s: S, rows: seq<Row>, ranges: seq<Range>, k: nat)
    requires Partition(ranges, |rows|) && 0 < k <= |ranges| && LawOn(r, s, rows)
    ensures Joined(r, s, rows, ranges, k) == Fold(r, s, rows[..ranges[k - 1].end])
  {
    if k == 1 {
      assert rows[0..ranges[0].end] == rows[..ranges[0].end];
    } else {
      JoinedIsFold(r, s, rows, ranges, k - 1);
      var start, end := ranges[k - 1].start, ranges[k - 1].end;
      assert rows[start..end] == rows[ranges[k - 2].end..end];
    }
  }

  /** Under the law, at the cuts of these rows, `pmap` does what `map` does. */
  lemma ParallelIsSequential<S>(r: Rower<S>, s: S, rows: seq<Row>)
    requires LawOn(r, s, rows)
    ensures ParallelFold(r, s, rows) == Fold(r, s, rows)
  {
    if |rows| / THREAD_ROWS > 1 {
      RangesPartition(|rows|);
      JoinedIsFold(r, s, rows, RangesOf(|rows|), ThreadCount(|rows|));
      assert rows[..|rows|] == rows;
    }
  }

  /** Clones the rower for every range but the first, and runs the workers. */
  method RunClones<S>(df: DataFrame, r: Rower<S>, s: S, ranges: seq<Range>) returns (states: seq<S>)
    requires df.Valid() && Rectangular(df.View()) && Partition(ranges, |df.AllRows()|)
    ensures |states| == |ranges|
    ensures forall w | 0 <= w < |states| ::
              states[w] == Fold(r, StartOf(r, s, w), df.AllRows()[ranges[w].start..ranges[w].end])
  {
    hide Fold, Rectangular, DataFrame.Valid, DataFrame.View, DataFrame.AllRows;
    var starts := [s];
    for i := 1 to |ranges|
      invariant |starts| == i && forall w | 0 <= w < i :: starts[w] == StartOf(r, s, w)
    {
      starts := starts + [r.clone(s)];
    }
    states := RunWorkers(df, r, s, ranges, starts);
  }

  /** Joins the clones in the order of their ranges. */
  method JoinClones<S>(
    r: Rower<S>, states: seq<S>, ghost s: S, ghost rows: seq<Row>, ghost ranges: seq<Range>) returns (t: S)
    requires Partition(ranges, |rows|) && |states| == |ranges|
    requires forall w | 0 <= w < |states| ::
               states[w] == Fold(r, StartOf(r, s, w), rows[ranges[w].start..ranges[w].end])
    ensures t == Joined(r, s, rows, ranges, |ranges|)
  {
    hide Fold;
    t := states[0];
    for i := 1 to |states|
      invariant t == Joined(r, s, rows, ranges, i)
    {
      t := r.join(t, states[i]);
    }
  }

  /**
    `pmap`, for every frame and every order in which the workers' steps are interleaved. A rower
    that obeys the law is left as `map` leaves it.
   */
  method Pmap<S>(df: DataFrame, r: Rower<S>, s: S) returns (t: S)
    requires df.Valid() && Rectangular(df.View())
    ensures t == ParallelFold(r, s, df.AllRows())
    ensures LawOn(r, s, df.AllRows()) ==> t == Fold(r, s, df.AllRows())
  {
    hide Fold, LawOn, ParallelFold, Joined, RangesOf, ThreadCount, Rectangular, Partition;
    hide DataFrame.Valid, DataFrame.View, DataFrame.AllRows;
    ghost var rows := df.AllRows();
    ParallelUnfolded(r, s, rows);
    if LawOn(r, s, rows) {
      ParallelIsSequential(r, s, rows);
    }
    var n := df.RowTotal();
    if n / THREAD_ROWS <= 1 {
      t := Map(df, r, s);
      return;
    }
    var ranges := Split(n);
    var states := RunClones(df, r, s, ranges);
    t := JoinClones(r, states, s, rows, ranges);
  }
}
