/** Counting the words of the string columns of a frame, in parallel. */
module WordCounts {
  import opened Bytes
  import opened DataFrames
  import opened Frames
  import opened ParallelMap
  import opened Wrappers

  type Counts = map<Str, nat>

  function CountOf(m: Counts, w: Str): nat {
    if w in m then m[w] else 0
  }

  function Bump(m: Counts, w: Str): Counts {
    m[w := CountOf(m, w) + 1]
  }

  /** The counts after the existing strings among the cells. */
  function CountCells(m: Counts, cells: seq<Cell>): Counts
    decreases |cells|
  {
    if cells == [] then m
    else
      var n := |cells| - 1;
      if cells[n].Some? && cells[n].value.Text? then Bump(CountCells(m, cells[..n]), cells[n].value.s)
      else CountCells(m, cells[..n])
  }

  function Merge(a: Counts, b: Counts): (m: Counts)
    ensures forall w :: CountOf(m, w) == CountOf(a, w) + CountOf(b, w)
    ensures m.Keys == a.Keys + b.Keys
  {
    map w | w in a.Keys + b.Keys :: CountOf(a, w) + CountOf(b, w)
  }

  /** A counter never holds a word it has not seen. */
  predicate Positive(m: Counts) {
    forall w | w in m :: m[w] > 0
  }

  class CounterRower {
    var wordMap: Counts

    constructor ()
      ensures wordMap == map[]
    {
      wordMap := map[];
    }

    method Accept(types: seq<ColType>, row: Row)
      requires RowTyped(types, row)
      modifies this
      ensures wordMap == CountCells(old(wordMap), row)
    {
      for c := 0 to |row|
        invariant wordMap == CountCells(old(wordMap), row[..c])
      {
        assert row[..c + 1][..c] == row[..c] && row[..c + 1][c] == row[c];
        assert CellHasType(row[c], types[c]);
        if types[c].StringType? {
          if row[c].Some? {
            var word := row[c].value.s;
            if word in wordMap {
              wordMap := wordMap[word := wordMap[word] + 1];
            } else {
              wordMap := wordMap[word := 1];
            }
          }
        }
      }
      assert row[..|row|] == row;
    }

    /** Adds the other rower's counts, in whatever order they come. */
    method Join(other: CounterRower)
      requires other != this
      modifies this
      ensures wordMap == Merge(old(wordMap), other.wordMap)
    {
      hide Merge;
      var rest := other.wordMap.Keys;
      ghost var seen: Counts := map[];
      SameCounts(Merge(wordMap, seen), wordMap);
      while rest != {}
        invariant rest <= other.wordMap.Keys && seen.Keys == other.wordMap.Keys - rest
        invariant forall w | w in seen :: seen[w] == other.wordMap[w]
        invariant wordMap == Merge(old(wordMap), seen)
        decreases |rest|
      {
        var word :| word in rest;
        JoinOne(old(wordMap), seen, word, other.wordMap[word]);
        if word in wordMap {
          wordMap := wordMap[word := wordMap[word] + other.wordMap[word]];
        } else {
          wordMap := wordMap[word := other.wordMap[word]];
        }
        seen, rest := seen[word := other.wordMap[word]], rest - {word};
      }
      assert seen == other.wordMap;
    }
  }

  lemma JoinOne(a: Counts, seen: Counts, word: Str, count: nat)
    requires word !in seen
    ensures Merge(a, seen[word := count]) == Merge(a, seen)[word := CountOf(Merge(a, seen), word) + count]
  {
  }

  lemma SameCounts(a: Counts, b: Counts)
    requires a.Keys == b.Keys && forall w | w in a :: CountOf(a, w) == CountOf(b, w)
    ensures a == b
  {
  }

  /** The counter as a rower whose clones start empty. */
  function Counter(): Rower<Counts> {
    Rower((m, row) => CountCells(m, row), m => map[], (a, b) => Merge(a, b))
  }

  // ---- the law ----

  lemma MergeBump(a: Counts, b: Counts, w: Str)
    ensures Merge(a, Bump(b, w)) == Bump(Merge(a, b), w)
  {
    hide Merge;
    SameCounts(Merge(a, Bump(b, w)), Bump(Merge(a, b), w));
  }

  lemma {:induction false} MergeCells(a: Counts, b: Counts, cells: seq<Cell>)
    ensures Merge(a, CountCells(b, cells)) == CountCells(Merge(a, b), cells)
    decreases |cells|
  {
    if cells != [] {
      var n := |cells| - 1;
      MergeCells(a, b, cells[..n]);
      if cells[n].Some? && cells[n].value.Text? {
        MergeBump(a, CountCells(b, cells[..n]), cells[n].value.s);
      }
    }
  }

  lemma {:induction false} MergeRows(a: Counts, b: Counts, rows: seq<Row>)
    ensures Merge(a, Fold(Counter(), b, rows)) == Fold(Counter(), Merge(a, b), rows)
    decreases |rows|
  {
    if rows != [] {
      var n := |rows| - 1;
      MergeRows(a, b, rows[..n]);
      MergeCells(a, Fold(Counter(), b, rows[..n]), rows[n]);
    }
  }

  /** Counting is a lawful clone-and-join. */
  lemma CountingIsLawful(s: Counts)
    ensures Lawful(Counter(), s)
  {
    var r := Counter();
    forall t, rows ensures r.join(t, Fold(r, r.clone(s), rows)) == Fold(r, t, rows) {
      MergeRows(t, map[], rows);
      SameCounts(Merge(t, map[]), t);
    }
  }

  // ---- the counts are exact ----

  /** The positions of the cells that hold the word. */
  ghost function Positions(rows: seq<Row>, w: Str): set<(nat, nat)> {
    set r: nat, c: nat | r < |rows| && c < |rows[r]| && rows[r][c] == Some(Text(w)) :: (r, c)
  }

  ghost function InRow(row: Row, w: Str): set<nat> {
    set c: nat | c < |row| && row[c] == Some(Text(w))
  }

  lemma {:induction false} CellsCounted(m: Counts, cells: seq<Cell>, w: Str)
    requires Positive(m)
    ensures Positive(CountCells(m, cells)) && CountOf(CountCells(m, cells), w) == CountOf(m, w) + |InRow(cells, w)|
    decreases |cells|
  {
    if cells == [] {
      assert InRow(cells, w) == {};
    } else {
      hide InRow;
      var n := |cells| - 1;
      CellsCounted(m, cells[..n], w);
      InRowSnoc(cells[..n], cells[n], w);
      assert cells == cells[..n] + [cells[n]];
    }
  }

  lemma InRowSnoc(cells: seq<Cell>, cell: Cell, w: Str)
    ensures |InRow(cells + [cell], w)| == |InRow(cells, w)| + if cell == Some(Text(w)) then 1 else 0
  {
    var before := InRow(cells, w);
    assert InRow(cells + [cell], w) == before + if cell == Some(Text(w)) then {|cells|} else {};
  }

  lemma {:induction false} PairsAreRow(r: nat, columns: set<nat>)
    ensures |(set c: nat | c in columns :: (r, c))| == |columns|
  {
    var pairs := set c: nat | c in columns :: (r, c);
    if columns == {} {
      assert pairs == {};
    } else {
      var c :| c in columns;
      PairsAreRow(r, columns - {c});
      assert pairs == (set d: nat | d in columns - {c} :: (r, d)) + {(r, c)};
    }
  }

  lemma PositionsSnoc(rows: seq<Row>, row: Row, w: Str)
    ensures |Positions(rows + [row], w)| == |Positions(rows, w)| + |InRow(row, w)|
  {
    var added: set<(nat, nat)> := set c: nat | c in InRow(row, w) :: (|rows|, c);
    PairsAreRow(|rows|, InRow(row, w));
    assert Positions(rows + [row], w) == Positions(rows, w) + added;
  }

  lemma {:induction false} RowsCounted(rows: seq<Row>, w: Str)
    ensures Positive(Fold(Counter(), map[], rows))
    ensures CountOf(Fold(Counter(), map[], rows), w) == |Positions(rows, w)|
    decreases |rows|
  {
    if rows == [] {
      assert Positions(rows, w) == {};
    } else {
      var n := |rows| - 1;
      RowsCounted(rows[..n], w);
      CellsCounted(Fold(Counter(), map[], rows[..n]), rows[n], w);
      PositionsSnoc(rows[..n], rows[n], w);
      assert rows == rows[..n] + [rows[n]];
    }
  }

  /** Parallel word count is exact: a word is there when some cell holds it, and its count is the
      number of cells that do. */
  method CountWords(df: DataFrame) returns (counts: Counts)
    requires df.Valid() && Rectangular(df.View())
    ensures forall w :: w in counts <==> Positions(df.AllRows(), w) != {}
    ensures forall w | w in counts :: counts[w] == |Positions(df.AllRows(), w)|
  {
    ghost var rows := df.AllRows();
    CountingIsLawful(map[]);
    LawfulOnRows(Counter(), map[], rows);
    counts := Pmap(df, Counter(), map[]);
    forall w ensures w in counts <==> Positions(rows, w) != {}
             ensures w in counts ==> counts[w] == |Positions(rows, w)| {
      RowsCounted(rows, w);
    }
  }
}
