/** The demo: the producer and the counter add up the same doubles, in different orders. */
module Demo {
  import opened Bytes
  import opened DataFrames
  import opened Frames
  import opened NullableArrays
  import opened ParallelMap
  import opened Wrappers

  const EXACT: int := 0x20_0000_0000_0000  // 2^53
  const SZ: nat := 100 * 1000

  /** Double arithmetic: the number a bit pattern stands for, the pattern of a size_t that is
      converted, and rounding after each addition. */
  datatype Doubles = Doubles(number: U64 -> real, pattern: nat -> U64, round: real -> real)

  /** All that is known of them is that integers up to 2^53 are doubles. */
  ghost predicate ExactOnIntegers(fl: Doubles) {
    && (forall i: int {:trigger fl.round(i as real)} | -EXACT <= i <= EXACT :: fl.round(i as real) == i as real)
    && (forall i: nat {:trigger fl.pattern(i)} | i <= EXACT :: fl.number(fl.pattern(i)) == i as real)
  }

  function Add(fl: Doubles, a: real, b: real): real {
    fl.round(a + b)
  }

  /** The sum after the existing doubles among the cells. */
  function SumCells(fl: Doubles, s: real, cells: seq<Cell>): real
    decreases |cells|
  {
    if cells == [] then s
    else
      var n := |cells| - 1;
      if cells[n].Some? && cells[n].value.Float? then
        Add(fl, SumCells(fl, s, cells[..n]), fl.number(cells[n].value.bits))
      else
        SumCells(fl, s, cells[..n])
  }

  class SumRower {
    var sum: real

    constructor ()
      ensures sum == 0.0
    {
      sum := 0.0;
    }

    method Accept(fl: Doubles, types: seq<ColType>, row: Row)
      requires RowTyped(types, row)
      modifies this
      ensures sum == SumCells(fl, old(sum), row)
    {
      for c := 0 to |row|
        invariant sum == SumCells(fl, old(sum), row[..c])
      {
        assert row[..c + 1][..c] == row[..c] && row[..c + 1][c] == row[c];
        assert CellHasType(row[c], types[c]);
        if types[c].FloatType? {
          if row[c].Some? {
            sum := Add(fl, sum, fl.number(row[c].value.bits));
          }
        }
      }
      assert row[..|row|] == row;
    }

    method Join(fl: Doubles, other: SumRower)
      modifies this
      ensures sum == Add(fl, old(sum), old(other.sum))
    {
      sum := Add(fl, sum, other.sum);
    }
  }

  /** The summing rower; its clones start at zero. */
  function Summing(fl: Doubles): Rower<real> {
    Rower((s, row) => SumCells(fl, s, row), s => 0.0, (a, b) => Add(fl, a, b))
  }

  // ---- integers ----

  /** The integer that an existing double is; anything else counts for nothing. */
  function WholeOf(fl: Doubles, cell: Cell): int {
    if cell.Some? && cell.value.Float? then fl.number(cell.value.bits).Floor else 0
  }

  function Magnitude(i: int): nat {
    if i < 0 then -i else i
  }

  /** Every double among the cells is an integer. */
  ghost predicate AllWhole(fl: Doubles, cells: seq<Cell>) {
    forall c | 0 <= c < |cells| && cells[c].Some? && cells[c].value.Float? ::
      fl.number(cells[c].value.bits) == WholeOf(fl, cells[c]) as real
  }

  function TotalOfCells(fl: Doubles, cells: seq<Cell>): int
    decreases |cells|
  {
    if cells == [] then 0 else TotalOfCells(fl, cells[..|cells| - 1]) + WholeOf(fl, cells[|cells| - 1])
  }

  /** Every double counts once, wherever it stands, and nothing else counts. */
  lemma {:induction false} TotalOfParts(fl: Doubles, a: seq<Cell>, b: seq<Cell>)
    ensures TotalOfCells(fl, a + b) == TotalOfCells(fl, a) + TotalOfCells(fl, b)
    ensures forall bits: U64 :: TotalOfCells(fl, [Some(Float(bits))]) == fl.number(bits).Floor
    ensures forall c: Cell :: c == None || !c.value.Float? ==> TotalOfCells(fl, [c]) == 0
    decreases |b|
  {
    forall c: Cell ensures TotalOfCells(fl, [c]) == WholeOf(fl, c) {
      assert [c][..0] == [];
    }
    if b == [] {
      assert a + b == a;
    } else {
      TotalOfParts(fl, a, b[..|b| - 1]);
      assert (a + b)[..|a + b| - 1] == a + b[..|b| - 1];
    }
  }

  function SizeOfCells(fl: Doubles, cells: seq<Cell>): (n: nat)
    ensures Magnitude(TotalOfCells(fl, cells)) <= n
    decreases |cells|
  {
    if cells == [] then 0 else SizeOfCells(fl, cells[..|cells| - 1]) + Magnitude(WholeOf(fl, cells[|cells| - 1]))
  }

  ghost predicate WholeRows(fl: Doubles, rows: seq<Row>) {
    forall r | 0 <= r < |rows| :: AllWhole(fl, rows[r])
  }

  /** The sum of all doubles of the rows, and the sum of their absolute values. */
  function Total(fl: Doubles, rows: seq<Row>): int
    decreases |rows|
  {
    if rows == [] then 0 else Total(fl, rows[..|rows| - 1]) + TotalOfCells(fl, rows[|rows| - 1])
  }

  function Size(fl: Doubles, rows: seq<Row>): (n: nat)
    ensures Magnitude(Total(fl, rows)) <= n
    decreases |rows|
  {
    if rows == [] then 0 else Size(fl, rows[..|rows| - 1]) + SizeOfCells(fl, rows[|rows| - 1])
  }

  lemma AddExact(fl: Doubles, a: int, b: int)
    requires ExactOnIntegers(fl) && Magnitude(a + b) <= EXACT
    ensures Add(fl, a as real, b as real) == (a + b) as real
  {
    assert a as real + b as real == (a + b) as real;
    assert fl.round((a + b) as real) == (a + b) as real;
  }

  lemma {:induction false} CellsExact(fl: Doubles, s: int, cells: seq<Cell>)
    requires ExactOnIntegers(fl) && AllWhole(fl, cells) && Magnitude(s) + SizeOfCells(fl, cells) <= EXACT
    ensures SumCells(fl, s as real, cells) == (s + TotalOfCells(fl, cells)) as real
    decreases |cells|
  {
    if cells != [] {
      var n := |cells| - 1;
      CellsExact(fl, s, cells[..n]);
      if cells[n].Some? && cells[n].value.Float? {
        AddExact(fl, s + TotalOfCells(fl, cells[..n]), WholeOf(fl, cells[n]));
      }
    }
  }

  /** As long as the absolute values add up to at most 2^53, every partial sum is an integer, and
      exact. */
  lemma {:induction false} PartialSum(fl: Doubles, s: int, rows: seq<Row>)
    requires ExactOnIntegers(fl) && WholeRows(fl, rows) && Magnitude(s) + Size(fl, rows) <= EXACT
    ensures Fold(Summing(fl), s as real, rows) == (s + Total(fl, rows)) as real
    decreases |rows|
  {
    if rows != [] {
      var n := |rows| - 1;
      PartialSum(fl, s, rows[..n]);
      CellsExact(fl, s + Total(fl, rows[..n]), rows[n]);
    }
  }

  lemma {:induction false} TotalAppend(fl: Doubles, a: seq<Row>, b: seq<Row>)
    ensures Total(fl, a + b) == Total(fl, a) + Total(fl, b)
    ensures Size(fl, a + b) == Size(fl, a) + Size(fl, b)
    decreases |b|
  {
    if b == [] {
      assert a + b == a;
    } else {
      TotalAppend(fl, a, b[..|b| - 1]);
      assert (a + b)[..|a + b| - 1] == a + b[..|b| - 1];
    }
  }

  /** On such frames summing is a lawful clone-and-join, although rounding is not associative. */
  lemma SummingLaw(fl: Doubles, rows: seq<Row>)
    requires ExactOnIntegers(fl) && WholeRows(fl, rows) && Size(fl, rows) <= EXACT
    ensures LawOn(Summing(fl), 0.0, rows)
  {
    hide Fold, SumCells, Total, Size, AllWhole, ExactOnIntegers;
    forall i, j | 0 <= i <= j <= |rows|
      ensures Add(fl, Fold(Summing(fl), 0.0, rows[..i]), Fold(Summing(fl), 0.0, rows[i..j]))
           == Fold(Summing(fl), 0.0, rows[..j])
    {
      assert rows[..i] + rows[i..j] == rows[..j] && rows[..j] + rows[j..] == rows;
      TotalAppend(fl, rows[..i], rows[i..j]);
      TotalAppend(fl, rows[..j], rows[j..]);
      PartialSum(fl, 0, rows[..i]);
      PartialSum(fl, 0, rows[i..j]);
      PartialSum(fl, 0, rows[..j]);
      AddExact(fl, Total(fl, rows[..i]), Total(fl, rows[i..j]));
    }
  }

  /** The counter: on such a frame the parallel sum is the exact sum. */
  method Counter(fl: Doubles, df: DataFrame) returns (sum: real)
    requires df.Valid() && Rectangular(df.View())
    requires ExactOnIntegers(fl) && WholeRows(fl, df.AllRows()) && Size(fl, df.AllRows()) <= EXACT
    ensures sum == Total(fl, df.AllRows()) as real
  {
    SummingLaw(fl, df.AllRows());
    PartialSum(fl, 0, df.AllRows());
    sum := Pmap(df, Summing(fl), 0.0);
  }

  // ---- the demo ----

  /** 0 + 1 + ... + (n - 1). */
  function Triangle(n: nat): nat {
    if n == 0 then 0 else Triangle(n - 1) + (n - 1)
  }

  lemma {:induction false} TriangleFormula(n: nat)
    ensures 2 * Triangle(n) == n * (n - 1)
  {
    if n > 0 {
      TriangleFormula(n - 1);
      assert n * (n - 1) == (n - 1) * (n - 2) + 2 * (n - 1);
    }
  }

  lemma {:induction false} TriangleGrows(i: nat, j: nat)
    requires i <= j
    ensures Triangle(i) <= Triangle(j) && (i < j ==> i <= Triangle(j) + 1)
  {
    if i < j {
      TriangleGrows(i, j - 1);
    }
  }

  /** The producer's loop; each value is the double of its index. */
  method Producer(fl: Doubles, n: nat) returns (vals: seq<U64>, sum: real)
    requires ExactOnIntegers(fl) && Triangle(n) < EXACT
    ensures |vals| == n && forall r | 0 <= r < n :: vals[r] == fl.pattern(r)
    ensures sum == Triangle(n) as real && 2.0 * sum == (n * (n - 1)) as real
  {
    vals, sum := [], 0.0;
    for i := 0 to n
      invariant |vals| == i && forall r | 0 <= r < i :: vals[r] == fl.pattern(r)
      invariant sum == Triangle(i) as real
    {
      TriangleGrows(i, n);
      TriangleGrows(i + 1, n);
      AddExact(fl, Triangle(i), i);
      var val := fl.pattern(i);
      vals := vals + [val];
      sum := Add(fl, sum, fl.number(val));
    }
    TriangleFormula(n);
  }

  function FloatCells(vals: seq<U64>): (cells: seq<Cell>)
    ensures |cells| == |vals|
  {
    seq(|vals|, i requires 0 <= i < |vals| => Some(Float(vals[i])))
  }

  /** `DataFrame::from_array` of doubles: one column. */
  method FromArray(vals: seq<U64>) returns (df: DataFrame)
    ensures df.Valid() && df.View() == Frame([FloatType], [FloatCells(vals)])
  {
    var column := new NullableArray(FloatType);
    for i := 0 to |vals|
      modifies column
      invariant column.Valid() && column.Cells() == FloatCells(vals)[..i]
    {
      column.PushBack(Some(Float(vals[i])));
    }
    assert FloatCells(vals)[..|vals|] == FloatCells(vals);
    df := new DataFrame();
    df.AddColumn(column);
  }

  lemma OneColumnRows(vals: seq<U64>)
    ensures var f := Frame([FloatType], [FloatCells(vals)]);
            && Typed(f) && Rectangular(f) && |Rows(f)| == |vals|
            && forall r | 0 <= r < |vals| :: Rows(f)[r] == [Some(Float(vals[r]))]
  {
  }

  /** Row r of the producer's frame holds the double r, in its one column. */
  lemma {:induction false} CountingRows(fl: Doubles, rows: seq<Row>)
    requires ExactOnIntegers(fl) && |rows| <= EXACT
    requires forall r | 0 <= r < |rows| :: rows[r] == [Some(Float(fl.pattern(r)))]
    ensures WholeRows(fl, rows) && Total(fl, rows) == Size(fl, rows) == Triangle(|rows|)
    decreases |rows|
  {
    if rows != [] {
      var n := |rows| - 1;
      CountingRows(fl, rows[..n]);
      var row := rows[n];
      assert row[..0] == [] && fl.number(fl.pattern(n)) == n as real;
      assert WholeOf(fl, row[0]) == n && AllWhole(fl, row);
      assert TotalOfCells(fl, row) == SizeOfCells(fl, row) == n;
    }
  }

  /** A frame goes to another node as bytes. */
  method Transfer(df: DataFrame) returns (received: DataFrame)
    requires df.Valid() && FrameFits(df.View())
    ensures received.Valid() && received.View() == df.View()
  {
    hide EncodeFrame, DecodeFrame, FrameFits, DataFrame.Valid, DataFrame.View;
    var bytes := df.Serialize();
    FrameAtFront(df.View(), []);
    assert bytes + [] == bytes;
    var r := DataFrame.Deserialize(bytes, 0);
    received := r.value;
    Untouched(df);
  }

  /**
    The demo: the producer's frame goes to another node as bytes, and the counter's parallel sum
    over it is the producer's sequential sum, to the last bit.
   */
  method RunDemo(fl: Doubles, n: nat) returns (check: real, verify: real)
    requires ExactOnIntegers(fl) && Triangle(n) < EXACT
    ensures check == verify == Triangle(n) as real
  {
    hide EncodeFrame, DecodeFrame, DataFrame.Valid, DataFrame.View, Total, Size, WholeRows, Triangle, ExactOnIntegers;
    hide Rows, RowAt, Rectangular, Typed;
    TriangleGrows(if n > 0 then n - 1 else 0, n);
    var vals;
    vals, check := Producer(fl, n);
    var main := FromArray(vals);
    OneColumnRows(vals);
    var received := Transfer(main);
    ghost var rows := received.AllRows();
    CountingRows(fl, rows);
    verify := Counter(fl, received);
  }

  /** The frame of the demo is small enough. */
  lemma DemoIsExact()
    ensures Triangle(SZ) == 4_999_950_000 < EXACT
  {
    TriangleFormula(SZ);
  }

  // ---- why the bound ----

  /** A column of 10000 rows, most of them missing: 2^53 in the first thread's rows, and twice 1 in
      the second's. */
  function Uneven(big: U64, one: U64): (rows: seq<Row>)
    ensures |rows| == 10000
  {
    [[Some(Float(big))]] + seq(4999, _ => [None]) + [[Some(Float(one))], [Some(Float(one))]] + seq(4998, _ => [None])
  }

  lemma {:induction false} MissingAddsNothing(fl: Doubles, s: real, rows: seq<Row>)
    requires forall r | 0 <= r < |rows| :: rows[r] == [None]
    ensures Fold(Summing(fl), s, rows) == s
    decreases |rows|
  {
    if rows != [] {
      MissingAddsNothing(fl, s, rows[..|rows| - 1]);
      var row := rows[|rows| - 1];
      assert row[..0] == [] && SumCells(fl, s, row) == SumCells(fl, s, []);
    }
  }

  lemma OneRowAdds(fl: Doubles, s: real, row: Row)
    requires |row| == 1 && row[0].Some? && row[0].value.Float?
    ensures Fold(Summing(fl), s, [row]) == Add(fl, s, fl.number(row[0].value.bits))
  {
    FoldNone(Summing(fl), s, [row][..0]);
    assert row[..0] == [] && SumCells(fl, s, row) == Add(fl, SumCells(fl, s, []), fl.number(row[0].value.bits));
  }

  /** Two parts of a column are summed one after the other. */
  lemma SumParts(fl: Doubles, s: real, rows: seq<Row>, from: nat, mid: nat, till: nat)
    requires from <= mid <= till <= |rows|
    ensures Fold(Summing(fl), s, rows[from..till])
         == Fold(Summing(fl), Fold(Summing(fl), s, rows[from..mid]), rows[mid..till])
  {
    FoldAppend(Summing(fl), s, rows[from..mid], rows[mid..till]);
    assert rows[from..mid] + rows[mid..till] == rows[from..till];
  }

  lemma UnevenSum(fl: Doubles, big: U64, one: U64, s: real)
    ensures var rows := Uneven(big, one);
            && Fold(Summing(fl), s, rows[0..5000]) == Add(fl, s, fl.number(big))
            && Fold(Summing(fl), s, rows[5000..10000]) == Add(fl, Add(fl, s, fl.number(one)), fl.number(one))
  {
    hide Fold, SumCells, Add;
    var rows := Uneven(big, one);
    assert rows[0..1] == [[Some(Float(big))]] && rows[5000..5001] == [[Some(Float(one))]] == rows[5001..5002];
    SumParts(fl, s, rows, 0, 1, 5000);
    OneRowAdds(fl, s, rows[0]);
    MissingAddsNothing(fl, Add(fl, s, fl.number(big)), rows[1..5000]);
    SumParts(fl, s, rows, 5000, 5001, 10000);
    OneRowAdds(fl, s, rows[5000]);
    var s1 := Add(fl, s, fl.number(one));
    SumParts(fl, s1, rows, 5001, 5002, 10000);
    OneRowAdds(fl, s1, rows[5001]);
    MissingAddsNothing(fl, Add(fl, s1, fl.number(one)), rows[5002..10000]);
  }

  /** Beyond the bound `pmap` may differ from `map`: on this frame, when 2^53 + 1 is rounded to 2^53,
      as halves to even do, the first gives 2^53 + 2 and the second 2^53. */
  lemma PmapDiffersBeyond(fl: Doubles, big: U64, one: U64)
    requires ExactOnIntegers(fl) && fl.number(big) == EXACT as real && fl.number(one) == 1.0
    requires fl.round((EXACT + 1) as real) == EXACT as real && fl.round((EXACT + 2) as real) == (EXACT + 2) as real
    ensures Fold(Summing(fl), 0.0, Uneven(big, one)) == 9_007_199_254_740_992.0
    ensures ParallelFold(Summing(fl), 0.0, Uneven(big, one)) == 9_007_199_254_740_994.0
  {
    hide Fold, SumCells;
    var rows, r := Uneven(big, one), Summing(fl);
    AddExact(fl, 0, EXACT);
    AddExact(fl, 0, 1);
    AddExact(fl, 1, 1);
    assert EXACT as real + 1.0 == (EXACT + 1) as real && EXACT as real + 2.0 == (EXACT + 2) as real;
    UnevenSum(fl, big, one, 0.0);
    UnevenSum(fl, big, one, EXACT as real);
    SumParts(fl, 0.0, rows, 0, 5000, 10000);
    assert rows[0..10000] == rows;
    TwoThreads(r, 0.0, rows);
  }

  lemma TwoThreads(r: Rower<real>, s: real, rows: seq<Row>)
    requires |rows| == 10000
    ensures ParallelFold(r, s, rows) == r.join(Fold(r, s, rows[0..5000]), Fold(r, r.clone(s), rows[5000..10000]))
  {
    RangesPartition(10000);
    var ranges := RangesOf(10000);
    assert ranges == [Range(0, 5000), Range(5000, 10000)];
    assert Joined(r, s, rows, ranges, 1) == Fold(r, s, rows[0..5000]);
    assert Joined(r, s, rows, ranges, 2)
        == r.join(Joined(r, s, rows, ranges, 1), Fold(r, r.clone(s), rows[5000..10000]));
  }
}
