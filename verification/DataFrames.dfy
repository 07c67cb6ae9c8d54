/** Dataframes: columns of one type each, read and written by rows, encoded and decoded. */
module DataFrames {
  import opened Bytes
  import opened Frames
  import opened NullableArrays
  import opened Schemas
  import opened Serializable
  import opened Wrappers

  // ---- encoding ----

  function Codes(types: seq<ColType>): (codes: Str)
    ensures |codes| == |types|
  {
    seq(|types|, i requires 0 <= i < |types| => TypeCode(types[i]))
  }

  predicate CellsFit(cells: seq<Cell>) {
    |cells| < U64_LIMIT && forall i | 0 <= i < |cells| && cells[i].Some? :: ValueFits(cells[i].value)
  }

  /** Every count and length fits a size_t. */
  predicate FrameFits(f: Frame) {
    |f.columns| < U64_LIMIT && forall c | 0 <= c < |f.columns| :: CellsFit(f.columns[c])
  }

  function EncodeColumn(t: ColType, cells: seq<Cell>): seq<Byte>
    requires ColumnHasType(cells, t) && CellsFit(cells)
  {
    FromCellsIsCanonical(cells, t);
    EncodeNullable(FromCells(cells, t), t)
  }

  function EncodeColumns(f: Frame): seq<Byte>
    requires Typed(f) && FrameFits(f)
    decreases |f.columns|
  {
    if f.columns == [] then []
    else EncodeColumn(f.types[0], f.columns[0]) + EncodeColumns(Frame(f.types[1..], f.columns[1..]))
  }

  function EncodeFrame(f: Frame): (bytes: seq<Byte>)
    requires Typed(f) && FrameFits(f)
    ensures |bytes| == 16 + |f.types| + |EncodeColumns(f)|
  {
    EncodeSchema(Codes(f.types)) + (EncodeSize(|f.columns|) + EncodeColumns(f))
  }

  // ---- decoding ----

  function DecodeColumn(t: ColType, data: seq<Byte>, pos: nat): (r: Decoded<seq<Cell>>)
    ensures r.Ok? ==> ColumnHasType(r.value, t)
  {
    var n := DecodeNullable(t, data, pos);
    if n.Ok? then Ok(CellsOf(n.value), n.next) else n.Failed()
  }

  /** One column for each type character; an unknown character fails the decoder's assertion. */
  function DecodeColumns(codes: Str, data: seq<Byte>, pos: nat): (r: Decoded<Frame>)
    ensures r.Ok? ==> Typed(r.value)
    decreases |codes|
  {
    if codes == [] then Ok(Frame([], []), pos)
    else
      match TypeOf(codes[0])
      case None => Broken
      case Some(t) =>
        var column := DecodeColumn(t, data, pos);
        if !column.Ok? then column.Failed()
        else
          var rest := DecodeColumns(codes[1..], data, column.next);
          if rest.Ok? then Ok(Frame([t] + rest.value.types, [column.value] + rest.value.columns), rest.next)
          else rest
  }

  function DecodeFrame(data: seq<Byte>, pos: nat): (r: Decoded<Frame>)
    ensures r.Ok? ==> Typed(r.value)
  {
    var schema := DecodeSchema(data, pos);
    if !schema.Ok? then schema.Failed()
    else
      var count := DecodeSize(data, schema.next);
      if !count.Ok? then count.Failed()
      else if count.value != |schema.value| then Broken
      else DecodeColumns(schema.value, data, count.next)
  }

  // ---- round trip ----

  lemma ColumnRoundTrip(t: ColType, cells: seq<Cell>, data: seq<Byte>, pos: nat)
    requires ColumnHasType(cells, t) && CellsFit(cells) && At(data, pos, EncodeColumn(t, cells))
    ensures DecodeColumn(t, data, pos) == Ok(cells, pos + |EncodeColumn(t, cells)|)
  {
    FromCellsIsCanonical(cells, t);
    NullableRoundTrip(FromCells(cells, t), t, data, pos);
  }

  function Rest(f: Frame): Frame
    requires f.types != [] && f.columns != []
  {
    Frame(f.types[1..], f.columns[1..])
  }

  lemma FirstColumn(f: Frame, data: seq<Byte>, pos: nat)
    requires Typed(f) && FrameFits(f) && f.columns != [] && At(data, pos, EncodeColumns(f))
    ensures Typed(Rest(f)) && FrameFits(Rest(f))
    ensures var next := pos + |EncodeColumn(f.types[0], f.columns[0])|;
            && DecodeColumn(f.types[0], data, pos) == Ok(f.columns[0], next)
            && At(data, next, EncodeColumns(Rest(f)))
  {
    hide At, EncodeColumn, DecodeColumn, CellsFit;
    AtSplit(data, pos, EncodeColumn(f.types[0], f.columns[0]), EncodeColumns(Rest(f)));
    ColumnRoundTrip(f.types[0], f.columns[0], data, pos);
  }

  lemma CodesOfRest(f: Frame)
    requires Typed(f) && f.columns != []
    ensures Codes(f.types) != [] && TypeOf(Codes(f.types)[0]) == Some(f.types[0])
    ensures Codes(f.types)[1..] == Codes(Rest(f).types)
    ensures Frame([f.types[0]] + Rest(f).types, [f.columns[0]] + Rest(f).columns) == f
  {
    hide TypeCode, TypeOf, ColumnHasType;
    assert [f.types[0]] + f.types[1..] == f.types && [f.columns[0]] + f.columns[1..] == f.columns;
  }

  lemma DecodeFirstColumn(f: Frame, data: seq<Byte>, pos: nat, next: nat, end: nat)
    requires Typed(f) && f.columns != []
    requires DecodeColumn(f.types[0], data, pos) == Ok(f.columns[0], next)
    requires DecodeColumns(Codes(Rest(f).types), data, next) == Ok(Rest(f), end)
    ensures DecodeColumns(Codes(f.types), data, pos) == Ok(f, end)
  {
    hide Codes, Rest, DecodeColumn, ColumnHasType, TypeOf, TypeCode;
    CodesOfRest(f);
  }

  lemma {:induction false} ColumnsRoundTrip(f: Frame, data: seq<Byte>, pos: nat)
    requires Typed(f) && FrameFits(f) && At(data, pos, EncodeColumns(f))
    ensures DecodeColumns(Codes(f.types), data, pos) == Ok(f, pos + |EncodeColumns(f)|)
    decreases |f.columns|
  {
    hide EncodeColumn, DecodeColumn, At;
    if f.columns == [] {
      assert f == Frame([], []);
    } else {
      FirstColumn(f, data, pos);
      var next := pos + |EncodeColumn(f.types[0], f.columns[0])|;
      ColumnsRoundTrip(Rest(f), data, next);
      DecodeFirstColumn(f, data, pos, next, next + |EncodeColumns(Rest(f))|);
    }
  }

  lemma Parts(a: seq<Byte>, b: seq<Byte>, c: seq<Byte>, data: seq<Byte>, pos: nat)
    requires At(data, pos, a + (b + c))
    ensures At(data, pos, a) && At(data, pos + |a|, b) && At(data, pos + |a| + |b|, c)
  {
    AtSplit(data, pos, a, b + c);
    AtSplit(data, pos + |a|, b, c);
  }

  lemma PartsOfFrame(f: Frame, data: seq<Byte>, pos: nat)
    requires Typed(f) && FrameFits(f) && At(data, pos, EncodeFrame(f))
    ensures At(data, pos, EncodeSchema(Codes(f.types)))
    ensures At(data, pos + 8 + |f.types|, EncodeSize(|f.columns|))
    ensures At(data, pos + 16 + |f.types|, EncodeColumns(f))
  {
    hide At, EncodeColumns;
    Parts(EncodeSchema(Codes(f.types)), EncodeSize(|f.columns|), EncodeColumns(f), data, pos);
  }

  lemma SchemaOfFrame(f: Frame, data: seq<Byte>, pos: nat)
    requires Typed(f) && FrameFits(f) && At(data, pos, EncodeFrame(f))
    ensures DecodeSchema(data, pos) == Ok(Codes(f.types), pos + 8 + |f.types|)
  {
    hide At, EncodeColumns, EncodeFrame, DecodeSchema;
    PartsOfFrame(f, data, pos);
    SchemaRoundTripIff(data, pos, Codes(f.types));
  }

  lemma CountOfFrame(f: Frame, data: seq<Byte>, pos: nat)
    requires Typed(f) && FrameFits(f) && At(data, pos, EncodeFrame(f))
    ensures DecodeSize(data, pos + 8 + |f.types|) == Ok(|f.columns|, pos + 16 + |f.types|)
  {
    hide At, EncodeColumns, EncodeFrame, DecodeSize;
    PartsOfFrame(f, data, pos);
    SizeRoundTrip(data, pos + 8 + |f.types|, |f.columns|);
  }

  lemma BodyOfFrame(f: Frame, data: seq<Byte>, pos: nat)
    requires Typed(f) && FrameFits(f) && At(data, pos, EncodeFrame(f))
    ensures DecodeColumns(Codes(f.types), data, pos + 16 + |f.types|) == Ok(f, pos + |EncodeFrame(f)|)
  {
    hide EncodeColumns, DecodeColumns, EncodeFrame, At;
    PartsOfFrame(f, data, pos);
    ColumnsRoundTrip(f, data, pos + 16 + |f.types|);
  }

  lemma DecodeParts(data: seq<Byte>, pos: nat, codes: Str, n1: nat, n2: nat, f: Frame, end: nat)
    requires DecodeSchema(data, pos) == Ok(codes, n1) && DecodeSize(data, n1) == Ok(|codes|, n2)
    requires DecodeColumns(codes, data, n2) == Ok(f, end)
    ensures DecodeFrame(data, pos) == Ok(f, end)
  {
  }

  /** Decoding an encoded frame, at any offset and whatever follows it, gives the same column
      types and the same optional cells, and leaves the cursor exactly behind it. */
  lemma FrameRoundTrip(f: Frame, data: seq<Byte>, pos: nat)
    requires Typed(f) && FrameFits(f) && At(data, pos, EncodeFrame(f))
    ensures DecodeFrame(data, pos) == Ok(f, pos + |EncodeFrame(f)|)
  {
    hide At, EncodeFrame, EncodeColumns, DecodeFrame, DecodeColumns, DecodeSchema, DecodeSize;
    SchemaOfFrame(f, data, pos);
    CountOfFrame(f, data, pos);
    BodyOfFrame(f, data, pos);
    var w := |f.types|;
    DecodeParts(data, pos, Codes(f.types), pos + 8 + w, pos + 16 + w, f, pos + |EncodeFrame(f)|);
  }

  lemma FrameAtFront(f: Frame, after: seq<Byte>)
    requires Typed(f) && FrameFits(f)
    ensures DecodeFrame(EncodeFrame(f) + after, 0) == Ok(f, |EncodeFrame(f)|)
  {
    AtFront(EncodeFrame(f), after);
    FrameRoundTrip(f, EncodeFrame(f) + after, 0);
  }

  lemma AtFront(bytes: seq<Byte>, suffix: seq<Byte>)
    ensures At(bytes + suffix, 0, bytes)
  {
  }

  lemma SameSuffix(a: seq<Byte>, x: seq<Byte>, b: seq<Byte>, y: seq<Byte>)
    requires a + x == b + y && |a| == |b|
    ensures x == y
  {
    assert x == (a + x)[|a|..] && y == (b + y)[|b|..];
  }

  /** The encoding is injective and no encoded frame is a prefix of another one. */
  lemma EncodingIsPrefixFree(f: Frame, g: Frame, after: seq<Byte>, after': seq<Byte>)
    requires Typed(f) && FrameFits(f) && Typed(g) && FrameFits(g)
    requires EncodeFrame(f) + after == EncodeFrame(g) + after'
    ensures f == g && after == after'
  {
    FrameAtFront(f, after);
    FrameAtFront(g, after');
    SameSuffix(EncodeFrame(f), after, EncodeFrame(g), after');
  }

  // ---- rows ----

  /** The frame with one more row. */
  function WithRow(f: Frame, row: Row): (g: Frame)
    requires |row| == |f.columns|
  {
    Frame(f.types, seq(|f.columns|, c requires 0 <= c < |f.columns| => f.columns[c] + [row[c]]))
  }

  /** `add_row` appends a row to the table. */
  lemma WithRowAppends(f: Frame, row: Row)
    requires Rectangular(f) && f.columns != [] && |row| == |f.columns|
    ensures Rectangular(WithRow(f, row)) && Rows(WithRow(f, row)) == Rows(f) + [row]
  {
    var g := WithRow(f, row);
    assert forall c | 0 <= c < |g.columns| :: |g.columns[c]| == |f.columns[c]| + 1 == RowCount(f) + 1;
    forall r | 0 <= r < RowCount(g) ensures Rows(g)[r] == (Rows(f) + [row])[r] {
      forall c | 0 <= c < |row| ensures RowAt(g, r)[c] == (Rows(f) + [row])[r][c] {}
    }
  }

  function ColumnTypes(columns: seq<NullableArray>): (types: seq<ColType>)
    ensures |types| == |columns|
  {
    seq(|columns|, c requires 0 <= c < |columns| => columns[c].ty)
  }

  ghost function ColumnCells(columns: seq<NullableArray>): (cells: seq<seq<Cell>>)
    requires forall c | 0 <= c < |columns| :: columns[c].Valid() && |columns[c].bitmap| == |columns[c].data|
    reads columns
    ensures |cells| == |columns|
    ensures forall c | 0 <= c < |columns| :: cells[c] == columns[c].Cells()
  {
    if columns == [] then []
    else ColumnCells(columns[..|columns| - 1]) + [columns[|columns| - 1].Cells()]
  }

  class DataFrame {
    const schema: Schema
    var columns: seq<NullableArray>

    ghost predicate Valid()
      reads this, schema, columns
    {
      && schema.Valid() && |schema.columnTypes| == |columns|
      && (forall c | 0 <= c < |columns| ::
            columns[c].Valid() && TypeCode(columns[c].ty) == schema.columnTypes[c])
      && (forall c, d | 0 <= c < d < |columns| :: columns[c] != columns[d])
    }

    ghost function View(): (f: Frame)
      requires Valid()
      reads this, schema, columns
      ensures Typed(f) && |f.columns| == |columns|
      ensures forall c | 0 <= c < |columns| :: f.types[c] == columns[c].ty && f.columns[c] == columns[c].Cells()
    {
      Frame(ColumnTypes(columns), ColumnCells(columns))
    }

    /** The rows of a frame without columns are those its schema has counted, with no cells. */
    ghost function AllRows(): (rows: seq<Row>)
      requires Valid() && Rectangular(View())
      reads this, schema, columns
      ensures columns != [] ==> rows == Rows(View())
      ensures columns == [] ==> |rows| == schema.length && forall r | 0 <= r < |rows| :: rows[r] == []
    {
      if columns != [] then Rows(View()) else seq(schema.length, _ => [])
    }

    constructor ()
      ensures Valid() && View() == Frame([], []) && fresh(schema) && schema.length == 0
    {
      schema := new Schema();
      columns := [];
    }

    /** An empty column for each type of the schema; the program exits at an unknown one. */
    constructor FromSchema(schema: Schema)
      requires schema.Valid() && forall i | 0 <= i < schema.width :: TypeOf(schema.columnTypes[i]).Some?
      ensures Valid() && this.schema == schema && |columns| == schema.width
      ensures forall i | 0 <= i < |columns| ::
                && fresh(columns[i]) && Some(columns[i].ty) == TypeOf(schema.columnTypes[i])
                && columns[i].Cells() == []
    {
      this.schema := schema;
      columns := [];
      new;
      for i := 0 to schema.width
        invariant |columns| == i
        invariant forall c | 0 <= c < i ::
                    && fresh(columns[c]) && columns[c].Valid() && columns[c].Cells() == []
                    && Some(columns[c].ty) == TypeOf(schema.columnTypes[c])
        invariant forall c, d | 0 <= c < d < i :: columns[c] != columns[d]
      {
        var column := new NullableArray(TypeOf(schema.columnTypes[i]).value);
        columns := columns + [column];
      }
    }

    method AddColumn(column: NullableArray)
      requires Valid() && column.Valid() && column !in columns
      modifies this, schema
      ensures Valid() && columns == old(columns) + [column]
      ensures View() == Frame(old(View()).types + [column.ty], old(View()).columns + [column.Cells()])
    {
      hide CellsOf, CellHasType;
      schema.AddColumn(TypeCode(column.ty));
      columns := columns + [column];
    }

    /** The types of a row of this frame. */
    method Types() returns (types: seq<ColType>)
      requires Valid()
      ensures types == View().types
    {
      types := ColumnTypes(columns);
    }

    /** The table as a value. */
    method Table() returns (f: Frame)
      requires Valid()
      ensures f == View()
    {
      var cells: seq<seq<Cell>> := [];
      for c := 0 to |columns|
        invariant |cells| == c && forall d | 0 <= d < c :: cells[d] == columns[d].Cells()
      {
        cells := cells + [CellsOf(Nullable(columns[c].bitmap, columns[c].data))];
      }
      f := Frame(ColumnTypes(columns), cells);
      assert f.columns == View().columns;
    }

    method RowTotal() returns (n: nat)
      requires Valid()
      ensures n == if |columns| > 0 then RowCount(View()) else schema.length
      ensures Rectangular(View()) ==> n == |AllRows()|
    {
      if |columns| > 0 {
        return |columns[0].data|;
      }
      return schema.length;
    }

    lemma CellOfRow(r: nat, c: nat)
      requires Valid() && Rectangular(View()) && r < |AllRows()|
      ensures |AllRows()[r]| == |columns|
      ensures c < |columns| ==> r < |columns[c].data| && AllRows()[r][c] == columns[c].Cells()[r]
    {
      if c < |columns| {
        assert |View().columns[c]| == |View().columns[0]|;
      }
    }

    method FillRow(r: nat) returns (row: Row)
      requires Valid() && Rectangular(View()) && r < |AllRows()|
      ensures row == AllRows()[r]
    {
      hide AllRows, View, Rectangular, CellsOf;
      CellOfRow(r, 0);
      row := [];
      for c := 0 to |columns|
        invariant |row| == c && row == AllRows()[r][..c]
      {
        CellOfRow(r, c);
        var cell := columns[c].Get(r);
        row := row + [cell];
      }
    }

    method AddRow(row: Row)
      requires Valid() && RowTyped(View().types, row)
      modifies columns
      ensures Valid() && View() == WithRow(old(View()), row)
    {
      hide CellsOf, CellHasType;
      for c := 0 to |columns|
        modifies columns
        invariant forall d | 0 <= d < |columns| :: columns[d].Valid()
        invariant forall d | 0 <= d < |columns| ::
                    columns[d].Cells() == old(columns[d].Cells()) + if d < c then [row[d]] else []
      {
        columns[c].PushBack(row[c]);
      }
      assert View().columns == WithRow(old(View()), row).columns;
    }

    method Serialize() returns (bytes: seq<Byte>)
      requires Valid() && FrameFits(View())
      ensures bytes == EncodeFrame(View())
    {
      CodesOfSchema();
      bytes := schema.Serialize();
      var count := EncodeSize(|columns|);
      var body := SerializeColumns();
      bytes := bytes + (count + body);
    }

    lemma CodesOfSchema()
      requires Valid()
      ensures schema.columnTypes == Codes(View().types)
    {
    }

    method SerializeColumns() returns (body: seq<Byte>)
      requires Valid() && FrameFits(View())
      ensures body == EncodeColumns(View())
    {
      hide EncodeColumns, EncodeColumn, CellsFit, From;
      ghost var f := View();
      body := [];
      FromEnds(f);
      for c := 0 to |columns|
        invariant body + EncodeColumns(From(f, c)) == EncodeColumns(f)
      {
        var column := SerializeColumn(c);
        BodyStep(f, c, body, column);
        body := body + column;
      }
      assert body + [] == body;
    }

    method SerializeColumn(c: nat) returns (bytes: seq<Byte>)
      requires Valid() && FrameFits(View()) && c < |columns|
      ensures bytes == EncodeColumn(View().types[c], View().columns[c])
    {
      CanonicalIsUnique(columns[c].View(), columns[c].View(), columns[c].ty);
      assert CellsFit(View().columns[c]);
      CanonicalFits(columns[c].View(), columns[c].ty);
      bytes := columns[c].Serialize();
    }

    /** Reads one column and rebuilds it through `push_back`. */
    static method DeserializeColumn(t: ColType, data: seq<Byte>, start: nat) returns (r: Decoded<NullableArray>)
      ensures r.Short? <==> DecodeColumn(t, data, start).Short?
      ensures r.Broken? <==> DecodeColumn(t, data, start).Broken?
      ensures r.Ok? ==>
                && fresh(r.value) && r.value.Valid() && r.value.ty == t
                && DecodeColumn(t, data, start) == Ok(r.value.Cells(), r.next)
    {
      hide DecodeNullable;
      var read := NullableArray.Deserialize(t, data, start);
      if !read.Ok? {
        return read.Failed();
      }
      var column := new NullableArray(t);
      for i := 0 to |read.value.data|
        modifies column
        invariant column.Valid() && column.Cells() == read.value.Cells()[..i]
      {
        var cell := read.value.Get(i);
        column.PushBack(cell);
        assert read.value.Cells()[..i + 1] == read.value.Cells()[..i] + [read.value.Cells()[i]];
      }
      assert column.Cells() == read.value.Cells();
      return Ok(column, read.next);
    }

    /** Reads the column of the type character `code`, and adds it. */
    method ReadColumn(code: Byte, data: seq<Byte>, start: nat) returns (r: Decoded<()>)
      requires Valid()
      modifies this, schema
      ensures Valid()
      ensures TypeOf(code).None? ==> r.Broken?
      ensures TypeOf(code).Some? ==>
                var column := DecodeColumn(TypeOf(code).value, data, start);
                && (r.Short? <==> column.Short?) && (r.Broken? <==> column.Broken?)
                && (r.Ok? ==> column.Ok? && r.next == column.next
                              && View() == Join(old(View()), Frame([TypeOf(code).value], [column.value])))
    {
      var t := TypeOf(code);
      if t.None? {
        return Broken;
      }
      var column := DeserializeColumn(t.value, data, start);
      if !column.Ok? {
        return column.Failed();
      }
      AddColumn(column.value);
      return Ok((), column.next);
    }

    /** The decoder of a frame: reads the types and the number of columns, and then column after
        column of the type its type character tells. */
    static method Deserialize(data: seq<Byte>, start: nat) returns (r: Decoded<DataFrame>)
      ensures r.Short? <==> DecodeFrame(data, start).Short?
      ensures r.Broken? <==> DecodeFrame(data, start).Broken?
      ensures r.Ok? ==>
                fresh(r.value) && r.value.Valid() && DecodeFrame(data, start) == Ok(r.value.View(), r.next)
    {
      hide DecodeColumn, DecodeColumns, DecodeSchema, DecodeSize, TypeOf;
      var read := Schema.Deserialize(data, start);
      if !read.Ok? {
        return read.Failed();
      }
      var codes := read.value.columnTypes;
      var count := DecodeSize(data, read.next);
      if !count.Ok? {
        return count.Failed();
      }
      if count.value != read.value.width {
        return Broken;
      }
      var df := new DataFrame();
      var pos := count.next;
      ghost var all := DecodeColumns(codes, data, pos);
      StartColumns(codes, data, pos);
      for i := 0 to count.value
        modifies df, df.schema
        invariant df.Valid() && all == PrependColumns(df.View(), DecodeColumns(codes[i..], data, pos))
      {
        ghost var before := df.View();
        var column := df.ReadColumn(codes[i], data, pos);
        NextColumn(before, codes, i, data, pos);
        if !column.Ok? {
          return column.Failed();
        }
        pos := column.next;
      }
      EndColumns(df.View(), codes, data, pos);
      return Ok(df, pos);
    }
  }

  /** The columns of f and then the columns of g. */
  ghost function Join(f: Frame, g: Frame): Frame {
    Frame(f.types + g.types, f.columns + g.columns)
  }

  ghost function PrependColumns(f: Frame, r: Decoded<Frame>): Decoded<Frame> {
    if r.Ok? then Ok(Join(f, r.value), r.next) else r
  }

  lemma StartColumns(codes: Str, data: seq<Byte>, pos: nat)
    ensures DecodeColumns(codes, data, pos) == PrependColumns(Frame([], []), DecodeColumns(codes[0..], data, pos))
  {
    hide DecodeColumns;
    assert codes[0..] == codes;
    var r := DecodeColumns(codes, data, pos);
    assert r.Ok? ==> Join(Frame([], []), r.value) == r.value;
  }

  lemma EndColumns(f: Frame, codes: Str, data: seq<Byte>, pos: nat)
    ensures PrependColumns(f, DecodeColumns(codes[|codes|..], data, pos)) == Ok(f, pos)
  {
    assert Join(f, Frame([], [])) == f;
  }

  lemma NextColumn(f: Frame, codes: Str, i: nat, data: seq<Byte>, pos: nat)
    requires i < |codes|
    ensures var r := PrependColumns(f, DecodeColumns(codes[i..], data, pos));
            match TypeOf(codes[i])
            case None => r.Broken?
            case Some(t) =>
              var column := DecodeColumn(t, data, pos);
              && (column.Short? ==> r.Short?) && (column.Broken? ==> r.Broken?)
              && (column.Ok? ==> r == PrependColumns(Join(f, Frame([t], [column.value])),
                                              DecodeColumns(codes[i + 1..], data, column.next)))
  {
    hide DecodeColumn, TypeOf;
    assert codes[i..][1..] == codes[i + 1..];
    if TypeOf(codes[i]).Some? {
      var t := TypeOf(codes[i]).value;
      var column := DecodeColumn(t, data, pos);
      if column.Ok? {
        var rest := DecodeColumns(codes[i + 1..], data, column.next);
        if rest.Ok? {
          JoinIsAssociative(f, Frame([t], [column.value]), rest.value);
        }
      }
    }
  }

  lemma JoinIsAssociative(f: Frame, g: Frame, h: Frame)
    ensures Join(f, Join(g, h)) == Join(Join(f, g), h)
  {
  }

  /** A frame whose objects have not changed still shows the same table. */
  twostate lemma Untouched(df: DataFrame)
    requires old(df.Valid()) && unchanged(df) && unchanged(df.schema) && forall c | c in df.columns :: unchanged(c)
    ensures df.Valid() && df.View() == old(df.View())
    ensures Rectangular(df.View()) ==> df.AllRows() == old(df.AllRows())
  {
    forall c | 0 <= c < |df.columns| ensures unchanged(df.columns[c]) {
      assert df.columns[c] in df.columns;
    }
    assert forall c | 0 <= c < |df.columns| :: df.columns[c].Valid() && df.columns[c].ty == old(df.columns[c].ty);
    assert df.View().types == old(df.View()).types;
    assert df.View().columns == old(df.View()).columns;
  }

  /** A canonical array whose cells fit has only values that fit. */
  lemma CanonicalFits(n: Nullable, t: ColType)
    requires Canonical(n, t) && CellsFit(CellsOf(n))
    ensures Encodable(n)
  {
    forall i | 0 <= i < |n.data| ensures ValueFits(n.data[i]) {
      assert n.bitmap[i] ==> CellsOf(n)[i] == Some(n.data[i]);
    }
  }

  lemma Regroup(a: seq<Byte>, b: seq<Byte>, c: seq<Byte>)
    ensures a + (b + c) == a + b + c
  {
  }

  /** The frame without its first c columns. */
  ghost function From(f: Frame, c: nat): (g: Frame)
    requires Typed(f) && FrameFits(f) && c <= |f.columns|
    ensures Typed(g) && FrameFits(g)
  {
    Frame(f.types[c..], f.columns[c..])
  }

  lemma FromEnds(f: Frame)
    requires Typed(f) && FrameFits(f)
    ensures EncodeColumns(From(f, 0)) == EncodeColumns(f)
    ensures EncodeColumns(From(f, |f.columns|)) == []
  {
  }

  lemma BodyStep(f: Frame, c: nat, body: seq<Byte>, column: seq<Byte>)
    requires Typed(f) && FrameFits(f) && c < |f.columns| && column == EncodeColumn(f.types[c], f.columns[c])
    ensures body + column + EncodeColumns(From(f, c + 1)) == body + EncodeColumns(From(f, c))
  {
  }
}
