/** The values of the store: dataframes as tables of typed, possibly missing cells. */
module Frames {
  import opened Bytes
  import opened Wrappers

  datatype ColType = IntType | FloatType | BoolType | StringType

  /** One existing cell. A double is its bit pattern. */
  datatype Value = Int(i: Int32) | Float(bits: U64) | Bool(b: bool) | Text(s: Str)

  type Cell = Option<Value>
  type Row = seq<Cell>

  datatype Frame = Frame(types: seq<ColType>, columns: seq<seq<Cell>>)

  predicate HasType(v: Value, t: ColType) {
    match v
    case Int(_) => t.IntType?
    case Float(_) => t.FloatType?
    case Bool(_) => t.BoolType?
    case Text(_) => t.StringType?
  }

  predicate CellHasType(c: Cell, t: ColType) {
    c.Some? ==> HasType(c.value, t)
  }

  predicate ColumnHasType(cells: seq<Cell>, t: ColType) {
    forall i | 0 <= i < |cells| :: CellHasType(cells[i], t)
  }

  /** Every column holds cells of its type. */
  predicate Typed(f: Frame) {
    && |f.types| == |f.columns|
    && forall c | 0 <= c < |f.columns| :: ColumnHasType(f.columns[c], f.types[c])
  }

  predicate RowTyped(types: seq<ColType>, row: Row) {
    |row| == |types| && forall c | 0 <= c < |row| :: CellHasType(row[c], types[c])
  }

  predicate Rectangular(f: Frame) {
    forall c | 0 <= c < |f.columns| :: |f.columns[c]| == |f.columns[0]|
  }

  /** `DataFrame::nrows` of a frame built from columns. */
  function RowCount(f: Frame): nat {
    if |f.columns| > 0 then |f.columns[0]| else 0
  }

  function RowAt(f: Frame, r: nat): (row: Row)
    requires Rectangular(f) && r < RowCount(f)
    ensures |row| == |f.columns|
    ensures Typed(f) ==> RowTyped(f.types, row)
  {
    seq(|f.columns|, c requires 0 <= c < |f.columns| => f.columns[c][r])
  }

  /** The frame as the sequence of its rows. */
  function Rows(f: Frame): (rows: seq<Row>)
    requires Rectangular(f)
    ensures |rows| == RowCount(f)
    ensures forall r | 0 <= r < |rows| :: rows[r] == RowAt(f, r)
  {
    seq(RowCount(f), r requires 0 <= r < RowCount(f) => RowAt(f, r))
  }
}
