/** The bytes of the encodings, place by place, and which bytes the decoders refuse. */
module WireFormat {
  import opened Bytes
  import opened DataFrames
  import opened Frames
  import opened Messages
  import opened NullableArrays
  import opened Packets
  import opened Schemas
  import opened Serializable
  import opened Wrappers

  // ---- numbers ----

  /** An int is four bytes of its two's complement, the lowest first. */
  lemma IntBytes(i: Int32)
    ensures var n := i % 0x1_0000_0000;
            EncodeInt(i) == [n % 256, n / 256 % 256, n / 65536 % 256, n / 16777216]
  {
    hide LittleEndian;
    var n: nat := i % 0x1_0000_0000;
    assert EncodeInt(i) == LittleEndian(n, 4);
    FourDigits(n);
  }

  lemma FourDigits(n: nat)
    requires n < U32_LIMIT
    ensures LittleEndian(n, 4) == [n % 256, n / 256 % 256, n / 65536 % 256, n / 16777216]
  {
    hide LittleEndian;
    LittleEndianDigits(n, 4, 0);
    LittleEndianDigits(n, 4, 1);
    LittleEndianDigits(n, 4, 2);
    LittleEndianDigits(n, 4, 3);
  }

  /** Four bytes are read as an int whatever they are, and it is the int with these bytes; fewer are too
      few. */
  lemma IntIsRead(data: seq<Byte>, pos: nat)
    ensures if pos + 4 <= |data| then
              && DecodeInt(data, pos).Ok? && DecodeInt(data, pos).next == pos + 4
              && EncodeInt(DecodeInt(data, pos).value) == data[pos..pos + 4]
            else DecodeInt(data, pos).Short?
  {
    if pos + 4 <= |data| {
      WidthLimits();
      LittleEndianOnto(data[pos..pos + 4]);
    }
  }

  /** So are eight bytes as a size_t. */
  lemma SizeIsRead(data: seq<Byte>, pos: nat)
    ensures if pos + 8 <= |data| then
              && DecodeSize(data, pos).Ok? && DecodeSize(data, pos).next == pos + 8
              && EncodeSize(DecodeSize(data, pos).value) == data[pos..pos + 8]
            else DecodeSize(data, pos).Short?
  {
    if pos + 8 <= |data| {
      WidthLimits();
      LittleEndianOnto(data[pos..pos + 8]);
    }
  }

  /** A string is read exactly if all the characters that its length announces are there. */
  lemma StringIsRead(data: seq<Byte>, pos: nat)
    ensures match DecodeString(data, pos)
            case Ok(s, next) => next <= |data| && |s| < U64_LIMIT && data[pos..next] == EncodeString(s)
            case Short => pos + 8 > |data| || |data| < pos + 8 + DecodeSize(data, pos).value
            case Broken => false
  {
    hide DecodeSize, EncodeSize;
    SizeIsRead(data, pos);
    var r := DecodeString(data, pos);
    if r.Ok? {
      assert data[pos..r.next] == data[pos..pos + 8] + data[pos + 8..r.next];
    }
  }

  // ---- vectors of bools ----

  function One(b: bool): nat {
    if b then 1 else 0
  }

  /** Element i of the vector, false behind its end. */
  predicate ElementAt(bools: seq<bool>, i: nat) {
    i < |bools| && bools[i]
  }

  /** Byte j behind the length holds the elements 8j to 8j+7, the first in the lowest bit. */
  lemma BoolBytes(bools: seq<bool>, j: nat)
    requires |bools| < U64_LIMIT && 8 * j < |bools|
    ensures 8 + j < |EncodeBools(bools)|
    ensures EncodeBools(bools)[8 + j]
         == One(ElementAt(bools, 8 * j)) + 2 * One(ElementAt(bools, 8 * j + 1))
            + 4 * One(ElementAt(bools, 8 * j + 2)) + 8 * One(ElementAt(bools, 8 * j + 3))
            + 16 * One(ElementAt(bools, 8 * j + 4)) + 32 * One(ElementAt(bools, 8 * j + 5))
            + 64 * One(ElementAt(bools, 8 * j + 6)) + 128 * One(ElementAt(bools, 8 * j + 7))
  {
    hide EncodeSize, FromBits;
    assert EncodeBools(bools)[8 + j] == ByteAt(bools, j) == FromBits(BitsAt(bools, j));
    EightBits(BitsAt(bools, j));
  }

  lemma EightBits(bits: seq<nat>)
    requires |bits| == 8
    ensures FromBits(bits) == bits[0] + 2 * bits[1] + 4 * bits[2] + 8 * bits[3] + 16 * bits[4] + 32 * bits[5]
                              + 64 * bits[6] + 128 * bits[7]
  {
    assert FromBits(bits[1..]) == bits[1] + 2 * FromBits(bits[2..]);
    assert FromBits(bits[2..]) == bits[2] + 2 * FromBits(bits[3..]);
    assert FromBits(bits[3..]) == bits[3] + 2 * FromBits(bits[4..]);
    assert FromBits(bits[4..]) == bits[4] + 2 * FromBits(bits[5..]);
    assert FromBits(bits[5..]) == bits[5] + 2 * FromBits(bits[6..]);
    assert FromBits(bits[6..]) == bits[6] + 2 * FromBits(bits[7..]);
    assert FromBits(bits[7..]) == bits[7];
  }

  /** A vector is read exactly if there is a byte for every eight elements begun; if not, an assertion
      fails. */
  lemma BoolsAreRead(data: seq<Byte>, pos: nat)
    ensures if pos + 8 > |data| then DecodeBools(data, pos).Short?
            else
              var n := DecodeSize(data, pos).value;
              if |data| < pos + 8 + (n + 7) / 8 then DecodeBools(data, pos).Broken?
              else
                && DecodeBools(data, pos).Ok? && DecodeBools(data, pos).next == pos + 8 + (n + 7) / 8
                && |DecodeBools(data, pos).value| == n
  {
    SizeIsRead(data, pos);
  }

  // ---- columns ----

  /** What stands in a missing slot. */
  lemma MissingSlots(n: Nullable, t: ColType, i: nat)
    requires Canonical(n, t) && i < |n.data| && !n.bitmap[i]
    ensures n.data[i] == match t
                         case IntType => Int(0)
                         case FloatType => Float(0)
                         case BoolType => Bool(false)
                         case StringType => Text([])
  {
  }

  /** Which cells exist. */
  function Existing(cells: seq<Cell>): (flags: seq<bool>)
    ensures |flags| == |cells| && forall i | 0 <= i < |cells| :: flags[i] <==> cells[i].Some?
  {
    seq(|cells|, i requires 0 <= i < |cells| => cells[i].Some?)
  }

  /** Which cells are true. */
  function AreTrue(cells: seq<Cell>): (flags: seq<bool>)
    ensures |flags| == |cells| && forall i | 0 <= i < |cells| :: flags[i] <==> cells[i] == Some(Bool(true))
  {
    seq(|cells|, i requires 0 <= i < |cells| => cells[i] == Some(Bool(true)))
  }

  /** A bool column is two vectors: which cells exist, and which are true. */
  lemma BoolColumnBytes(cells: seq<Cell>)
    requires ColumnHasType(cells, BoolType) && CellsFit(cells)
    ensures EncodeColumn(BoolType, cells) == EncodeBools(Existing(cells)) + EncodeBools(AreTrue(cells))
  {
    hide EncodeBools;
    var n := FromCells(cells, BoolType);
    FromCellsIsCanonical(cells, BoolType);
    assert n.bitmap == Existing(cells);
    assert BoolData(n.data) == AreTrue(cells);
  }

  /** The values of the cells that exist can be encoded one by one. */
  predicate Encodables(cells: seq<Cell>) {
    forall i | 0 <= i < |cells| && cells[i].Some? :: ValueFits(cells[i].value) && !cells[i].value.Bool?
  }

  /** The encoded values of the cells that exist. */
  function ExistingValues(cells: seq<Cell>): seq<Byte>
    requires Encodables(cells)
  {
    if cells == [] then []
    else (if cells[0].Some? then EncodeValue(cells[0].value) else []) + ExistingValues(cells[1..])
  }

  lemma CellsButFirst(cells: seq<Cell>, t: ColType)
    requires cells != []
    ensures FromCells(cells, t).bitmap[1..] == FromCells(cells[1..], t).bitmap
    ensures FromCells(cells, t).data[1..] == FromCells(cells[1..], t).data
  {
  }

  lemma {:induction false} PresentIsExisting(cells: seq<Cell>, t: ColType)
    requires ColumnHasType(cells, t) && !t.BoolType?
    requires forall i | 0 <= i < |cells| && cells[i].Some? :: ValueFits(cells[i].value)
    ensures var n := FromCells(cells, t);
            && (forall i | 0 <= i < |n.data| :: ValueFits(n.data[i]) && !n.data[i].Bool?)
            && EncodePresent(n.bitmap, n.data) == ExistingValues(cells)
    decreases |cells|
  {
    var n := FromCells(cells, t);
    assert forall i | 0 <= i < |n.data| :: HasType(n.data[i], t);
    if cells != [] {
      PresentIsExisting(cells[1..], t);
      CellsButFirst(cells, t);
    }
  }

  /** A column of another type is the vector of what exists and then the existing values. */
  lemma OtherColumnBytes(t: ColType, cells: seq<Cell>)
    requires ColumnHasType(cells, t) && CellsFit(cells) && !t.BoolType?
    ensures EncodeColumn(t, cells) == EncodeBools(Existing(cells)) + ExistingValues(cells)
  {
    hide EncodeBools;
    FromCellsIsCanonical(cells, t);
    PresentIsExisting(cells, t);
    assert FromCells(cells, t).bitmap == Existing(cells);
  }

  /** The letters of the types. */
  lemma TypeLetters()
    ensures Spells(Codes([IntType, FloatType, BoolType, StringType]), "IFBS")
    ensures forall code: Byte :: TypeOf(code).Some? <==> code as char in "IFBS"
  {
  }

  // ---- what is read is what stands there ----

  lemma ValueIsRead(t: ColType, data: seq<Byte>, pos: nat)
    requires !t.BoolType? && DecodeValue(t, data, pos).Ok?
    ensures var r := DecodeValue(t, data, pos);
            && pos <= r.next <= |data| && !r.value.Bool? && ValueFits(r.value)
            && data[pos..r.next] == EncodeValue(r.value)
  {
    match t
    case IntType => IntIsRead(data, pos);
    case FloatType => SizeIsRead(data, pos);
    case StringType => StringIsRead(data, pos);
  }

  /** The cells that the bitmap and the values stand for. */
  function CellsFor(flags: seq<bool>, values: seq<Value>): (cells: seq<Cell>)
    requires |flags| == |values|
    ensures |cells| == |flags| && forall i | 0 <= i < |cells| :: cells[i] == if flags[i] then Some(values[i]) else None
  {
    CellsOf(Nullable(flags, values))
  }

  lemma SlotIsRead(t: ColType, bit: bool, data: seq<Byte>, pos: nat)
    requires !t.BoolType? && DecodeSlot(t, bit, data, pos).Ok? && pos <= |data|
    ensures var r := DecodeSlot(t, bit, data, pos);
            && pos <= r.next <= |data|
            && (bit ==> ValueFits(r.value) && !r.value.Bool?)
            && data[pos..r.next] == EncodeSlot(bit, r.value)
  {
    if bit {
      ValueIsRead(t, data, pos);
    }
  }

  lemma SlotJoins(
    bit: bool, v: Value, flags: seq<bool>, values: seq<Value>, data: seq<Byte>, pos: nat, mid: nat, end: nat)
    requires |flags| == |values| && (bit ==> ValueFits(v) && !v.Bool?) && Encodables(CellsFor(flags, values))
    requires pos <= mid <= end <= |data|
    requires data[pos..mid] == EncodeSlot(bit, v) && data[mid..end] == ExistingValues(CellsFor(flags, values))
    ensures var cells := CellsFor([bit] + flags, [v] + values);
            Encodables(cells) && data[pos..end] == ExistingValues(cells)
  {
    hide EncodeValue, ValueFits;
    var cells := CellsFor([bit] + flags, [v] + values);
    assert cells == [if bit then Some(v) else None] + CellsFor(flags, values);
    assert cells[1..] == CellsFor(flags, values);
    SlicesJoin(data, pos, mid, end);
  }

  lemma SlicesJoin(data: seq<Byte>, pos: nat, mid: nat, end: nat)
    requires pos <= mid <= end <= |data|
    ensures data[pos..end] == data[pos..mid] + data[mid..end]
  {
  }

  lemma {:induction false} PresentIsRead(t: ColType, flags: seq<bool>, data: seq<Byte>, pos: nat)
    requires !t.BoolType? && DecodePresent(t, flags, data, pos).Ok? && pos <= |data|
    ensures var r := DecodePresent(t, flags, data, pos);
            var cells := CellsFor(flags, r.value);
            pos <= r.next <= |data| && Encodables(cells) && data[pos..r.next] == ExistingValues(cells)
    decreases |flags|
  {
    if flags != [] {
      hide DecodeSlot, EncodeSlot, CellsFor, ExistingValues, Encodables, ValueFits;
      var first := DecodeSlot(t, flags[0], data, pos);
      SlotIsRead(t, flags[0], data, pos);
      PresentIsRead(t, flags[1..], data, first.next);
      var rest := DecodePresent(t, flags[1..], data, first.next);
      SlotJoins(flags[0], first.value, flags[1..], rest.value, data, pos, first.next, rest.next);
      assert [flags[0]] + flags[1..] == flags;
    }
  }

  /** What is accepted as a column, up to the bits behind the end of a vector, is the encoding of the
      cells that come out; in a bool column there are as many bits as cells. */
  lemma ColumnIsRead(t: ColType, data: seq<Byte>, pos: nat)
    requires DecodeColumn(t, data, pos).Ok?
    ensures var r := DecodeColumn(t, data, pos);
            var flags := DecodeBools(data, pos);
            && flags.Ok? && flags.value == Existing(r.value)
            && if t.BoolType? then
                 var bools := DecodeBools(data, flags.next);
                 && bools.Ok? && bools.next == r.next && |bools.value| == |r.value|
                 && forall i | 0 <= i < |r.value| && r.value[i].Some? :: r.value[i] == Some(Bool(bools.value[i]))
               else
                 && flags.next <= r.next <= |data|
                 && Encodables(r.value) && data[flags.next..r.next] == ExistingValues(r.value)
  {
    hide DecodeBools, DecodePresent;
    var flags, r := DecodeBools(data, pos), DecodeColumn(t, data, pos);
    if !t.BoolType? {
      PresentIsRead(t, flags.value, data, flags.next);
      assert r.value == CellsFor(flags.value, DecodePresent(t, flags.value, data, flags.next).value);
    }
    assert flags.value == Existing(r.value);
  }

  /** What is accepted as a frame begins with a string that the schema reads as the letters of the
      frame's types, and with the number of its columns; with any other number an assertion fails. */
  lemma FrameIsRead(data: seq<Byte>, pos: nat)
    ensures DecodeFrame(data, pos).Ok? ==>
              var f, raw := DecodeFrame(data, pos).value, DecodeString(data, pos);
              && raw.Ok? && Kept(raw.value) == Codes(f.types)
              && raw.next + 8 <= |data| && data[raw.next..raw.next + 8] == EncodeSize(|f.columns|)
    ensures var raw := DecodeString(data, pos);
            raw.Ok? && DecodeSize(data, raw.next).Ok? && DecodeSize(data, raw.next).value != |Kept(raw.value)| ==>
              DecodeFrame(data, pos).Broken?
  {
    hide DecodeColumns, DecodeString, DecodeSize, Kept;
    var raw := DecodeString(data, pos);
    if DecodeFrame(data, pos).Ok? {
      SizeIsRead(data, raw.next);
      TypesAreRead(Kept(raw.value), data, raw.next + 8);
    }
  }

  lemma {:induction false} TypesAreRead(codes: Str, data: seq<Byte>, pos: nat)
    requires DecodeColumns(codes, data, pos).Ok?
    ensures Codes(DecodeColumns(codes, data, pos).value.types) == codes
    decreases |codes|
  {
    if codes != [] {
      hide DecodeColumn, TypeOf, TypeCode;
      var t := TypeOf(codes[0]).value;
      var next := DecodeColumn(t, data, pos).next;
      TypesAreRead(codes[1..], data, next);
      var types := DecodeColumns(codes[1..], data, next).value.types;
      assert Codes([t] + types) == [TypeCode(t)] + Codes(types);
    }
  }

  // ---- a frame that is cut off ----

  lemma SizeOfMore(data: seq<Byte>, more: seq<Byte>, pos: nat)
    requires data <= more && DecodeSize(data, pos).Ok?
    ensures DecodeSize(more, pos) == DecodeSize(data, pos) && DecodeSize(data, pos).next <= |data|
  {
    assert more[pos..pos + 8] == data[pos..pos + 8];
  }

  lemma IntOfMore(data: seq<Byte>, more: seq<Byte>, pos: nat)
    requires data <= more && DecodeInt(data, pos).Ok?
    ensures DecodeInt(more, pos) == DecodeInt(data, pos) && DecodeInt(data, pos).next <= |data|
  {
    assert more[pos..pos + 4] == data[pos..pos + 4];
  }

  lemma StringOfMore(data: seq<Byte>, more: seq<Byte>, pos: nat)
    requires data <= more && DecodeString(data, pos).Ok?
    ensures DecodeString(more, pos) == DecodeString(data, pos) && DecodeString(data, pos).next <= |data|
  {
    SizeOfMore(data, more, pos);
    var r := DecodeString(data, pos);
    assert more[pos + 8..r.next] == data[pos + 8..r.next];
  }

  lemma BoolsOfMore(data: seq<Byte>, more: seq<Byte>, pos: nat)
    requires data <= more && DecodeBools(data, pos).Ok?
    ensures DecodeBools(more, pos) == DecodeBools(data, pos) && DecodeBools(data, pos).next <= |data|
  {
    hide DecodeSize, Bit;
    SizeOfMore(data, more, pos);
    var size := DecodeSize(data, pos);
    forall i | 0 <= i < size.value ensures BitOf(more, size.next, i) == BitOf(data, size.next, i) {
      assert more[size.next + i / 8] == data[size.next + i / 8];
    }
    assert BitsOf(more, size.next, size.value) == BitsOf(data, size.next, size.value);
  }

  lemma SlotOfMore(t: ColType, bit: bool, data: seq<Byte>, more: seq<Byte>, pos: nat)
    requires data <= more && !t.BoolType? && DecodeSlot(t, bit, data, pos).Ok?
    ensures DecodeSlot(t, bit, more, pos) == DecodeSlot(t, bit, data, pos)
    ensures pos <= |data| ==> DecodeSlot(t, bit, data, pos).next <= |data|
  {
    hide DecodeSize, DecodeInt, DecodeString;
    if bit {
      match t
      case IntType => IntOfMore(data, more, pos);
      case FloatType => SizeOfMore(data, more, pos);
      case StringType => StringOfMore(data, more, pos);
    }
  }

  lemma {:induction false} PresentOfMore(t: ColType, flags: seq<bool>, data: seq<Byte>, more: seq<Byte>, pos: nat)
    requires data <= more && pos <= |data| && !t.BoolType? && DecodePresent(t, flags, data, pos).Ok?
    ensures DecodePresent(t, flags, more, pos) == DecodePresent(t, flags, data, pos)
    ensures DecodePresent(t, flags, data, pos).next <= |data|
    decreases |flags|
  {
    if flags != [] {
      hide DecodeSlot;
      SlotOfMore(t, flags[0], data, more, pos);
      PresentOfMore(t, flags[1..], data, more, DecodeSlot(t, flags[0], data, pos).next);
    }
  }

  lemma ColumnOfMore(t: ColType, data: seq<Byte>, more: seq<Byte>, pos: nat)
    requires data <= more && DecodeColumn(t, data, pos).Ok?
    ensures DecodeColumn(t, more, pos) == DecodeColumn(t, data, pos) && DecodeColumn(t, data, pos).next <= |data|
  {
    hide DecodeBools, DecodePresent;
    BoolsOfMore(data, more, pos);
    var flags := DecodeBools(data, pos);
    if t.BoolType? {
      BoolsOfMore(data, more, flags.next);
    } else {
      PresentOfMore(t, flags.value, data, more, flags.next);
    }
  }

  lemma {:induction false} ColumnsOfMore(codes: Str, data: seq<Byte>, more: seq<Byte>, pos: nat)
    requires data <= more && pos <= |data| && DecodeColumns(codes, data, pos).Ok?
    ensures DecodeColumns(codes, more, pos) == DecodeColumns(codes, data, pos)
    ensures DecodeColumns(codes, data, pos).next <= |data|
    decreases |codes|
  {
    if codes != [] {
      hide DecodeColumn, TypeOf;
      var t := TypeOf(codes[0]).value;
      ColumnOfMore(t, data, more, pos);
      ColumnsOfMore(codes[1..], data, more, DecodeColumn(t, data, pos).next);
    }
  }

  /** More bytes behind a frame do not change how it is read. */
  lemma FrameOfMore(data: seq<Byte>, more: seq<Byte>, pos: nat)
    requires data <= more && DecodeFrame(data, pos).Ok?
    ensures DecodeFrame(more, pos) == DecodeFrame(data, pos) && DecodeFrame(data, pos).next <= |data|
  {
    hide DecodeString, DecodeSize, DecodeColumns, Kept;
    StringOfMore(data, more, pos);
    var raw := DecodeString(data, pos);
    SizeOfMore(data, more, raw.next);
    ColumnsOfMore(Kept(raw.value), data, more, DecodeSize(data, raw.next).next);
  }

  /** A frame of which the last bytes have not come is never taken for a frame. */
  lemma CutOffIsRefused(f: Frame, k: nat)
    requires Typed(f) && FrameFits(f) && k < |EncodeFrame(f)|
    ensures !DecodeFrame(EncodeFrame(f)[..k], 0).Ok?
  {
    hide EncodeFrame, DecodeFrame;
    var bytes := EncodeFrame(f);
    FrameAtFront(f, []);
    assert bytes + [] == bytes;
    if DecodeFrame(bytes[..k], 0).Ok? {
      FrameOfMore(bytes[..k], bytes, 0);
    }
  }

  // ---- one packet, byte by byte ----

  /** Two rows of four columns, one of each type, with a missing cell in each. */
  function Sample(): Frame {
    Frame([IntType, FloatType, BoolType, StringType],
          [[Some(Int(-2)), None], [None, Some(Float(5))], [Some(Bool(true)), None], [Some(Text([97, 98])), None]])
  }

  lemma {:induction false} Zeros(k: nat)
    ensures LittleEndian(0, k) == seq(k, _ => 0)
  {
    if k > 0 {
      Zeros(k - 1);
      assert seq(k, _ => 0) == [0] + seq(k - 1, _ => 0);
    }
  }

  lemma SmallSize(n: nat)
    requires n < 256
    ensures EncodeSize(n) == [n, 0, 0, 0, 0, 0, 0, 0]
  {
    Zeros(7);
  }

  lemma TwoFlags(a: bool, b: bool)
    ensures EncodeBools([a, b]) == [2, 0, 0, 0, 0, 0, 0, 0, One(a) + 2 * One(b)]
  {
    hide EncodeSize;
    SmallSize(2);
    BoolBytes([a, b], 0);
    assert EncodeBools([a, b])[..8] == EncodeSize(2);
    assert EncodeBools([a, b]) == EncodeBools([a, b])[..8] + [EncodeBools([a, b])[8]];
  }

  lemma OneOfTwo(t: ColType, first: bool, v: Value)
    requires HasType(v, t) && !t.BoolType? && ValueFits(v)
    ensures var cells := if first then [Some(v), None] else [None, Some(v)];
            && ColumnHasType(cells, t) && CellsFit(cells)
            && EncodeColumn(t, cells)
               == [2, 0, 0, 0, 0, 0, 0, 0, if first then 1 else 2] + EncodeValue(v)
  {
    hide EncodeBools, EncodeColumn, EncodeValue;
    var cells := if first then [Some(v), None] else [None, Some(v)];
    OtherColumnBytes(t, cells);
    assert Existing(cells) == [first, !first];
    TwoFlags(first, !first);
    assert ExistingValues(cells[1..][1..]) == [];
    assert ExistingValues(cells) == EncodeValue(v);
  }

  lemma SampleColumns()
    ensures var f := Sample();
            && Typed(f) && FrameFits(f)
            && EncodeColumn(IntType, f.columns[0]) == [2, 0, 0, 0, 0, 0, 0, 0, 1, 254, 255, 255, 255]
            && EncodeColumn(FloatType, f.columns[1]) == [2, 0, 0, 0, 0, 0, 0, 0, 2, 5, 0, 0, 0, 0, 0, 0, 0]
            && EncodeColumn(BoolType, f.columns[2]) == [2, 0, 0, 0, 0, 0, 0, 0, 1, 2, 0, 0, 0, 0, 0, 0, 0, 1]
            && EncodeColumn(StringType, f.columns[3]) == [2, 0, 0, 0, 0, 0, 0, 0, 1, 2, 0, 0, 0, 0, 0, 0, 0, 97, 98]
  {
    hide EncodeBools, EncodeColumn, EncodeSize, EncodeInt;
    OneOfTwo(IntType, true, Int(-2));
    IntBytes(-2);
    OneOfTwo(FloatType, false, Float(5));
    SmallSize(5);
    OneOfTwo(StringType, true, Text([97, 98]));
    SmallSize(2);
    SampleFlags();
  }

  lemma SampleFlags()
    ensures var cells: seq<Cell> := [Some(Bool(true)), None];
            && ColumnHasType(cells, BoolType) && CellsFit(cells)
            && EncodeColumn(BoolType, cells) == [2, 0, 0, 0, 0, 0, 0, 0, 1, 2, 0, 0, 0, 0, 0, 0, 0, 1]
  {
    hide EncodeBools, EncodeColumn;
    var cells: seq<Cell> := [Some(Bool(true)), None];
    BoolColumnBytes(cells);
    assert Existing(cells) == [true, false] == AreTrue(cells);
    TwoFlags(true, false);
  }

  /** The columns of the frame, one after the other. */
  lemma ColumnsJoined(f: Frame)
    requires Typed(f) && FrameFits(f) && |f.columns| == 4
    ensures EncodeColumns(f) == EncodeColumn(f.types[0], f.columns[0]) + EncodeColumn(f.types[1], f.columns[1])
                                + EncodeColumn(f.types[2], f.columns[2]) + EncodeColumn(f.types[3], f.columns[3])
  {
    hide EncodeColumn;
    var r1 := Rest(f);
    var r2 := Rest(r1);
    var r3 := Rest(r2);
    assert EncodeColumns(r3) == EncodeColumn(f.types[3], f.columns[3]) + EncodeColumns(Rest(r3));
    assert EncodeColumns(r2) == EncodeColumn(f.types[2], f.columns[2]) + EncodeColumns(r3);
    assert EncodeColumns(r1) == EncodeColumn(f.types[1], f.columns[1]) + EncodeColumns(r2);
  }

  /** Its bytes: the types with their number, the number of columns, and the columns. */
  lemma SampleFrame()
    ensures Typed(Sample()) && FrameFits(Sample())
    ensures EncodeFrame(Sample())
         == [4, 0, 0, 0, 0, 0, 0, 0, 73, 70, 66, 83, 4, 0, 0, 0, 0, 0, 0, 0]
            + [2, 0, 0, 0, 0, 0, 0, 0, 1, 254, 255, 255, 255]
            + [2, 0, 0, 0, 0, 0, 0, 0, 2, 5, 0, 0, 0, 0, 0, 0, 0]
            + [2, 0, 0, 0, 0, 0, 0, 0, 1, 2, 0, 0, 0, 0, 0, 0, 0, 1]
            + [2, 0, 0, 0, 0, 0, 0, 0, 1, 2, 0, 0, 0, 0, 0, 0, 0, 97, 98]
  {
    hide EncodeColumns, EncodeColumn, EncodeSize;
    SampleColumns();
    ColumnsJoined(Sample());
    SmallSize(4);
    assert Codes(Sample().types) == [73, 70, 66, 83];
  }

  lemma SizeIsLittleEndian(n: U64)
    ensures EncodeSize(n) == LittleEndian(n, 8)
  {
  }

  lemma PackedReply(key: Str, f: Frame)
    requires MessageFits(Reply(key, Some(f)))
    ensures Packed(PacketOf(Reply(key, Some(f))))
         == [8] + EncodeSize(1 + |EncodeString(key)| + |EncodeFrame(f)|) + ([1] + EncodeString(key)) + EncodeFrame(f)
  {
    hide EncodeFrame, EncodeSize, EncodeString, LittleEndian;
    SizeIsLittleEndian(1 + |EncodeString(key)| + |EncodeFrame(f)|);
    var head, bytes := [1] + EncodeString(key), EncodeFrame(f);
    assert EncodeReply(key, Some(f)) == head + bytes;
    var size := [8] + LittleEndian(|head + bytes|, 8);
    assert size + (head + bytes) == size + head + bytes;
  }

  /** The answer to a request for the key "k", as it is on the wire: the type of the packet, the length
      of its value, a one for success, the key with its length, and the frame. */
  lemma SamplePacket()
    ensures MessageFits(Reply([107], Some(Sample())))
    ensures Packed(PacketOf(Reply([107], Some(Sample()))))
         == [8, 97, 0, 0, 0, 0, 0, 0, 0, 1, 1, 0, 0, 0, 0, 0, 0, 0, 107] + EncodeFrame(Sample())
  {
    hide EncodeFrame, EncodeSize, LittleEndian, Packed, PacketOf, Sample, Typed, FrameFits;
    hide EncodeString, MessageFits;
    SampleFits();
    ReplyHead();
    PackedReply([107], Sample());
  }

  lemma ReplyHead()
    ensures |EncodeString([107])| == 9
    ensures [8] + EncodeSize(97) + ([1] + EncodeString([107]))
         == [8, 97, 0, 0, 0, 0, 0, 0, 0, 1, 1, 0, 0, 0, 0, 0, 0, 0, 107]
  {
    hide EncodeSize;
    SmallSize(1);
    SmallSize(97);
  }

  lemma SampleFits()
    ensures Typed(Sample()) && FrameFits(Sample()) && |EncodeFrame(Sample())| == 87
    ensures MessageFits(Reply([107], Some(Sample())))
  {
    hide EncodeFrame;
    SampleFrame();
  }

  /** The answer when there is no such key, and the request for it. */
  lemma ShortPackets()
    ensures MessageFits(Ask([107])) && MessageFits(Reply([107], None))
    ensures Packed(PacketOf(Ask([107]))) == [7, 9, 0, 0, 0, 0, 0, 0, 0, 1, 0, 0, 0, 0, 0, 0, 0, 107]
    ensures Packed(PacketOf(Reply([107], None))) == [8, 10, 0, 0, 0, 0, 0, 0, 0, 0, 1, 0, 0, 0, 0, 0, 0, 0, 107]
  {
    hide EncodeSize, LittleEndian;
    SmallSize(1);
    SmallSize(9);
    SmallSize(10);
    SizeIsLittleEndian(9);
    SizeIsLittleEndian(10);
  }

  /** A list with the keys "k" and "ab". */
  lemma ListPacket()
    ensures MessageFits(Keys([[107], [97, 98]]))
    ensures Packed(PacketOf(Keys([[107], [97, 98]])))
         == [9, 19, 0, 0, 0, 0, 0, 0, 0] + [1, 0, 0, 0, 0, 0, 0, 0, 107] + [2, 0, 0, 0, 0, 0, 0, 0, 97, 98]
  {
    hide EncodeSize, LittleEndian;
    SmallSize(1);
    SmallSize(2);
    SmallSize(19);
    SizeIsLittleEndian(19);
    var names: seq<Str> := [[107], [97, 98]];
    assert names[1..] == [[97, 98]] && names[1..][1..] == [];
    assert EncodeKeys(names[1..]) == EncodeString([97, 98]) + EncodeKeys([]);
    assert EncodeKeys(names) == EncodeString([107]) + EncodeString([97, 98]);
  }
}
