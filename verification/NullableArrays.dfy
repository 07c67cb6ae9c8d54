/** Arrays with missing values: a bitmap and a vector of data, their encoding and decoding. */
module NullableArrays {
  import opened Bytes
  import opened Frames
  import opened Serializable
  import opened Wrappers

  /** The two vectors. */
  datatype Nullable = Nullable(bitmap: seq<bool>, data: seq<Value>)

  function Default(t: ColType): (v: Value)
    ensures HasType(v, t)
  {
    match t
    case IntType => Int(0)
    case FloatType => Float(0)
    case BoolType => Bool(false)
    case StringType => Text([])
  }

  predicate Shaped(n: Nullable, t: ColType) {
    |n.bitmap| == |n.data| && forall i | 0 <= i < |n.data| :: HasType(n.data[i], t)
  }

  /** Equal lengths, and the default value in every missing slot. */
  predicate Canonical(n: Nullable, t: ColType) {
    Shaped(n, t) && forall i | 0 <= i < |n.data| && !n.bitmap[i] :: n.data[i] == Default(t)
  }

  /** The sequence of optional values the array stands for. */
  function CellsOf(n: Nullable): (cells: seq<Cell>)
    requires |n.bitmap| == |n.data|
    ensures |cells| == |n.data|
  {
    seq(|n.data|, i requires 0 <= i < |n.data| => if n.bitmap[i] then Some(n.data[i]) else None)
  }

  /** The canonical array for a sequence of optional values. */
  function FromCells(cells: seq<Cell>, t: ColType): (n: Nullable)
    ensures |n.bitmap| == |n.data| == |cells|
  {
    Nullable(seq(|cells|, i requires 0 <= i < |cells| => cells[i].Some?),
             seq(|cells|, i requires 0 <= i < |cells| => if cells[i].Some? then cells[i].value else Default(t)))
  }

  lemma FromCellsIsCanonical(cells: seq<Cell>, t: ColType)
    requires ColumnHasType(cells, t)
    ensures Canonical(FromCells(cells, t), t) && CellsOf(FromCells(cells, t)) == cells
  {
  }

  /** Two canonical arrays are equal exactly when they stand for the same optional values. */
  lemma CanonicalIsUnique(a: Nullable, b: Nullable, t: ColType)
    requires Canonical(a, t) && Canonical(b, t)
    ensures a == b <==> CellsOf(a) == CellsOf(b)
    ensures a == FromCells(CellsOf(a), t)
  {
    assert a == FromCells(CellsOf(a), t);
    assert b == FromCells(CellsOf(b), t);
  }

  // ---- encoding ----

  predicate ValueFits(v: Value) {
    v.Text? ==> |v.s| < U64_LIMIT
  }

  /** Every length fits a size_t. */
  predicate Encodable(n: Nullable) {
    && |n.bitmap| == |n.data| < U64_LIMIT
    && forall i | 0 <= i < |n.data| :: ValueFits(n.data[i])
  }

  /** One value of a type other than bool. */
  function EncodeValue(v: Value): seq<Byte>
    requires !v.Bool? && ValueFits(v)
  {
    match v
    case Int(i) => EncodeInt(i)
    case Float(bits) => EncodeSize(bits)
    case Text(s) => EncodeString(s)
  }

  /** The existing values only. */
  function EncodePresent(bitmap: seq<bool>, data: seq<Value>): seq<Byte>
    requires |bitmap| == |data|
    requires forall i | 0 <= i < |data| :: ValueFits(data[i]) && !data[i].Bool?
  {
    if data == [] then []
    else EncodeSlot(bitmap[0], data[0]) + EncodePresent(bitmap[1..], data[1..])
  }

  function BoolData(data: seq<Value>): (bools: seq<bool>)
    requires forall i | 0 <= i < |data| :: data[i].Bool?
    ensures |bools| == |data|
  {
    seq(|data|, i requires 0 <= i < |data| => data[i].b)
  }

  function FromBools(bools: seq<bool>): (data: seq<Value>)
    ensures |data| == |bools| && forall i | 0 <= i < |data| :: data[i] == Bool(bools[i])
  {
    seq(|bools|, i requires 0 <= i < |bools| => Bool(bools[i]))
  }

  function EncodeNullable(n: Nullable, t: ColType): seq<Byte>
    requires Shaped(n, t) && Encodable(n)
  {
    EncodeBools(n.bitmap)
    + if t.BoolType? then EncodeBools(BoolData(n.data)) else EncodePresent(n.bitmap, n.data)
  }

  // ---- decoding ----

  function DecodeValue(t: ColType, data: seq<Byte>, pos: nat): (r: Decoded<Value>)
    requires !t.BoolType?
    ensures r.Ok? ==> HasType(r.value, t) && r.next <= |data|
  {
    match t
    case IntType => var r := DecodeInt(data, pos); if r.Ok? then Ok(Int(r.value), r.next) else Short
    case FloatType => var r := DecodeSize(data, pos); if r.Ok? then Ok(Float(r.value), r.next) else Short
    case StringType => var r := DecodeString(data, pos); if r.Ok? then Ok(Text(r.value), r.next) else Short
  }

  /** One value for each set bit, the default for each clear one. */
  function DecodePresent(t: ColType, bitmap: seq<bool>, data: seq<Byte>, pos: nat): (r: Decoded<seq<Value>>)
    requires !t.BoolType?
    ensures r.Ok? ==> |r.value| == |bitmap| && forall i | 0 <= i < |r.value| :: HasType(r.value[i], t)
  {
    if bitmap == [] then Ok([], pos)
    else
      var first := DecodeSlot(t, bitmap[0], data, pos);
      if !first.Ok? then first.Failed()
      else
        var rest := DecodePresent(t, bitmap[1..], data, first.next);
        if rest.Ok? then Ok([first.value] + rest.value, rest.next) else rest
  }

  function DecodeNullable(t: ColType, data: seq<Byte>, pos: nat): (r: Decoded<Nullable>)
    ensures r.Ok? ==> Shaped(r.value, t)
  {
    var bitmap := DecodeBools(data, pos);
    if !bitmap.Ok? then bitmap.Failed()
    else if t.BoolType? then
      var bools := DecodeBools(data, bitmap.next);
      if !bools.Ok? then bools.Failed()
      else if |bitmap.value| != |bools.value| then Broken
      else Ok(Nullable(bitmap.value, FromBools(bools.value)), bools.next)
    else
      var values := DecodePresent(t, bitmap.value, data, bitmap.next);
      if values.Ok? then Ok(Nullable(bitmap.value, values.value), values.next) else values.Failed()
  }

  lemma ValueRoundTrip(t: ColType, data: seq<Byte>, pos: nat, v: Value)
    requires HasType(v, t) && !v.Bool? && ValueFits(v) && At(data, pos, EncodeValue(v))
    ensures DecodeValue(t, data, pos) == Ok(v, pos + |EncodeValue(v)|)
  {
    match v
    case Int(i) => IntRoundTrip(data, pos, i);
    case Float(bits) => SizeRoundTrip(data, pos, bits);
    case Text(s) => StringRoundTrip(data, pos, s);
  }

  /** What the first slot contributes. */
  function EncodeSlot(bit: bool, v: Value): seq<Byte>
    requires bit ==> !v.Bool? && ValueFits(v)
  {
    if bit then EncodeValue(v) else []
  }

  function DecodeSlot(t: ColType, bit: bool, data: seq<Byte>, pos: nat): (r: Decoded<Value>)
    requires !t.BoolType?
    ensures r.Ok? ==> HasType(r.value, t)
  {
    if bit then DecodeValue(t, data, pos) else Ok(Default(t), pos)
  }

  lemma SlotRoundTrip(t: ColType, bit: bool, v: Value, data: seq<Byte>, pos: nat)
    requires !t.BoolType? && HasType(v, t) && ValueFits(v) && (bit || v == Default(t))
    requires At(data, pos, EncodeSlot(bit, v))
    ensures DecodeSlot(t, bit, data, pos) == Ok(v, pos + |EncodeSlot(bit, v)|)
  {
    if bit {
      ValueRoundTrip(t, data, pos, v);
    }
  }

  predicate SlotFits(bit: bool, v: Value, t: ColType) {
    HasType(v, t) && ValueFits(v) && !v.Bool? && (bit || v == Default(t))
  }

  predicate SlotsFit(bitmap: seq<bool>, values: seq<Value>, t: ColType) {
    |bitmap| == |values| && forall i | 0 <= i < |values| :: SlotFits(bitmap[i], values[i], t)
  }

  lemma DecodeFirst(t: ColType, bitmap: seq<bool>, values: seq<Value>, data: seq<Byte>, pos: nat, next: nat, end: nat)
    requires !t.BoolType? && bitmap != [] && values != []
    requires DecodeSlot(t, bitmap[0], data, pos) == Ok(values[0], next)
    requires DecodePresent(t, bitmap[1..], data, next) == Ok(values[1..], end)
    ensures DecodePresent(t, bitmap, data, pos) == Ok(values, end)
  {
    assert values == [values[0]] + values[1..];
  }

  lemma PresentFirst(t: ColType, bitmap: seq<bool>, values: seq<Value>, data: seq<Byte>, pos: nat)
    requires !t.BoolType? && SlotsFit(bitmap, values, t) && values != []
    requires At(data, pos, EncodePresent(bitmap, values))
    ensures SlotsFit(bitmap[1..], values[1..], t)
    ensures var next := pos + |EncodeSlot(bitmap[0], values[0])|;
            && DecodeSlot(t, bitmap[0], data, pos) == Ok(values[0], next)
            && At(data, next, EncodePresent(bitmap[1..], values[1..]))
  {
    hide At, DecodeSlot, EncodeSlot;
    AtSplit(data, pos, EncodeSlot(bitmap[0], values[0]), EncodePresent(bitmap[1..], values[1..]));
    assert SlotFits(bitmap[0], values[0], t);
    SlotRoundTrip(t, bitmap[0], values[0], data, pos);
  }

  lemma {:induction false} PresentRoundTrip(
    t: ColType, bitmap: seq<bool>, values: seq<Value>, data: seq<Byte>, pos: nat)
    requires !t.BoolType? && SlotsFit(bitmap, values, t)
    requires At(data, pos, EncodePresent(bitmap, values))
    ensures DecodePresent(t, bitmap, data, pos) == Ok(values, pos + |EncodePresent(bitmap, values)|)
    decreases |values|
  {
    hide At, DecodeSlot, EncodeSlot;
    if values != [] {
      PresentFirst(t, bitmap, values, data, pos);
      var next := pos + |EncodeSlot(bitmap[0], values[0])|;
      PresentRoundTrip(t, bitmap[1..], values[1..], data, next);
      DecodeFirst(t, bitmap, values, data, pos, next, next + |EncodePresent(bitmap[1..], values[1..])|);
    }
  }

  lemma BoolArrayRoundTrip(n: Nullable, data: seq<Byte>, pos: nat)
    requires Shaped(n, BoolType) && Encodable(n) && At(data, pos, EncodeNullable(n, BoolType))
    ensures DecodeNullable(BoolType, data, pos) == Ok(n, pos + |EncodeNullable(n, BoolType)|)
  {
    hide At, EncodeBools, DecodeBools;
    AtSplit(data, pos, EncodeBools(n.bitmap), EncodeBools(BoolData(n.data)));
    BoolsRoundTrip(data, pos, n.bitmap);
    BoolsRoundTrip(data, pos + |EncodeBools(n.bitmap)|, BoolData(n.data));
    assert FromBools(BoolData(n.data)) == n.data;
  }

  lemma PresentAfterBitmap(n: Nullable, t: ColType, data: seq<Byte>, pos: nat)
    requires !t.BoolType? && Canonical(n, t) && Encodable(n)
    requires DecodeBools(data, pos).Ok? && DecodeBools(data, pos).value == n.bitmap
    requires At(data, DecodeBools(data, pos).next, EncodePresent(n.bitmap, n.data))
    ensures DecodeNullable(t, data, pos)
            == Ok(n, DecodeBools(data, pos).next + |EncodePresent(n.bitmap, n.data)|)
  {
    PresentRoundTrip(t, n.bitmap, n.data, data, DecodeBools(data, pos).next);
  }

  lemma OtherArrayRoundTrip(n: Nullable, t: ColType, data: seq<Byte>, pos: nat)
    requires !t.BoolType? && Canonical(n, t) && Encodable(n) && At(data, pos, EncodeNullable(n, t))
    ensures DecodeNullable(t, data, pos) == Ok(n, pos + |EncodeNullable(n, t)|)
  {
    hide At, EncodeBools, DecodeBools, EncodePresent, DecodePresent;
    AtSplit(data, pos, EncodeBools(n.bitmap), EncodePresent(n.bitmap, n.data));
    BoolsRoundTrip(data, pos, n.bitmap);
    PresentAfterBitmap(n, t, data, pos);
  }

  /** Decoding an encoded canonical array gives an equal array, although missing values are not
      written for types other than bool. */
  lemma NullableRoundTrip(n: Nullable, t: ColType, data: seq<Byte>, pos: nat)
    requires Canonical(n, t) && Encodable(n) && At(data, pos, EncodeNullable(n, t))
    ensures DecodeNullable(t, data, pos) == Ok(n, pos + |EncodeNullable(n, t)|)
  {
    if t.BoolType? {
      BoolArrayRoundTrip(n, data, pos);
    } else {
      OtherArrayRoundTrip(n, t, data, pos);
    }
  }

  // ---- the class ----

  class NullableArray {
    const ty: ColType
    var bitmap: seq<bool>
    var data: seq<Value>

    ghost function View(): Nullable
      reads this
    {
      Nullable(bitmap, data)
    }

    ghost predicate Valid()
      reads this
    {
      Canonical(View(), ty)
    }

    ghost function Cells(): seq<Cell>
      requires |bitmap| == |data|
      reads this
    {
      CellsOf(View())
    }

    constructor (t: ColType)
      ensures Valid() && Cells() == [] && ty == t
    {
      ty, bitmap, data := t, [], [];
    }

    constructor FromVectors(t: ColType, bitmap: seq<bool>, data: seq<Value>)
      requires |bitmap| == |data|
      ensures ty == t && View() == Nullable(bitmap, data)
    {
      this.ty, this.bitmap, this.data := t, bitmap, data;
    }

    method PushBack(val: Cell)
      requires Valid() && CellHasType(val, ty)
      modifies this
      ensures Valid() && Cells() == old(Cells()) + [val]
    {
      if val.Some? {
        data := data + [val.value];
        bitmap := bitmap + [true];
      } else {
        data := data + [Default(ty)];
        bitmap := bitmap + [false];
      }
    }

    method Get(pos: nat) returns (val: Cell)
      requires |bitmap| == |data| && pos < |data|
      ensures val == Cells()[pos]
    {
      if bitmap[pos] {
        return Some(data[pos]);
      }
      return None;
    }

    method Set(pos: nat, val: Cell) returns (was: Cell)
      requires Valid() && CellHasType(val, ty) && pos < |data|
      modifies this
      ensures Valid() && was == old(Cells())[pos] && Cells() == old(Cells())[pos := val]
    {
      was := if bitmap[pos] then Some(data[pos]) else None;
      if val.Some? {
        data := data[pos := val.value];
        bitmap := bitmap[pos := true];
      } else {
        data := data[pos := Default(ty)];
        bitmap := bitmap[pos := false];
      }
    }

    method Pop(pos: nat) returns (val: Cell)
      requires Valid() && pos < |data|
      modifies this
      ensures Valid() && val == old(Cells())[pos] && Cells() == old(Cells())[..pos] + old(Cells())[pos + 1..]
    {
      val := None;
      if bitmap[pos] {
        val := Some(data[pos]);
      }
      data := data[..pos] + data[pos + 1..];
      bitmap := bitmap[..pos] + bitmap[pos + 1..];
    }

    /** operator==: it holds exactly when the optional values are the same. */
    method Equal(other: NullableArray) returns (same: bool)
      requires Valid() && other.Valid() && ty == other.ty
      ensures same <==> Cells() == other.Cells()
    {
      CanonicalIsUnique(View(), other.View(), ty);
      same := bitmap == other.bitmap && data == other.data;
    }

    method Serialize() returns (bytes: seq<Byte>)
      requires Shaped(View(), ty) && Encodable(View())
      ensures bytes == EncodeNullable(View(), ty)
    {
      bytes := SerializeBools(bitmap);
      if ty.BoolType? {
        var second := SerializeBools(BoolData(data));
        bytes := bytes + second;
      } else {
        var present := SerializePresent();
        bytes := bytes + present;
      }
    }

    /** The loop over the existing values. */
    method SerializePresent() returns (bytes: seq<Byte>)
      requires Shaped(View(), ty) && Encodable(View()) && !ty.BoolType?
      ensures bytes == EncodePresent(bitmap, data)
    {
      hide EncodeValue;
      bytes := [];
      for i := 0 to |data|
        invariant bytes == EncodePresent(bitmap[..i], data[..i])
      {
        PresentSnoc(bitmap[..i], data[..i], bitmap[i], data[i]);
        assert bitmap[..i + 1] == bitmap[..i] + [bitmap[i]] && data[..i + 1] == data[..i] + [data[i]];
        if bitmap[i] {
          var value := EncodeValue(data[i]);
          bytes := bytes + value;
        }
      }
      assert bitmap[..|data|] == bitmap && data[..|data|] == data;
    }

    static method Deserialize(t: ColType, bytes: seq<Byte>, start: nat) returns (r: Decoded<NullableArray>)
      ensures r.Short? <==> DecodeNullable(t, bytes, start).Short?
      ensures r.Broken? <==> DecodeNullable(t, bytes, start).Broken?
      ensures r.Ok? ==>
                && fresh(r.value) && r.value.ty == t
                && DecodeNullable(t, bytes, start) == Ok(r.value.View(), r.next)
    {
      var flags := DeserializeBools(bytes, start);
      if !flags.Ok? {
        return flags.Failed();
      }
      var pos, values := flags.next, [];
      if t.BoolType? {
        var bools := DeserializeBools(bytes, pos);
        if !bools.Ok? {
          return bools.Failed();
        }
        if |flags.value| != |bools.value| {
          return Broken;
        }
        values, pos := FromBools(bools.value), bools.next;
      } else {
        var present := DeserializePresent(t, flags.value, bytes, pos);
        if !present.Ok? {
          return present.Failed();
        }
        values, pos := present.value, present.next;
      }
      var result := new NullableArray.FromVectors(t, flags.value, values);
      return Ok(result, pos);
    }

    /** The loop that reads a value for each set bit. */
    static method DeserializePresent(t: ColType, flags: seq<bool>, bytes: seq<Byte>, start: nat)
      returns (r: Decoded<seq<Value>>)
      requires !t.BoolType?
      ensures r == DecodePresent(t, flags, bytes, start)
    {
      var pos: nat, values: seq<Value> := start, [];
      ghost var goal := DecodePresent(t, flags, bytes, start);
      assert flags[0..] == flags;
      PrependNone(goal);
      for i := 0 to |flags|
        invariant |values| == i
        invariant goal == Prepend(values, DecodePresent(t, flags[i..], bytes, pos))
      {
        ghost var left := flags[i..];
        if flags[i] {
          var v := DecodeValue(t, bytes, pos);
          if !v.Ok? {
            return v.Failed();
          }
          PrependStep(values, t, left, bytes, pos, v.value, v.next);
          values, pos := values + [v.value], v.next;
        } else {
          PrependStep(values, t, left, bytes, pos, Default(t), pos);
          values := values + [Default(t)];
        }
        assert left[1..] == flags[i + 1..];
      }
      assert values + [] == values;
      return Ok(values, pos);
    }
  }

  lemma {:induction false} PresentSnoc(bitmap: seq<bool>, data: seq<Value>, bit: bool, v: Value)
    requires |bitmap| == |data| && !v.Bool? && ValueFits(v)
    requires forall i | 0 <= i < |data| :: ValueFits(data[i]) && !data[i].Bool?
    ensures EncodePresent(bitmap + [bit], data + [v])
            == EncodePresent(bitmap, data) + EncodeSlot(bit, v)
    decreases |data|
  {
    if data == [] {
      assert bitmap + [bit] == [bit] && data + [v] == [v];
    } else {
      assert (bitmap + [bit])[1..] == bitmap[1..] + [bit] && (data + [v])[1..] == data[1..] + [v];
      PresentSnoc(bitmap[1..], data[1..], bit, v);
    }
  }

  function Prepend(values: seq<Value>, r: Decoded<seq<Value>>): Decoded<seq<Value>> {
    if r.Ok? then Ok(values + r.value, r.next) else r
  }

  lemma PrependNone(r: Decoded<seq<Value>>)
    ensures Prepend([], r) == r
  {
    if r.Ok? {
      assert [] + r.value == r.value;
    }
  }

  lemma PrependStep(
    values: seq<Value>, t: ColType, bitmap: seq<bool>, bytes: seq<Byte>, pos: nat, v: Value, next: nat)
    requires !t.BoolType? && bitmap != []
    requires DecodeSlot(t, bitmap[0], bytes, pos) == Ok(v, next)
    ensures Prepend(values, DecodePresent(t, bitmap, bytes, pos))
            == Prepend(values + [v], DecodePresent(t, bitmap[1..], bytes, next))
  {
    var rest := DecodePresent(t, bitmap[1..], bytes, next);
    if rest.Ok? {
      assert values + ([v] + rest.value) == values + [v] + rest.value;
    }
  }
}
