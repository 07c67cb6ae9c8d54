/** The column types of a dataframe, as a string of type characters. */
module Schemas {
  import opened Bytes
  import opened Frames
  import opened Serializable
  import opened Wrappers

  const SPACE: Byte := 32

  /** 'I', 'F', 'B' or 'S'. */
  function TypeCode(t: ColType): (code: Byte)
    ensures code != 0 && code != SPACE
  {
    match t
    case IntType => 73
    case FloatType => 70
    case BoolType => 66
    case StringType => 83
  }

  function TypeOf(code: Byte): (t: Option<ColType>)
    ensures t.Some? ==> TypeCode(t.value) == code
    ensures forall u :: TypeCode(u) == code ==> t == Some(u)
  {
    if code == 73 then Some(IntType)
    else if code == 70 then Some(FloatType)
    else if code == 66 then Some(BoolType)
    else if code == 83 then Some(StringType)
    else None
  }

  /** What the constructor keeps of a string: it stops at a NUL and skips spaces. */
  function Kept(types: Str): Str {
    if types == [] || types[0] == 0 then []
    else if types[0] == SPACE then Kept(types[1..])
    else [types[0]] + Kept(types[1..])
  }

  /** Read from the left: a character is kept unless it is a space, or a NUL is it or before it. */
  lemma {:induction false} KeptNext(types: Str, c: Byte)
    ensures Kept([]) == []
    ensures Kept(types + [c]) == Kept(types) + if 0 in types || c == 0 || c == 32 then [] else [c]
    decreases |types|
  {
    if types == [] {
      assert types + [c] == [c] && [c][1..] == [];
    } else {
      assert (types + [c])[1..] == types[1..] + [c];
      KeptNext(types[1..], c);
    }
  }

  function EncodeSchema(types: Str): (bytes: seq<Byte>)
    requires |types| < U64_LIMIT
    ensures |bytes| == 8 + |types|
  {
    EncodeSize(|types|) + types
  }

  function DecodeSchema(data: seq<Byte>, pos: nat): (r: Decoded<Str>)
    ensures r.Ok? ==> r.next <= |data|
  {
    var s := DecodeString(data, pos);
    if s.Ok? then Ok(Kept(s.value), s.next) else s
  }

  lemma {:induction false} KeptAllIff(types: Str)
    ensures |Kept(types)| <= |types|
    ensures Kept(types) == types <==> 0 !in types && 32 !in types
  {
    if types != [] {
      KeptAllIff(types[1..]);
      if types[0] != 0 && types[0] != SPACE {
        assert Kept(types)[1..] == Kept(types[1..]);
        assert types == [types[0]] + types[1..];
      } else if types[0] == SPACE {
        assert |Kept(types)| < |types|;
      }
    }
  }

  /** A schema survives encoding exactly when no column type is a space or a NUL: a schema
      grown by `add_column` may hold one, and the decoder's constructor drops it. */
  lemma SchemaRoundTripIff(data: seq<Byte>, pos: nat, types: Str)
    requires |types| < U64_LIMIT && At(data, pos, EncodeSchema(types))
    ensures DecodeSchema(data, pos) == Ok(types, pos + 8 + |types|) <==> 0 !in types && 32 !in types
  {
    assert EncodeSchema(types) == EncodeString(types);
    StringRoundTrip(data, pos, types);
    KeptAllIff(types);
  }

  /** A schema that does not survive: its one column type is a space. */
  lemma SpaceIsLost()
    ensures DecodeSchema(EncodeSchema([32]), 0) == Ok([], 9)
  {
    var data := EncodeSchema([SPACE]);
    assert data[0..9] == data;
    assert EncodeSchema([SPACE]) == EncodeString([SPACE]);
    StringRoundTrip(data, 0, [SPACE]);
    assert Kept([SPACE]) == Kept([SPACE][1..]) == [];
  }

  class Schema {
    var columnTypes: Str
    var width: nat
    var length: nat

    ghost predicate Valid()
      reads this
    {
      width == |columnTypes|
    }

    constructor ()
      ensures Valid() && columnTypes == [] && length == 0
    {
      columnTypes, width, length := [], 0, 0;
    }

    constructor FromString(types: Str)
      ensures Valid() && columnTypes == Kept(types) && length == 0
    {
      columnTypes, width, length := [], 0, 0;
      new;
      var i := 0;
      assert types[0..] == types;
      while i < |types| && types[i] != 0
        invariant i <= |types| && Valid() && length == 0
        invariant columnTypes + Kept(types[i..]) == Kept(types)
      {
        assert types[i..][1..] == types[i + 1..];
        if types[i] != SPACE {
          assert columnTypes + ([types[i]] + Kept(types[i + 1..])) == columnTypes + [types[i]] + Kept(types[i + 1..]);
          columnTypes := columnTypes + [types[i]];
          width := width + 1;
        }
        i := i + 1;
      }
      assert Kept(types[i..]) == [];
    }

    method AddColumn(code: Byte)
      requires Valid()
      modifies this
      ensures Valid() && columnTypes == old(columnTypes) + [code] && length == old(length)
    {
      columnTypes := columnTypes + [code];
      width := width + 1;
    }

    /** Counts a row; a frame does not do this for the rows it is given. */
    method AddRow()
      requires Valid()
      modifies this`length
      ensures Valid() && length == old(length) + 1
    {
      length := length + 1;
    }

    method Serialize() returns (bytes: seq<Byte>)
      requires Valid() && width < U64_LIMIT
      ensures bytes == EncodeSchema(columnTypes)
    {
      bytes := EncodeSize(width);
      for i := 0 to width
        invariant bytes == EncodeSize(width) + columnTypes[..i]
      {
        bytes := bytes + [columnTypes[i]];
        assert columnTypes[..i + 1] == columnTypes[..i] + [columnTypes[i]];
      }
      assert columnTypes[..width] == columnTypes;
    }

    static method Deserialize(data: seq<Byte>, start: nat) returns (r: Decoded<Schema>)
      ensures r.Short? <==> DecodeSchema(data, start).Short?
      ensures r.Broken? <==> DecodeSchema(data, start).Broken?
      ensures r.Ok? ==>
                fresh(r.value) && r.value.Valid() && DecodeSchema(data, start) == Ok(r.value.columnTypes, r.next)
    {
      var s := DeserializeString(data, start);
      if !s.Ok? {
        return s.Failed();
      }
      var schema := new Schema.FromString(s.value);
      return Ok(schema, s.next);
    }
  }
}
