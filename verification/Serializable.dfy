/** Encoding and decoding numbers, strings and vectors of booleans, with a moving cursor. */
module Serializable {
  import opened Bytes

  /** What reading at a cursor gives: a value and the cursor behind it, the exception for data
      that is too short, or an assertion that does not hold. */
  datatype Decoded<+T> = Ok(value: T, next: nat) | Short | Broken {
    /** The same failure, for another type. */
    function Failed<U>(): Decoded<U>
      requires !Ok?
    {
      if Short? then Short else Broken
    }
  }

  /** `bytes` stand in `data` at `pos`. */
  ghost predicate At(data: seq<Byte>, pos: nat, bytes: seq<Byte>) {
    pos + |bytes| <= |data| && data[pos..pos + |bytes|] == bytes
  }

  lemma AtSplit(data: seq<Byte>, pos: nat, a: seq<Byte>, b: seq<Byte>)
    requires At(data, pos, a + b)
    ensures At(data, pos, a) && At(data, pos + |a|, b)
  {
    var s := data[pos..pos + |a + b|];
    assert data[pos..pos + |a|] == s[..|a|];
    assert data[pos + |a|..pos + |a| + |b|] == s[|a|..];
  }

  lemma AtMiddle(prefix: seq<Byte>, bytes: seq<Byte>, suffix: seq<Byte>)
    ensures At(prefix + bytes + suffix, |prefix|, bytes)
  {
  }

  // ---- numbers ----

  /** The primitive reader: `width` bytes, or the exception. */
  function DecodeBytes(data: seq<Byte>, pos: nat, width: nat): Decoded<seq<Byte>> {
    if pos > |data| || |data| - pos < width then Short else Ok(data[pos..pos + width], pos + width)
  }

  function EncodeSize(n: U64): (bytes: seq<Byte>)
    ensures |bytes| == 8
  {
    LittleEndian(n, 8)
  }

  function DecodeSize(data: seq<Byte>, pos: nat): (r: Decoded<U64>)
    ensures r.Ok? ==> r.next == pos + 8 <= |data|
  {
    var r := DecodeBytes(data, pos, 8);
    if r.Ok? then WidthLimits(); Ok(FromLittleEndian(r.value), r.next) else Short
  }

  lemma SizeRoundTrip(data: seq<Byte>, pos: nat, n: U64)
    requires At(data, pos, EncodeSize(n))
    ensures DecodeSize(data, pos) == Ok(n, pos + 8)
  {
    WidthLimits();
    LittleEndianRoundTrip(n, 8);
  }

  /** The two's complement of an int. */
  function EncodeInt(i: Int32): (bytes: seq<Byte>)
    ensures |bytes| == 4
  {
    LittleEndian(if i < 0 then i + U32_LIMIT else i, 4)
  }

  function DecodeInt(data: seq<Byte>, pos: nat): (r: Decoded<Int32>)
    ensures r.Ok? ==> r.next == pos + 4 <= |data|
  {
    var r := DecodeBytes(data, pos, 4);
    if !r.Ok? then Short
    else
      WidthLimits();
      var n := FromLittleEndian(r.value);
      Ok(if n < I32_LIMIT then n else n - U32_LIMIT, r.next)
  }

  lemma IntRoundTrip(data: seq<Byte>, pos: nat, i: Int32)
    requires At(data, pos, EncodeInt(i))
    ensures DecodeInt(data, pos) == Ok(i, pos + 4)
  {
    WidthLimits();
    LittleEndianRoundTrip(if i < 0 then i + U32_LIMIT else i, 4);
  }

  // ---- strings ----

  function EncodeString(s: Str): seq<Byte>
    requires |s| < U64_LIMIT
  {
    EncodeSize(|s|) + s
  }

  function DecodeString(data: seq<Byte>, pos: nat): (r: Decoded<Str>)
    ensures r.Ok? ==> pos + 8 <= r.next <= |data|
  {
    var size := DecodeSize(data, pos);
    if !size.Ok? || |data| - size.next < size.value then Short
    else Ok(data[size.next..size.next + size.value], size.next + size.value)
  }

  lemma StringRoundTrip(data: seq<Byte>, pos: nat, s: Str)
    requires |s| < U64_LIMIT && At(data, pos, EncodeString(s))
    ensures DecodeString(data, pos) == Ok(s, pos + |EncodeString(s)|)
  {
    AtSplit(data, pos, EncodeSize(|s|), s);
    SizeRoundTrip(data, pos, |s|);
  }

  method SerializeString(s: Str) returns (bytes: seq<Byte>)
    requires |s| < U64_LIMIT
    ensures bytes == EncodeString(s)
  {
    bytes := EncodeSize(|s|);
    for i := 0 to |s|
      invariant bytes == EncodeSize(|s|) + s[..i]
    {
      bytes := bytes + [s[i]];
      assert s[..i + 1] == s[..i] + [s[i]];
    }
    assert s[..|s|] == s;
  }

  method DeserializeString(data: seq<Byte>, start: nat) returns (r: Decoded<Str>)
    ensures r == DecodeString(data, start)
  {
    var size := DecodeSize(data, start);
    if !size.Ok? {
      return Short;
    }
    var s, pos := [], size.next;
    for i := 0 to size.value
      invariant pos == size.next + i <= |data| && s == data[size.next..pos]
    {
      if |data| - pos < 1 {
        return Short;
      }
      s := s + [data[pos]];
      pos := pos + 1;
    }
    return Ok(s, pos);
  }

  // ---- vectors of booleans, eight to a byte ----

  function Pow2(k: nat): (p: nat)
    requires k < 8
    ensures p > 0
  {
    [1, 2, 4, 8, 16, 32, 64, 128][k]
  }

  predicate Bit(b: Byte, k: nat)
    requires k < 8
  {
    b / Pow2(k) % 2 == 1
  }

  function BitAt(bools: seq<bool>, i: nat): nat {
    if i < |bools| && bools[i] then 1 else 0
  }

  /** The eight elements that go into byte j of the payload, zeros beyond the end. */
  function BitsAt(bools: seq<bool>, j: nat): (bits: seq<nat>)
    ensures |bits| == 8 && forall k | 0 <= k < 8 :: bits[k] == BitAt(bools, 8 * j + k)
  {
    [BitAt(bools, 8 * j), BitAt(bools, 8 * j + 1), BitAt(bools, 8 * j + 2), BitAt(bools, 8 * j + 3),
     BitAt(bools, 8 * j + 4), BitAt(bools, 8 * j + 5), BitAt(bools, 8 * j + 6), BitAt(bools, 8 * j + 7)]
  }

  /** Byte j of the payload: element 8j+k in bit k. */
  function ByteAt(bools: seq<bool>, j: nat): Byte {
    BitsFit(BitsAt(bools, j), 8);
    FromBits(BitsAt(bools, j))
  }

  function ByteCount(n: nat): nat {
    n / 8 + if n % 8 > 0 then 1 else 0
  }

  function Payload(bools: seq<bool>): (bytes: seq<Byte>)
    ensures |bytes| == ByteCount(|bools|)
  {
    seq(ByteCount(|bools|), (j: nat) => ByteAt(bools, j))
  }

  function EncodeBools(bools: seq<bool>): (bytes: seq<Byte>)
    requires |bools| < U64_LIMIT
    ensures |bytes| == 8 + ByteCount(|bools|)
  {
    EncodeSize(|bools|) + Payload(bools)
  }

  predicate BitOf(data: seq<Byte>, pos: nat, i: nat)
    requires pos + i / 8 < |data|
  {
    Bit(data[pos + i / 8], i % 8)
  }

  function DecodeBools(data: seq<Byte>, pos: nat): (r: Decoded<seq<bool>>)
    ensures r.Ok? ==> r.next <= |data|
  {
    var size := DecodeSize(data, pos);
    if !size.Ok? then Short
    else if |data| - size.next < ByteCount(size.value) then Broken
    else Ok(BitsOf(data, size.next, size.value), size.next + ByteCount(size.value))
  }

  function BitsOf(data: seq<Byte>, pos: nat, n: nat): (bools: seq<bool>)
    requires pos + ByteCount(n) <= |data|
    ensures |bools| == n
  {
    seq(n, i requires 0 <= i < n => BitOf(data, pos, i))
  }

  /** Bit k of bit + 2 * rest is bit k-1 of rest, and bit itself when k is 0. */
  lemma Halve(bit: nat, rest: nat, k: nat)
    requires bit < 2 && k < 8
    ensures (bit + 2 * rest) / Pow2(k) % 2 == if k == 0 then bit else rest / Pow2(k - 1) % 2
  {
  }

  /** The number whose binary digits are `bits`, lowest first. */
  function FromBits(bits: seq<nat>): nat {
    if bits == [] then 0 else bits[0] + 2 * FromBits(bits[1..])
  }

  function TwoTo(n: nat): (p: nat)
    ensures p > 0
  {
    if n == 0 then 1 else 2 * TwoTo(n - 1)
  }

  /** Bits that are zero from position n on make a number below 2^n, and setting bit n adds 2^n. */
  lemma {:induction false} BitsFit(bits: seq<nat>, n: nat)
    requires n <= |bits| && forall i | 0 <= i < |bits| :: bits[i] < 2
    requires forall i | n <= i < |bits| :: bits[i] == 0
    ensures FromBits(bits) < TwoTo(n)
    ensures n < |bits| ==> FromBits(bits[n := 1]) == FromBits(bits) + TwoTo(n)
    ensures n == 8 ==> FromBits(bits) < 256
  {
    assert TwoTo(8) == 2 * (2 * (2 * (2 * (2 * (2 * (2 * (2 * TwoTo(0))))))));
    if bits != [] {
      if n > 0 {
        BitsFit(bits[1..], n - 1);
        if n < |bits| {
          assert bits[n := 1][1..] == bits[1..][n - 1 := 1];
        }
      } else {
        BitsFit(bits[1..], 0);
        if |bits| > 1 {
          assert bits[0 := 1][1..] == bits[1..];
        }
      }
    }
  }

  lemma {:induction false} BitOfBits(bits: seq<nat>, k: nat)
    requires k < |bits| && k < 8 && forall i | 0 <= i < |bits| :: bits[i] < 2
    ensures FromBits(bits) / Pow2(k) % 2 == bits[k]
  {
    Halve(bits[0], FromBits(bits[1..]), k);
    if k > 0 {
      BitOfBits(bits[1..], k - 1);
    }
  }

  lemma BitOfByteAt(bools: seq<bool>, j: nat, k: nat)
    requires k < 8
    ensures Bit(ByteAt(bools, j), k) <==> BitAt(bools, 8 * j + k) == 1
  {
    BitOfBits(BitsAt(bools, j), k);
  }

  /** Decoding an encoded vector gives it back, from any offset and whatever follows. */
  lemma BoolsRoundTrip(data: seq<Byte>, pos: nat, bools: seq<bool>)
    requires |bools| < U64_LIMIT && At(data, pos, EncodeBools(bools))
    ensures DecodeBools(data, pos) == Ok(bools, pos + 8 + ByteCount(|bools|))
  {
    AtSplit(data, pos, EncodeSize(|bools|), Payload(bools));
    SizeRoundTrip(data, pos, |bools|);
    PayloadRoundTrip(data, pos + 8, bools);
  }

  lemma PayloadRoundTrip(data: seq<Byte>, pos: nat, bools: seq<bool>)
    requires At(data, pos, Payload(bools))
    ensures BitsOf(data, pos, |bools|) == bools
  {
    forall i | 0 <= i < |bools| ensures BitOf(data, pos, i) == bools[i] {
      assert data[pos + i / 8] == data[pos..pos + |Payload(bools)|][i / 8];
      BitOfByteAt(bools, i / 8, i % 8);
    }
  }

  /** `b |= bit << k` on a byte whose bits from k on are clear. */
  function WithBit(b: Byte, k: nat, bit: bool): Byte
    requires k < 8 && b < Pow2(k)
  {
    if bit then b + Pow2(k) else b
  }

  method SerializeBools(bools: seq<bool>) returns (bytes: seq<Byte>)
    requires |bools| < U64_LIMIT
    ensures bytes == EncodeBools(bools)
  {
    hide ByteAt, Payload, EncodeSize, Written, EncodeBools, WithBit, Pow2;
    bytes := EncodeSize(|bools|);
    AllWritten(bools);
    EmptyByte(bools);
    var current: Byte, used: nat := 0, 0;
    ghost var done := 0;
    for i := 0 to |bools|
      invariant Packing(bools, i, bytes, current, used, done)
    {
      if used == 8 {
        FlushStep(bools, i, bytes, current, done);
        bytes := bytes + [current];
        done := done + 1;
        current, used := if bools[i] then 1 else 0, 1;
      } else {
        FillStep(bools, i, bytes, current, used, done);
        current := WithBit(current, used, bools[i]);
        used := used + 1;
      }
    }
    LastStep(bools, bytes, current, used, done);
    if used > 0 {
      bytes := bytes + [current];
    }
  }

  /** After i elements: `done` whole bytes are written and `current` holds `used` more bits. */
  ghost predicate Packing(bools: seq<bool>, i: nat, bytes: seq<Byte>, current: Byte, used: nat, done: nat)
    requires i <= |bools| < U64_LIMIT
  {
    && used <= 8 && i == 8 * done + used && (i > 0 ==> used > 0)
    && done <= ByteCount(|bools|) && bytes == Written(bools, done)
    && current == ByteAt(bools[..i], done)
  }

  lemma FlushStep(bools: seq<bool>, i: nat, bytes: seq<Byte>, current: Byte, done: nat)
    requires i < |bools| < U64_LIMIT && Packing(bools, i, bytes, current, 8, done)
    ensures Packing(bools, i + 1, bytes + [current], if bools[i] then 1 else 0, 1, done + 1)
  {
    FullByte(bools, i, done);
    WriteByte(bools, done);
    FirstBit(bools, i, done + 1);
  }

  lemma FillStep(bools: seq<bool>, i: nat, bytes: seq<Byte>, current: Byte, used: nat, done: nat)
    requires i < |bools| < U64_LIMIT && used < 8 && Packing(bools, i, bytes, current, used, done)
    ensures current < Pow2(used)
    ensures Packing(bools, i + 1, bytes, WithBit(current, used, bools[i]), used + 1, done)
  {
    NextBit(bools, i, done);
  }

  lemma LastStep(bools: seq<bool>, bytes: seq<Byte>, current: Byte, used: nat, done: nat)
    requires |bools| < U64_LIMIT && Packing(bools, |bools|, bytes, current, used, done)
    ensures EncodeBools(bools) == if used > 0 then bytes + [current] else bytes
  {
    assert bools[..|bools|] == bools;
    AllWritten(bools);
    if used > 0 {
      assert ByteCount(|bools|) == done + 1;
      WriteByte(bools, done);
    }
  }

  /** What `SerializeBools` has written after `done` bytes of payload. */
  function Written(bools: seq<bool>, done: nat): seq<Byte>
    requires |bools| < U64_LIMIT && done <= ByteCount(|bools|)
  {
    EncodeSize(|bools|) + Payload(bools)[..done]
  }

  lemma WriteByte(bools: seq<bool>, done: nat)
    requires |bools| < U64_LIMIT && done < ByteCount(|bools|)
    ensures Written(bools, done + 1) == Written(bools, done) + [ByteAt(bools, done)]
  {
    assert Payload(bools)[..done + 1] == Payload(bools)[..done] + [ByteAt(bools, done)];
  }

  lemma AllWritten(bools: seq<bool>)
    requires |bools| < U64_LIMIT
    ensures Written(bools, ByteCount(|bools|)) == EncodeBools(bools)
    ensures Written(bools, 0) == EncodeSize(|bools|)
  {
  }

  lemma FullByte(bools: seq<bool>, i: nat, j: nat)
    requires i <= |bools| && i == 8 * j + 8
    ensures ByteAt(bools[..i], j) == ByteAt(bools, j)
  {
  }

  lemma TwoToIsPow2(k: nat)
    requires k < 8
    ensures TwoTo(k) == Pow2(k)
  {
  }

  lemma NextBits(bools: seq<bool>, i: nat, j: nat)
    requires i < |bools| && 8 * j <= i < 8 * j + 8
    ensures var before := BitsAt(bools[..i], j);
            && (forall m | i - 8 * j <= m < 8 :: before[m] == 0)
            && BitsAt(bools[..i + 1], j) == before[i - 8 * j := BitAt(bools, i)]
  {
  }

  lemma NextBit(bools: seq<bool>, i: nat, j: nat)
    requires i < |bools| && 8 * j <= i < 8 * j + 8
    ensures ByteAt(bools[..i], j) < Pow2(i - 8 * j)
    ensures ByteAt(bools[..i + 1], j) == WithBit(ByteAt(bools[..i], j), i - 8 * j, bools[i])
  {
    var k, before := i - 8 * j, BitsAt(bools[..i], j);
    TwoToIsPow2(k);
    NextBits(bools, i, j);
    BitsFit(before, k);
    assert before[k] == 0 ==> before[k := 0] == before;
  }

  lemma EmptyByte(bools: seq<bool>)
    ensures ByteAt(bools[..0], 0) == 0
  {
    BitsFit(BitsAt(bools[..0], 0), 0);
  }

  lemma FirstBit(bools: seq<bool>, i: nat, j: nat)
    requires i < |bools| && i == 8 * j
    ensures ByteAt(bools[..i + 1], j) == if bools[i] then 1 else 0
  {
    BitsFit(BitsAt(bools[..i], j), 0);
    NextBit(bools, i, j);
  }

  lemma BitsOfStep(data: seq<Byte>, pos: nat, n: nat)
    requires pos + n / 8 < |data|
    ensures pos + ByteCount(n + 1) <= |data| && pos + ByteCount(n) <= |data|
    ensures BitsOf(data, pos, n + 1) == BitsOf(data, pos, n) + [Bit(data[pos + n / 8], n % 8)]
  {
  }

  method DeserializeBools(data: seq<Byte>, start: nat) returns (r: Decoded<seq<bool>>)
    ensures r == DecodeBools(data, start)
  {
    var size := DecodeSize(data, start);
    if !size.Ok? {
      return Short;
    }
    var len: nat, pos: nat := size.value, size.next;
    var bound := ByteCount(len) + pos;
    var bools: seq<bool>, inner: nat, at: nat := [], 0, 0;
    while pos < bound && at < len
      invariant at <= len && inner == at % 8 && pos == size.next + at / 8
      invariant size.next + ByteCount(at) <= |data| && bools == BitsOf(data, size.next, at)
      decreases len - at
    {
      if pos >= |data| {
        assert ByteCount(len) > at / 8;
        return Broken;
      }
      BitsOfStep(data, size.next, at);
      bools := bools + [Bit(data[pos], inner)];
      inner := inner + 1;
      if inner == 8 {
        inner := 0;
        pos := pos + 1;
      }
      at := at + 1;
    }
    if inner != 0 {
      pos := pos + 1;
    }
    return Ok(bools, pos);
  }
}
