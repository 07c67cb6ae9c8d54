/** Bytes and the fixed-width little-endian numbers every encoding is built from. */
module Bytes {

  const U8_LIMIT: nat := 0x100
  const I32_LIMIT: int := 0x8000_0000
  const U32_LIMIT: nat := 0x1_0000_0000
  const U64_LIMIT: nat := 0x1_0000_0000_0000_0000

  type Byte = b: nat | b < U8_LIMIT
  type Int32 = i: int | -I32_LIMIT <= i < I32_LIMIT
  type U64 = n: nat | n < U64_LIMIT

  /** A std::string: its characters are single bytes. */
  type Str = seq<Byte>

  function Min(a: nat, b: nat): nat {
    if a <= b then a else b
  }

  /** The bytes, taken as characters, spell the literal. */
  predicate Spells(bytes: Str, literal: string) {
    |bytes| == |literal| && forall i | 0 <= i < |bytes| :: bytes[i] as char == literal[i]
  }

  /** The bytes of an ASCII literal. */
  function Ascii(s: string): (r: Str)
    requires forall i | 0 <= i < |s| :: s[i] as int < U8_LIMIT
    ensures Spells(r, s)
  {
    seq(|s|, i requires 0 <= i < |s| => s[i] as int)
  }

  function Pow256(k: nat): (p: nat)
    ensures p > 0
  {
    if k == 0 then 1 else U8_LIMIT * Pow256(k - 1)
  }

  /** The k low-order bytes of n, least significant first. */
  function LittleEndian(n: nat, k: nat): (bytes: seq<Byte>)
    ensures |bytes| == k
    decreases k
  {
    if k == 0 then [] else [n % U8_LIMIT] + LittleEndian(n / U8_LIMIT, k - 1)
  }

  function FromLittleEndian(bytes: seq<Byte>): (n: nat)
    ensures n < Pow256(|bytes|)
  {
    if bytes == [] then 0 else bytes[0] + U8_LIMIT * FromLittleEndian(bytes[1..])
  }

  lemma {:induction false} LittleEndianRoundTrip(n: nat, k: nat)
    requires n < Pow256(k)
    ensures FromLittleEndian(LittleEndian(n, k)) == n
    decreases k
  {
    if k > 0 {
      LittleEndianRoundTrip(n / U8_LIMIT, k - 1);
      assert LittleEndian(n, k)[1..] == LittleEndian(n / U8_LIMIT, k - 1);
    }
  }

  /** And every sequence of bytes is that of the number it gives. */
  lemma {:induction false} LittleEndianOnto(bytes: seq<Byte>)
    ensures LittleEndian(FromLittleEndian(bytes), |bytes|) == bytes
    decreases |bytes|
  {
    if bytes != [] {
      LittleEndianOnto(bytes[1..]);
      LowestDigit(bytes[0], FromLittleEndian(bytes[1..]));
    }
  }

  lemma LowestDigit(d: Byte, rest: nat)
    ensures (d + U8_LIMIT * rest) % U8_LIMIT == d && (d + U8_LIMIT * rest) / U8_LIMIT == rest
  {
  }

  /** Byte i is the digit of weight 256^i. */
  lemma {:induction false} LittleEndianDigits(n: nat, k: nat, i: nat)
    requires i < k
    ensures LittleEndian(n, k)[i] == n / Pow256(i) % U8_LIMIT
    decreases k
  {
    if i > 0 {
      LittleEndianDigits(n / U8_LIMIT, k - 1, i - 1);
      DivideTwice(n, Pow256(i - 1));
    }
  }

  lemma QuotientIs(n: nat, d: nat, q: nat)
    requires d > 0 && q * d <= n < q * d + d
    ensures n / d == q
  {
    var k := n / d;
    assert n == k * d + n % d;
    assert k < q ==> (k + 1) * d <= q * d;
    assert k > q ==> (q + 1) * d <= k * d;
  }

  lemma DivideTwice(n: nat, b: nat)
    requires b > 0
    ensures n / U8_LIMIT / b == n / (U8_LIMIT * b)
  {
    var m := n / U8_LIMIT;
    var q := m / b;
    assert m == q * b + m % b;
    assert q * (U8_LIMIT * b) == U8_LIMIT * (q * b);
    QuotientIs(n, U8_LIMIT * b, q);
  }

  lemma WidthLimits()
    ensures Pow256(4) == U32_LIMIT
    ensures Pow256(8) == U64_LIMIT
  {
  }
}
