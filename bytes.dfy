/**
 * Machine-level integer types of the gateway: bytes (`uint8_t`) and
 * register words (`uint16_t`) as bit-vectors, with the conversions the C
 * code performs implicitly (truncating casts, big-endian byte split).
 *
 * Conversions between `int` and a word go through its two bytes, so that
 * every fact about them reduces to facts about 8-bit values.
 */
module Bytes {
  type Byte = bv8
  type Word = bv16

  /** Values of `int16_t`. */
  type Int16 = x: int | -0x8000 <= x < 0x8000

  /** High byte of a word, `(uint8_t)(w >> 8)`. */
  function Hi(w: Word): Byte { (w >> 8) as Byte }

  /** Low byte of a word, `(uint8_t)(w & 0xFF)`. */
  function Lo(w: Word): Byte { (w & 0xFF) as Byte }

  /** The word whose big-endian bytes are `hi`, `lo`: `(hi << 8) | lo`. */
  function Join(hi: Byte, lo: Byte): Word { (hi as Word << 8) | lo as Word }

  /** `(uint8_t)x`: reduction modulo 256. */
  function U8(x: int): Byte { (x % 0x100) as Byte }

  /** `(uint16_t)x`: reduction modulo 65536, built from the two bytes. */
  function U16(x: int): Word { Join(U8(x / 0x100), U8(x)) }

  /** The unsigned value of a word. */
  function Value(w: Word): int { Hi(w) as int * 0x100 + Lo(w) as int }

  /** `(int16_t)w` on a two's-complement machine. */
  function AsInt16(w: Word): Int16 {
    if Hi(w) < 0x80 then Value(w) else Value(w) - 0x1_0000
  }

  /** A real truncated toward zero, as a C conversion to an integer type does. */
  function TruncZero(x: real): (n: int)
    ensures x >= 0.0 ==> 0.0 <= n as real <= x < n as real + 1.0
    ensures x < 0.0 ==> n as real - 1.0 < x <= n as real <= 0.0
  {
    if x >= 0.0 then x.Floor else -((-x).Floor)
  }

  /** `(x & mask) != 0`. */
  predicate AnySet(x: Word, mask: Word) { x & mask != 0 }

  lemma JoinSplit(w: Word)
    ensures Join(Hi(w), Lo(w)) == w
  {}

  lemma SplitJoin(hi: Byte, lo: Byte)
    ensures Hi(Join(hi, lo)) == hi && Lo(Join(hi, lo)) == lo
  {}

  lemma NatByte(m: int)
    requires 0 <= m < 0x100
    ensures (m as Byte) as int == m
  {
    assert m % 0x100 == m;
  }

  lemma U8Value(x: int)
    ensures U8(x) as int == x % 0x100
  {
    NatByte(x % 0x100);
  }

  lemma ByteBound(b: Byte)
    ensures 0 <= b as int < 0x100
  {}

  lemma ModSmall(m: int)
    requires 0 <= m < 0x100
    ensures m % 0x100 == m
  {}

  lemma ByteRoundTrip(b: Byte)
    ensures U8(b as int) == b
  {
    ByteBound(b);
    ModSmall(b as int);
  }

  /** The unsigned value of `(uint16_t)x` is `x` modulo 65536. */
  lemma ValueU16(x: int)
    ensures Value(U16(x)) == x % 0x1_0000
  {
    var h, l := U8(x / 0x100), U8(x);
    SplitJoin(h, l);
    U8Value(x / 0x100);
    U8Value(x);
  }

  /** Converting a word to its value and back gives the word. */
  lemma U16Value(w: Word)
    ensures U16(Value(w)) == w
  {
    var v := Value(w);
    assert v / 0x100 == Hi(w) as int;
    assert v % 0x100 == Lo(w) as int;
    ByteRoundTrip(Hi(w));
    ByteRoundTrip(Lo(w));
    JoinSplit(w);
  }

  lemma ValueRange(w: Word)
    ensures 0 <= Value(w) < 0x1_0000
  {}

  /** Casting an `int16_t` to `uint16_t` and back is the identity. */
  lemma Int16RoundTrip(v: Int16)
    ensures AsInt16(U16(v)) == v
    ensures Value(U16(v)) == if v < 0 then v + 0x1_0000 else v
  {
    ValueU16(v);
    var h, l := U8(v / 0x100), U8(v);
    SplitJoin(h, l);
    U8Value(v / 0x100);
    ByteBelow80(h);
    HighByteOfInt16(v);
  }

  lemma HighByteOfInt16(v: Int16)
    ensures 0 <= v ==> (v / 0x100) % 0x100 == v / 0x100 < 0x80
    ensures v < 0 ==> (v / 0x100) % 0x100 == v / 0x100 + 0x100 >= 0x80
    ensures v % 0x1_0000 == if v < 0 then v + 0x1_0000 else v
  {}

  /** Comparing a byte with 0x80 as a bit-vector or as a number agrees. */
  lemma ByteBelow80(b: Byte)
    ensures b < 0x80 <==> b as int < 0x80
  {}

  /** The big-endian value of two bytes. */
  lemma JoinValue(hi: Byte, lo: Byte)
    ensures Value(Join(hi, lo)) == hi as int * 0x100 + lo as int
  {
    SplitJoin(hi, lo);
  }
}
