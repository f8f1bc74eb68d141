/**
 * The Modbus RTU CRC-16 of `MODBUS_CRC16` (section 6.2.2 of the Modbus over
 * Serial Line Specification V1.02): register preset to 0xFFFF, each byte
 * XORed into the low end, then eight right shifts, XORing the reflected
 * polynomial 0xA001 whenever a 1 is shifted out. The CRC travels low byte
 * first.
 */
module Crc {
  import opened Bytes

  const Preset: Word := 0xFFFF
  const Poly: Word := 0xA001

  /** One step of the inner loop. */
  function Shift(c: Word): Word {
    if c & 1 == 1 then (c >> 1) ^ Poly else c >> 1
  }

  /** `n` steps of the inner loop. */
  function Shifts(c: Word, n: nat): Word {
    if n == 0 then c else Shift(Shifts(c, n - 1))
  }

  /** The register after one byte has been folded in. */
  function Update(c: Word, b: Byte): Word {
    Shifts(c ^ b as Word, 8)
  }

  /** The register after the bytes `s`, starting from `c`. */
  function CrcFrom(c: Word, s: seq<Byte>): Word
    decreases |s|
  {
    if s == [] then c else CrcFrom(Update(c, s[0]), s[1..])
  }

  /** The CRC of a buffer. */
  function Crc16(s: seq<Byte>): Word {
    CrcFrom(Preset, s)
  }

  /** `s` followed by its CRC, low byte first, as every request frame ends. */
  function WithCrc(s: seq<Byte>): (f: seq<Byte>)
    ensures |f| == |s| + 2 && f[..|s|] == s
  {
    s + [Lo(Crc16(s)), Hi(Crc16(s))]
  }

  /**
   * The CRC comparison of `MODBUS_CheckConnection`: the last two bytes, read
   * low byte first, equal the CRC of everything before them.
   */
  predicate CrcMatches(f: seq<Byte>)
    requires |f| >= 2
  {
    Join(f[|f| - 1], f[|f| - 2]) == Crc16(f[..|f| - 2])
  }

  /** The inner loop of `MODBUS_CRC16`: one byte folded into the register, bit by bit. */
  method UpdateByte(c: Word, b: Byte) returns (crc: Word)
    ensures crc == Update(c, b)
  {
    var start := c ^ b as Word;
    crc := start;
    var j := 0;
    while j < 8
      invariant 0 <= j <= 8
      invariant crc == Shifts(start, j)
    {
      if crc & 1 == 1 {
        crc := (crc >> 1) ^ Poly;
      } else {
        crc := crc >> 1;
      }
      j := j + 1;
    }
  }

  /** The fold takes the first byte, then the rest. */
  lemma CrcFromFirst(c: Word, s: seq<Byte>, i: nat, n: nat)
    requires i < n <= |s|
    ensures CrcFrom(c, s[i..n]) == CrcFrom(Update(c, s[i]), s[i + 1..n])
  {
    assert s[i..n][0] == s[i] && s[i..n][1..] == s[i + 1..n];
  }

  /** `MODBUS_CRC16(buf, len)`: the two nested loops of the source. */
  method ComputeCrc16(buf: array<Byte>, len: nat) returns (crc: Word)
    requires len <= buf.Length
    ensures crc == Crc16(buf[..len])
  {
    crc := Preset;
    var i := 0;
    assert buf[0..len] == buf[..len];
    while i < len
      invariant 0 <= i <= len
      invariant CrcFrom(crc, buf[i..len]) == Crc16(buf[..len])
    {
      CrcFromFirst(crc, buf[..], i, len);
      assert buf[..][i..len] == buf[i..len] && buf[..][i + 1..len] == buf[i + 1..len];
      crc := UpdateByte(crc, buf[i]);
      i := i + 1;
    }
  }

  /** Folding in two buffers one after the other is folding in their concatenation. */
  lemma {:induction false} CrcAppend(c: Word, p: seq<Byte>, q: seq<Byte>)
    ensures CrcFrom(c, p + q) == CrcFrom(CrcFrom(c, p), q)
    decreases |p|
  {
    if p != [] {
      assert (p + q)[0] == p[0] && (p + q)[1..] == p[1..] + q;
      assert CrcFrom(c, p + q) == CrcFrom(Update(c, p[0]), p[1..] + q);
      CrcAppend(Update(c, p[0]), p[1..], q);
    } else {
      assert p + q == q;
    }
  }

  /** Eight shifts of a register whose low byte is clear move its high byte down. */
  lemma ShiftsHighByte(c: Word)
    requires c & 0xFF == 0
    ensures Shifts(c, 8) == c >> 8
  {
    assert Shifts(c, 1) == c >> 1;
    assert Shifts(c, 2) == c >> 2;
    assert Shifts(c, 3) == c >> 3;
    assert Shifts(c, 4) == c >> 4;
    assert Shifts(c, 5) == c >> 5;
    assert Shifts(c, 6) == c >> 6;
    assert Shifts(c, 7) == c >> 7;
  }

  lemma ShiftsZero(n: nat)
    ensures Shifts(0, n) == 0
  {}

  /** Folding in the register's own low byte leaves its high byte. */
  lemma UpdateOwnLow(c: Word)
    ensures Update(c, Lo(c)) == Hi(c) as Word
  {
    var c1 := c ^ Lo(c) as Word;
    assert c1 & 0xFF == 0 && c1 >> 8 == Hi(c) as Word;
    ShiftsHighByte(c1);
  }

  /** Folding a byte into a register holding exactly that byte clears it. */
  lemma UpdateSelf(b: Byte)
    ensures Update(b as Word, b) == 0
  {
    assert b as Word ^ b as Word == 0;
    ShiftsZero(8);
  }

  /** Appending a register's own value, low byte first, clears it. */
  lemma Residue(c: Word)
    ensures CrcFrom(c, [Lo(c), Hi(c)]) == 0
  {
    var s := [Lo(c), Hi(c)];
    UpdateOwnLow(c);
    UpdateSelf(Hi(c));
    assert s[0] == Lo(c) && s[1..] == [Hi(c)];
    assert [Hi(c)][0] == Hi(c) && [Hi(c)][1..] == [];
    assert CrcFrom(c, s) == CrcFrom(Hi(c) as Word, [Hi(c)]);
    assert CrcFrom(Hi(c) as Word, [Hi(c)]) == CrcFrom(0, []);
  }

  /** A frame with its CRC appended has CRC zero over its whole length. */
  lemma FrameResidue(s: seq<Byte>)
    ensures Crc16(WithCrc(s)) == 0
  {
    var c := Crc16(s);
    CrcAppend(Preset, s, [Lo(c), Hi(c)]);
    Residue(c);
  }

  /** The CRC of no bytes is the preset. */
  lemma CrcEmpty()
    ensures Crc16([]) == 0xFFFF
  {
  }

  /**
   * A frame with two zero bytes after its CRC still passes the CRC
   * comparison: the frame's residue is zero, and so is the trailer read as a
   * CRC. A receiver that checks only the CRC accepts such a datagram.
   */
  lemma ZeroTrailerPassesCrc(s: seq<Byte>)
    ensures CrcMatches(WithCrc(s) + [0, 0])
  {
    var f := WithCrc(s) + [0, 0];
    assert f[..|f| - 2] == WithCrc(s);
    FrameResidue(s);
  }

  /** A frame built by `WithCrc` passes the receiver's CRC comparison. */
  lemma WithCrcMatches(s: seq<Byte>)
    ensures CrcMatches(WithCrc(s))
  {
    var f := WithCrc(s);
    assert f[..|f| - 2] == s;
    JoinSplit(Crc16(s));
  }

  lemma ShiftInjective(x: Word, y: Word)
    ensures Shift(x) == Shift(y) ==> x == y
  {}

  lemma {:induction false} ShiftsInjective(x: Word, y: Word, n: nat)
    ensures Shifts(x, n) == Shifts(y, n) ==> x == y
  {
    if n > 0 {
      ShiftInjective(Shifts(x, n - 1), Shifts(y, n - 1));
      ShiftsInjective(x, y, n - 1);
    }
  }

  /** Different registers stay different after any further bytes. */
  lemma {:induction false} CrcFromInjective(x: Word, y: Word, s: seq<Byte>)
    ensures CrcFrom(x, s) == CrcFrom(y, s) ==> x == y
    decreases |s|
  {
    if s != [] {
      CrcFromInjective(Update(x, s[0]), Update(y, s[0]), s[1..]);
      ShiftsInjective(x ^ s[0] as Word, y ^ s[0] as Word, 8);
    }
  }

  /** A byte folded into the same register is recovered from the result. */
  lemma UpdateInjective(c: Word, a: Byte, b: Byte)
    ensures Update(c, a) == Update(c, b) ==> a == b
  {
    ShiftsInjective(c ^ a as Word, c ^ b as Word, 8);
  }

  lemma CrcSplit(p: seq<Byte>, a: Byte, q: seq<Byte>)
    ensures Crc16(p + [a] + q) == CrcFrom(Update(Crc16(p), a), q)
  {
    CrcAppend(Preset, p, [a] + q);
    assert p + [a] + q == p + ([a] + q);
    assert ([a] + q)[0] == a && ([a] + q)[1..] == q;
  }

  /** The CRC detects every error confined to a single byte. */
  lemma SingleByteErrorDetected(p: seq<Byte>, a: Byte, b: Byte, q: seq<Byte>)
    requires a != b
    ensures Crc16(p + [a] + q) != Crc16(p + [b] + q)
  {
    var c := Crc16(p);
    CrcSplit(p, a, q);
    CrcSplit(p, b, q);
    CrcFromInjective(Update(c, a), Update(c, b), q);
    UpdateInjective(c, a, b);
  }
}
