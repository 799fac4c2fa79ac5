/** Decoding of the accelerometer's output registers (Adxl345.decode and the list
    comprehension of Adxl345.get_acceleration). */
module Sample {
  import opened Types
  import opened Bits

  /** `accl = (msb << 8) | lsb`: the 16-bit register pair as an unsigned count (RawIsShiftOr
      shows that the shift-and-or is this sum). */
  function Raw(lsb: byte, msb: byte): int {
    msb * 0x100 + lsb
  }

  /** The factor `decode` multiplies a count by: `2 * (2**(code + 1)) / (2**13)`. */
  function LsbSize(code: nat): real {
    2.0 * (Pow2(code + 1) as real) / (Pow2(13) as real)
  }

  /** `decode(lsb, msb)` at range code `code`. */
  function Decode(code: nat, lsb: byte, msb: byte): real {
    DecodeRaw(code, Raw(lsb, msb))
  }

  /** The rest of `decode` once `accl` is known: subtract 2^16 when bit 15 is set (the test
      `accl & (1 << 15)`, which DecodeAsWritten shows is this bit), then multiply by the count size. */
  function DecodeRaw(code: nat, raw: int): real {
    var adjust := LsbSize(code);
    if (raw / 0x8000) % 2 == 1 then ((raw - 0x10000) as real) * adjust else (raw as real) * adjust
  }

  /** The signed 16-bit reading of a register pair, as two's complement defines it. */
  function Signed(lsb: byte, msb: byte): (c: int)
    ensures -0x8000 <= c < 0x8000
    ensures c < 0 <==> msb >= 0x80
  {
    if msb >= 0x80 then msb * 0x100 + lsb - 0x10000 else msb * 0x100 + lsb
  }

  /** The register pair (lsb, msb) the chip stores for a signed count. */
  function Encode(c: int): (pair: (byte, byte))
    requires -0x8000 <= c < 0x8000
  {
    var u := c % 0x10000;
    (u % 0x100, u / 0x100)
  }

  /** The shift-and-or combines the two bytes into `msb * 256 + lsb`, in [0, 65535]
      (`msb << 8` is `msb * 0x100`). */
  lemma RawIsShiftOr(lsb: byte, msb: byte)
    ensures BitOr(msb * 0x100, lsb) == Raw(lsb, msb)
    ensures 0 <= Raw(lsb, msb) < 0x10000
  {
    Pow2Values();
    DivUnique(msb * 0x100, 0x100, msb, 0);
    OrDisjoint(msb * 0x100, lsb, 8);
  }

  /** `decode` as the source writes it, with the shift-and-or and the mask test `& (1 << 15)`
      on Python ints, is Decode. */
  lemma DecodeAsWritten(code: nat, lsb: byte, msb: byte)
    ensures Decode(code, lsb, msb) == DecodeMasked(code, BitOr(msb * 0x100, lsb))
  {
    RawIsShiftOr(lsb, msb);
    DecodeRawAsWritten(code, Raw(lsb, msb));
  }

  /** The last line of `decode`, with the test `accl & (1 << 15)` as written. */
  function DecodeMasked(code: nat, accl: int): real {
    if BitAnd(accl, 0x8000) != 0 then ((accl - 0x10000) as real) * LsbSize(code)
    else (accl as real) * LsbSize(code)
  }

  lemma DecodeRawAsWritten(code: nat, raw: int)
    ensures DecodeRaw(code, raw) == DecodeMasked(code, raw)
  {
    MaskTest(raw, 15);
    BitSetDiv(raw, 15);
    Pow2Values();
  }

  /** The scale is 2^(code+2) / 8192. */
  lemma LsbSizeValue(code: nat)
    ensures LsbSize(code) == (Pow2(code + 2) as real) / 8192.0
    ensures LsbSize(code) > 0.0
  {
    Pow2Values();
    assert Pow2(code + 2) == 2 * Pow2(code + 1);
  }

  /** `decode` is the signed 16-bit count times the count size: bit 15 of the raw count
      is exactly the sign of the two's-complement value. */
  lemma {:induction false} DecodeValue(code: nat, lsb: byte, msb: byte)
    ensures Decode(code, lsb, msb) == (Signed(lsb, msb) as real) * LsbSize(code)
  {
    var raw := Raw(lsb, msb);
    DecodeRawValue(code, raw);
    assert Signed16(raw) == Signed(lsb, msb);
    assert Decode(code, lsb, msb) == DecodeRaw(code, raw);
  }

  lemma DecodeRawValue(code: nat, raw: int)
    requires 0 <= raw < 0x10000
    ensures DecodeRaw(code, raw) == (Signed16(raw) as real) * LsbSize(code)
  {
    SignBit(raw);
  }

  function Signed16(raw: int): int {
    if raw >= 0x8000 then raw - 0x10000 else raw
  }

  /** Bit 15 of a 16-bit count is set exactly when the count is at least 2^15. */
  lemma SignBit(raw: int)
    requires 0 <= raw < 0x10000
    ensures (raw / 0x8000) % 2 == 1 <==> raw >= 0x8000
  {
  }

  /** A decoded value is negative exactly when the high byte has its top bit set. */
  lemma DecodeSign(code: nat, lsb: byte, msb: byte)
    ensures Decode(code, lsb, msb) < 0.0 <==> msb >= 0x80
  {
    DecodeValue(code, lsb, msb);
    LsbSizeValue(code);
    ProductSign(Signed(lsb, msb) as real, LsbSize(code));
  }

  lemma ProductSign(c: real, k: real)
    requires k > 0.0
    ensures c * k < 0.0 <==> c < 0.0
  {
    if c < 0.0 {
      assert c * k < 0.0 * k;
    } else {
      assert c * k >= 0.0 * k;
    }
  }

  lemma ProductBound(c: real, k: real, bound: real)
    requires k > 0.0 && -bound <= c < bound
    ensures -bound * k <= c * k < bound * k
  {
  }

  lemma ScaledBound(d: real, c: real, k: real, p: real)
    requires d == c * k && -32768.0 <= c < 32768.0 && k > 0.0 && p == 32768.0 * k
    ensures -p <= d < p
  {
    ProductBound(c, k, 32768.0);
  }

  /** 2^(code+4) is 32768 counts. */
  lemma FullScaleCounts(code: nat)
    ensures Pow2(code + 4) as real == 32768.0 * LsbSize(code)
  {
    LsbSizeValue(code);
    Pow2Add(code + 2, 2);
    var p := Pow2(code + 2) as real;
    assert Pow2(code + 4) as real == 4.0 * p;
    assert 32768.0 * (p / 8192.0) == 4.0 * p;
  }

  /** A decoded value lies in [-2^(code+4), 2^(code+4)): the full scale is reached only at -32768. */
  lemma DecodeBound(code: nat, lsb: byte, msb: byte)
    ensures -(Pow2(code + 4) as real) <= Decode(code, lsb, msb) < Pow2(code + 4) as real
  {
    DecodeValue(code, lsb, msb);
    LsbSizeValue(code);
    var c, k := Signed(lsb, msb) as real, LsbSize(code);
    FullScaleCounts(code);
    ScaledBound(Decode(code, lsb, msb), c, k, Pow2(code + 4) as real);
  }

  /** At the 16 g range (code 3) one count is 1/256 g: 0x7FFF is 32767/256 g and 0x8000 is -128 g. */
  lemma DecodeExamples()
    ensures Decode(3, 0xFF, 0x7F) == 32767.0 / 256.0
    ensures Decode(3, 0x00, 0x80) == -128.0
  {
    DecodeValue(3, 0xFF, 0x7F);
    DecodeValue(3, 0x00, 0x80);
    assert LsbSize(3) == 1.0 / 256.0 by {
      LsbSizeValue(3);
      Pow2Values();
    }
  }

  /** Encoding a signed count and decoding the pair gives the count back, scaled. */
  lemma EncodeThenDecode(code: nat, c: int)
    requires -0x8000 <= c < 0x8000
    ensures Signed(Encode(c).0, Encode(c).1) == c
    ensures Decode(code, Encode(c).0, Encode(c).1) == (c as real) * LsbSize(code)
  {
    EncodeThenSigned(c);
    DecodeValue(code, Encode(c).0, Encode(c).1);
  }

  lemma EncodeThenSigned(c: int)
    requires -0x8000 <= c < 0x8000
    ensures Signed(Encode(c).0, Encode(c).1) == c
  {
    var u := c % 0x10000;
    assert u == if c < 0 then c + 0x10000 else c;
    DivMod(u, 0x100);
  }

  /** Every register pair is the encoding of its own signed count: decoding loses nothing. */
  lemma DecodeThenEncode(lsb: byte, msb: byte)
    ensures Encode(Signed(lsb, msb)) == (lsb, msb)
  {
    var c := Signed(lsb, msb);
    var u := c % 0x10000;
    assert u == msb * 0x100 + lsb;
    assert u % 0x100 == lsb && u / 0x100 == msb;
  }

  // get_acceleration: one comprehension over the byte offsets 0, 2, 4.

  /** The comprehension from byte offset `idx` on: the decoded pair for each axis the mask
      selects (`axis & (1 << (idx//2))`, which Bits.MaskTest shows is BitSet). */
  function AxesFrom(code: nat, data: seq<byte>, axis: int, idx: nat): seq<real>
    requires |data| == 6 && idx % 2 == 0
    decreases 6 - idx
  {
    if idx >= 6 then []
    else (if BitSet(axis, idx / 2) then [Decode(code, data[idx], data[idx + 1])] else [])
         + AxesFrom(code, data, axis, idx + 2)
  }

  /** `[decode(data[idx], data[idx+1]) for idx in range(0, 6, 2) if axis & (1 << (idx//2))]`. */
  function Acceleration(code: nat, data: seq<byte>, axis: int): seq<real>
    requires |data| == 6
  {
    AxesFrom(code, data, axis, 0)
  }

  /** How many of the axes below `i` the mask selects. */
  function Rank(axis: int, i: nat): nat {
    if i == 0 then 0 else Rank(axis, i - 1) + (if BitSet(axis, i - 1) then 1 else 0)
  }

  /** Number of one bits of a natural number. */
  function Popcount(n: nat): nat {
    if n == 0 then 0 else n % 2 + Popcount(n / 2)
  }

  /** Bits 0..2 of any Python int are the bits of `axis & 0b111`. */
  lemma LowBits(axis: int, i: nat)
    requires i < 3
    ensures BitSet(axis, i) <==> BitSet(axis % 8, i)
  {
    var q, m := axis / 8, axis % 8;
    if i == 0 {
      assert Pow2(0) == 1;
      DivUnique(axis, 2, 4 * q + m / 2, m % 2);
    } else if i == 1 {
      assert Pow2(1) == 2;
      DivUnique(axis, 2, 4 * q + m / 2, m % 2);
      DivUnique(4 * q + m / 2, 2, 2 * q + m / 4, (m / 2) % 2);
    } else {
      assert Pow2(2) == 4;
      DivUnique(axis, 4, 2 * q + m / 4, m % 4);
      DivUnique(2 * q + m / 4, 2, q, m / 4);
    }
  }

  /** Three mask bits selected = the popcount of `axis & 0b111`. */
  lemma RankPopcount(axis: int)
    ensures Rank(axis, 3) == Popcount(axis % 8)
  {
    LowBits(axis, 0);
    LowBits(axis, 1);
    LowBits(axis, 2);
    Pow2Values();
    var m := axis % 8;
    assert Popcount(m / 4) == (m / 4) % 2 by {
      assert m / 4 / 2 == 0;
    }
    assert Popcount(m / 2) == (m / 2) % 2 + (m / 4) % 2 by {
      assert m / 2 / 2 == m / 4;
    }
    assert Popcount(m) == m % 2 + (m / 2) % 2 + (m / 4) % 2;
    assert Rank(axis, 1) == (if BitSet(m, 0) then 1 else 0);
    assert Rank(axis, 2) == Rank(axis, 1) + (if BitSet(m, 1) then 1 else 0);
    assert Rank(axis, 3) == Rank(axis, 2) + (if BitSet(m, 2) then 1 else 0);
  }

  lemma {:induction false} AxesFromLength(code: nat, data: seq<byte>, axis: int, idx: nat)
    requires |data| == 6 && idx % 2 == 0 && idx <= 6
    ensures |AxesFrom(code, data, axis, idx)| == Rank(axis, 3) - Rank(axis, idx / 2)
    decreases 6 - idx
  {
    if idx < 6 {
      AxesFromLength(code, data, axis, idx + 2);
    }
  }

  /** The comprehension from offset `idx` holds the value of each selected axis i at or after
      `idx / 2`, at the position given by how many selected axes precede i from `idx / 2` on. */
  lemma {:induction false} AxesFromAt(code: nat, data: seq<byte>, axis: int, idx: nat, i: nat)
    requires |data| == 6 && idx % 2 == 0 && idx / 2 <= i < 3 && BitSet(axis, i)
    ensures Rank(axis, i) - Rank(axis, idx / 2) < |AxesFrom(code, data, axis, idx)|
    ensures AxesFrom(code, data, axis, idx)[Rank(axis, i) - Rank(axis, idx / 2)]
              == Decode(code, data[2 * i], data[2 * i + 1])
    decreases 6 - idx
  {
    var j := idx / 2;
    var head := if BitSet(axis, j) then [Decode(code, data[idx], data[idx + 1])] else [];
    var tail := AxesFrom(code, data, axis, idx + 2);
    assert AxesFrom(code, data, axis, idx) == head + tail;
    assert Rank(axis, j + 1) == Rank(axis, j) + |head|;
    if i == j {
      assert idx == 2 * i && head != [];
    } else {
      AxesFromAt(code, data, axis, idx + 2, i);
      RankMonotonic(axis, j + 1, i);
    }
  }

  lemma {:induction false} RankMonotonic(axis: int, i: nat, j: nat)
    requires i <= j
    ensures Rank(axis, i) <= Rank(axis, j)
    decreases j
  {
    if i < j {
      RankMonotonic(axis, i, j - 1);
    }
  }

  /** `get_acceleration(axis)` yields one value per selected axis, popcount(axis & 0b111)
      of them, in X, Y, Z order: the value for axis i decodes bytes 2i and 2i+1. */
  lemma AccelerationSpec(code: nat, data: seq<byte>, axis: int)
    requires |data| == 6
    ensures |Acceleration(code, data, axis)| == Popcount(axis % 8)
    ensures forall i :: 0 <= i < 3 && BitSet(axis, i) ==>
              Rank(axis, i) < |Acceleration(code, data, axis)| &&
              Acceleration(code, data, axis)[Rank(axis, i)] == Decode(code, data[2 * i], data[2 * i + 1])
  {
    AxesFromLength(code, data, axis, 0);
    RankPopcount(axis);
    forall i | 0 <= i < 3 && BitSet(axis, i)
      ensures Rank(axis, i) < |Acceleration(code, data, axis)|
      ensures Acceleration(code, data, axis)[Rank(axis, i)] == Decode(code, data[2 * i], data[2 * i + 1])
    {
      AxesFromAt(code, data, axis, 0, i);
    }
  }

  /** Only the three low bits of the mask matter. */
  lemma AccelerationIgnoresHighBits(code: nat, data: seq<byte>, axis: int)
    requires |data| == 6
    ensures Acceleration(code, data, axis) == Acceleration(code, data, axis % 8)
  {
    LowBits(axis, 0);
    LowBits(axis, 1);
    LowBits(axis, 2);
    assert (axis % 8) % 8 == axis % 8;
  }

  /** The default mask 0b111 yields X, Y and Z. */
  lemma AccelerationAllAxes(code: nat, data: seq<byte>)
    requires |data| == 6
    ensures Acceleration(code, data, 0x7)
         == [Decode(code, data[0], data[1]), Decode(code, data[2], data[3]), Decode(code, data[4], data[5])]
  {
    Pow2Values();
    assert BitSet(7, 0) && BitSet(7, 1) && BitSet(7, 2);
  }
}
