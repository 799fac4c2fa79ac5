/** SPI framing of register reads and writes (class Adxl345Spi) and the SPI transfer it relies on. */
module SpiFrame {
  import opened Types
  import opened Bits

  const BITMASK_READ: int := 0x80
  const BITMASK_MULTI: int := 0x40
  /** ADDR_SELECT_MASK: declared next to the two flags but never applied to an address. */
  const ADDR_SELECT_MASK: int := 0x3F
  /** The byte clocked out after a read header, ignored by the chip. */
  const FILLER: byte := 0xFF

  /** An outgoing SPI message: the list handed to `spi_xfer`. Its elements are Python ints
      and need not be bytes (a data-rate level of 16 writes the code -1). */
  type Frame = seq<int>

  /** What `spi_xfer` returns: a count (negative on a pigpio error) and the bytes received. */
  datatype Reply = Reply(count: int, data: seq<byte>)

  /** The `values` argument of `to_address`: a list is sent as it is, anything else is wrapped. */
  datatype Payload = Scalar(v: int) | List(vs: seq<int>)

  function Values(p: Payload): seq<int> {
    match p
    case Scalar(v) => [v]
    case List(vs) => vs
  }

  /** Header of a read: `addr | BITMASK_READ | (BITMASK_MULTI * (byte_count > 1))`. */
  function ReadHeader(addr: byte, byteCount: int): int {
    BitOr(BitOr(addr, BITMASK_READ), BITMASK_MULTI * Bit(byteCount > 1))
  }

  /** Header of a write: `addr | (BITMASK_MULTI * (len(values) > 1))`. */
  function WriteHeader(addr: byte, valueCount: nat): int {
    BitOr(addr, BITMASK_MULTI * Bit(valueCount > 1))
  }

  /** The message of `from_address(addr, byte_count)`: the header, then one filler per byte wanted. */
  function ReadFrame(addr: byte, byteCount: nat): Frame {
    [ReadHeader(addr, byteCount)] + seq(byteCount, _ => FILLER as int)
  }

  /** The message of `to_address(addr, values)`: the header, then the values verbatim. */
  function WriteFrame(addr: byte, p: Payload): Frame {
    [WriteHeader(addr, |Values(p)|)] + Values(p)
  }

  // The chip's reading of a header byte: bit 7 read flag, bit 6 multi-byte flag, bits 5-0 register.

  predicate IsRead(h: int) {
    BitSet(h, 7)
  }

  predicate IsMulti(h: int) {
    BitSet(h, 6)
  }

  function RegisterField(h: int): (reg: int)
    ensures 0 <= reg < 0x40
  {
    h % 0x40
  }

  /** Or-ing flags above bit 5 into x leaves its bits 5-0 and or-s the flags into the rest. */
  lemma OrAboveRegister(x: int, flags: int)
    requires flags % 0x40 == 0
    ensures BitOr(x, flags) % 0x40 == x % 0x40
    ensures BitOr(x, flags) / 0x40 == BitOr(x / 0x40, flags / 0x40)
  {
    Pow2Values();
    Split(OrOp, x, flags, 6);
    Identities(x % 0x40);
  }

  /** The two top bits of a byte or-ed with the flag bits, one bit at a time. */
  lemma TopBits(t: int, read: bool, multi: bool)
    requires 0 <= t < 4
    ensures BitOr(BitOr(t, 2 * Bit(read)), Bit(multi)) ==
      2 * Bit(read || t >= 2) + Bit(multi || t % 2 == 1)
  {
    var u := BitOr(t, 2 * Bit(read));
    OrLowBit(t / 2, read);
    Halves(OrOp, t, 2 * Bit(read));
    assert u == 2 * Bit(read || t >= 2) + t % 2;
    OrLowBit(u, multi);
    DivUnique(u, 2, Bit(read || t >= 2), t % 2);
  }

  /** Or-ing a flag into bit 0. */
  lemma OrLowBit(x: int, flag: bool)
    ensures BitOr(x, Bit(flag)) == 2 * (x / 2) + Bit(flag || x % 2 == 1)
  {
    Halves(OrOp, x, Bit(flag));
    Identities(x / 2);
  }

  /** A read header is a byte whose top two bits are the address's top two bits or-ed with the
      flags, above the address's low six bits. */
  lemma ReadHeaderValue(addr: byte, byteCount: int)
    ensures ReadHeader(addr, byteCount) ==
      0x40 * (2 + Bit(byteCount > 1 || (addr / 0x40) % 2 == 1)) + addr % 0x40
  {
    var inner := BitOr(addr, BITMASK_READ);
    OrAboveRegister(addr, BITMASK_READ);
    OrAboveRegister(inner, BITMASK_MULTI * Bit(byteCount > 1));
    TopBits(addr / 0x40, true, byteCount > 1);
    Identities(addr / 0x40);
    DivMod(ReadHeader(addr, byteCount), 0x40);
  }

  /** So is a write header, with the write flag clear. */
  lemma WriteHeaderValue(addr: byte, valueCount: nat)
    ensures WriteHeader(addr, valueCount) ==
      0x40 * (2 * Bit(addr >= 0x80) + Bit(valueCount > 1 || (addr / 0x40) % 2 == 1)) + addr % 0x40
  {
    var m := BITMASK_MULTI * Bit(valueCount > 1);
    OrAboveRegister(addr, m);
    assert m / 0x40 == Bit(valueCount > 1);
    Identities(addr / 0x40);
    TopBits(addr / 0x40, false, valueCount > 1);
    assert addr / 0x40 >= 2 <==> addr >= 0x80;
    DivMod(WriteHeader(addr, valueCount), 0x40);
  }

  /** A header value, read back by the chip as its three fields. */
  lemma HeaderFields(h: int, top: int, low: int)
    requires 0 <= top < 4 && 0 <= low < 0x40 && h == 0x40 * top + low
    ensures 0 <= h < 0x100
    ensures IsRead(h) <==> top >= 2
    ensures IsMulti(h) <==> top % 2 == 1
    ensures RegisterField(h) == low
  {
    Pow2Values();
    DivUnique(h, 0x40, top, low);
    DivDouble(h, 0x40);
  }

  /** Every read header is a byte carrying the read flag and the low six bits of the address;
      the multi-byte flag is set when more than one byte is read or when bit 6 of the unmasked
      address is. */
  lemma ReadHeaderFields(addr: byte, byteCount: int)
    ensures 0 <= ReadHeader(addr, byteCount) < 0x100
    ensures IsRead(ReadHeader(addr, byteCount))
    ensures IsMulti(ReadHeader(addr, byteCount)) <==> byteCount > 1 || IsMulti(addr)
    ensures RegisterField(ReadHeader(addr, byteCount)) == RegisterField(addr)
  {
    ReadHeaderValue(addr, byteCount);
    DivMod(addr, 0x40);
    HeaderFields(addr, addr / 0x40, addr % 0x40);
    HeaderFields(ReadHeader(addr, byteCount), 2 + Bit(byteCount > 1 || (addr / 0x40) % 2 == 1), addr % 0x40);
  }

  /** A write header is a byte that keeps the address's bits 7 and 5-0, and sets the multi-byte
      flag when more than one value is written or when bit 6 of the unmasked address is. */
  lemma WriteHeaderFields(addr: byte, valueCount: nat)
    ensures 0 <= WriteHeader(addr, valueCount) < 0x100
    ensures IsRead(WriteHeader(addr, valueCount)) <==> IsRead(addr)
    ensures IsMulti(WriteHeader(addr, valueCount)) <==> valueCount > 1 || IsMulti(addr)
    ensures RegisterField(WriteHeader(addr, valueCount)) == RegisterField(addr)
  {
    WriteHeaderValue(addr, valueCount);
    DivMod(addr, 0x40);
    HeaderFields(addr, addr / 0x40, addr % 0x40);
    HeaderFields(WriteHeader(addr, valueCount),
      2 * Bit(addr >= 0x80) + Bit(valueCount > 1 || (addr / 0x40) % 2 == 1), addr % 0x40);
  }

  /** For the register addresses (all below 0x40) the header is the address plus the flags,
      and the chip reads back exactly the register, the direction and the multi-byte flag. */
  lemma RegisterHeaders(addr: byte, byteCount: int, valueCount: nat)
    requires addr < 0x40
    ensures ReadHeader(addr, byteCount) == 0x80 + (if byteCount > 1 then 0x40 else 0) + addr
    ensures WriteHeader(addr, valueCount) == (if valueCount > 1 then 0x40 else 0) + addr
    ensures IsRead(ReadHeader(addr, byteCount)) && !IsRead(WriteHeader(addr, valueCount))
    ensures IsMulti(ReadHeader(addr, byteCount)) <==> byteCount > 1
    ensures IsMulti(WriteHeader(addr, valueCount)) <==> valueCount > 1
    ensures RegisterField(ReadHeader(addr, byteCount)) == addr == RegisterField(WriteHeader(addr, valueCount))
  {
    DivUnique(addr, 0x40, 0, addr);
    ReadHeaderValue(addr, byteCount);
    WriteHeaderValue(addr, valueCount);
    HeaderFields(ReadHeader(addr, byteCount), 2 + Bit(byteCount > 1), addr);
    HeaderFields(WriteHeader(addr, valueCount), Bit(valueCount > 1), addr);
  }

  /** The address is not masked with ADDR_SELECT_MASK: a one-byte read of an address with bit 6
      set puts the same header on the bus as a multi-byte read of the register 0x40 below it
      (a read of 0x72 looks like the six-byte read of DATA_X0, 0x32). */
  lemma UnmaskedAddressCollides(addr: byte, byteCount: int)
    requires 0x40 <= addr < 0x80 && byteCount > 1
    ensures ReadHeader(addr, 1) == ReadHeader(addr - 0x40, byteCount)
    ensures RegisterField(ReadHeader(addr, 1)) == addr - 0x40 && IsMulti(ReadHeader(addr, 1))
  {
    DivUnique(addr, 0x40, 1, addr - 0x40);
    DivUnique(addr - 0x40, 0x40, 0, addr - 0x40);
    ReadHeaderValue(addr, 1);
    ReadHeaderValue(addr - 0x40, byteCount);
    HeaderFields(ReadHeader(addr, 1), 3, addr - 0x40);
  }

  /** A read message is `byte_count + 1` long: the header, then fillers only. */
  lemma ReadFrameShape(addr: byte, byteCount: nat)
    ensures |ReadFrame(addr, byteCount)| == byteCount + 1
    ensures ReadFrame(addr, byteCount)[0] == ReadHeader(addr, byteCount)
    ensures forall i :: 1 <= i <= byteCount ==> ReadFrame(addr, byteCount)[i] == 0xFF
  {
  }

  /** A write message is the header followed by the payload verbatim; a scalar is one value. */
  lemma WriteFrameShape(addr: byte, p: Payload)
    ensures |WriteFrame(addr, p)| == |Values(p)| + 1
    ensures WriteFrame(addr, p)[0] == WriteHeader(addr, |Values(p)|)
    ensures WriteFrame(addr, p)[1..] == Values(p)
    ensures p.Scalar? ==> WriteFrame(addr, p) == [WriteHeader(addr, 1), p.v]
  {
  }

  /** The SPI channel as the driver uses it: `spi_xfer` is an oracle standing for the chip,
      whose reply may depend on every message sent before; `sent` logs the messages in order. */
  class SpiBus {
    const device: (seq<Frame>, Frame) -> Reply
    var sent: seq<Frame>

    constructor (device: (seq<Frame>, Frame) -> Reply)
      ensures this.device == device && sent == []
    {
      this.device := device;
      sent := [];
    }

    /** One full-duplex transfer of `frame`. */
    method Xfer(frame: Frame) returns (reply: Reply)
      modifies this
      ensures sent == old(sent) + [frame]
      ensures reply == device(old(sent), frame)
    {
      reply := device(sent, frame);
      sent := sent + [frame];
    }
  }
}
