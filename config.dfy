/** The arithmetic of the configuration setters (Adxl345.set_sensitivity_range and
    Adxl345.set_data_rate_level): argument checks, register codes and the DATA_FORMAT byte. */
module Config {
  import opened Types
  import opened Bits
  import opened Sample

  /** The full-scale ranges `set_sensitivity_range` accepts, in g. */
  predicate ValidRange(r: int) {
    r == 2 || r == 4 || r == 8 || r == 16
  }

  /** `int(log2(n))` for n >= 1: the position of the highest one bit. */
  function Log2(n: nat): nat
    requires n >= 1
  {
    if n == 1 then 0 else 1 + Log2(n / 2)
  }

  /** The range code stored in the `sensitivity_range` field: `int(log2(r)) - 1`. */
  function RangeCode(r: int): int
    requires ValidRange(r)
  {
    Log2(r) - 1
  }

  /** The full-scale range, in g, that a range code selects. */
  function FullScale(code: nat): nat {
    Pow2(code + 1)
  }

  /** The checks of `set_sensitivity_range`, in the source's order: TypeError for a
      non-int, ValueError outside {2, 4, 8, 16}; otherwise the range code. */
  function CheckRange(arg: Arg): (r: Result<int>)
    ensures arg.NonInt? ==> r == Err(TypeError)
    ensures arg.Int? && !ValidRange(arg.value) ==> r == Err(ValueError)
    ensures arg.Int? && ValidRange(arg.value) ==> r.Ok? && 0 <= r.value <= 3 && FullScale(r.value) == arg.value
  {
    if arg.NonInt? then Err(TypeError)
    else if !ValidRange(arg.value) then Err(ValueError)
    else
      RangeCodeInverse(arg.value);
      Ok(RangeCode(arg.value))
  }

  /** The range code is log2(r) - 1: 2, 4, 8, 16 g become 0, 1, 2, 3, and the code selects
      its range back. */
  lemma RangeCodeInverse(r: int)
    requires ValidRange(r)
    ensures 0 <= RangeCode(r) <= 3 && FullScale(RangeCode(r)) == r
    ensures r == 2 ==> RangeCode(r) == 0
    ensures r == 4 ==> RangeCode(r) == 1
    ensures r == 8 ==> RangeCode(r) == 2
    ensures r == 16 ==> RangeCode(r) == 3
  {
    Pow2Values();
    assert Log2(2) == 1 && Log2(4) == 2 && Log2(8) == 3;
    assert Log2(16) == 1 + Log2(8);
  }

  /** Each of the four codes is the code of exactly one accepted range. */
  lemma FullScaleInverse(code: nat)
    requires code <= 3
    ensures ValidRange(FullScale(code)) && RangeCode(FullScale(code)) == code
  {
    Pow2Values();
    RangeCodeInverse(FullScale(code));
  }

  /** With the code of range r, the factor `2 * 2**(code + 1) / 2**13` of `decode` is r / 4096. */
  lemma CountSizeOfRange(r: int)
    requires ValidRange(r)
    ensures LsbSize(RangeCode(r)) == (r as real) / 4096.0
  {
    RangeCodeInverse(r);
    Pow2Values();
  }

  /** `data & ~0x0F | code | 0x08` with `data` the DATA_FORMAT byte read: Python's `&`
      binds tighter than `|`, and `~0x0F` is -16, all ones above bit 3. */
  function FormatByte(current: byte, code: int): int
    requires 0 <= code <= 3
  {
    BitOr(BitOr(BitAnd(current, BitNot(0x0F)), code), 0x08)
  }

  /** The DATA_FORMAT byte written back keeps the upper nibble of the byte read, and its low
      nibble is the full-resolution flag 0x08 plus the range code. */
  lemma FormatByteSpec(current: byte, code: int)
    requires 0 <= code <= 3
    ensures FormatByte(current, code) / 16 == current / 16
    ensures FormatByte(current, code) % 16 == 0x08 + code
  {
    FormatByteValue(current, code);
    DivUnique(FormatByte(current, code), 16, current / 16, 8 + code);
  }

  /** Clearing the low nibble with `~0x0F`, then or-ing in `code` and the 0x08 flag, adds both to
      the upper nibble. */
  lemma FormatByteValue(current: byte, code: int)
    requires 0 <= code <= 3
    ensures FormatByte(current, code) == (current / 16) * 16 + 8 + code
  {
    var cleared := BitAnd(current, BitNot(0x0F));
    ClearLowNibble(current);
    Pow2Values();
    OrDisjoint(cleared, code, 4);
    SetFlag(current / 16, code);
  }

  /** `x & ~0x0F` is x rounded down to a multiple of 16. */
  lemma ClearLowNibble(x: int)
    ensures BitAnd(x, BitNot(0x0F)) == (x / 16) * 16
    ensures ((x / 16) * 16) % 16 == 0
  {
    Pow2Values();
    var cleared := BitAnd(x, -16);
    Split(AndOp, x, -16, 4);
    Identities(x / 16);
    Identities(x % 16);
    DivMod(cleared, 16);
    DivUnique((x / 16) * 16, 16, x / 16, 0);
  }

  /** Or-ing 0x08 into `16 q + code` with code below 8 sets bit 3. */
  lemma SetFlag(q: int, code: int)
    requires 0 <= code <= 3
    ensures BitOr(16 * q + code, 8) == 16 * q + 8 + code
  {
    Pow2Values();
    var x := 16 * q + code;
    DivUnique(x, 16, q, code);
    Split(OrOp, x, 8, 4);
    Identities(q);
    OrDisjoint(8, code, 3);
    Commutes(8, code);
    var r := BitOr(x, 8);
    DivMod(r, 16);
  }

  /** Writing the same range twice leaves DATA_FORMAT as the first write left it. */
  lemma FormatByteIdempotent(current: byte, code: int)
    requires 0 <= code <= 3
    ensures var once := FormatByte(current, code);
      0 <= once < 0x100 && FormatByte(once, code) == once
  {
    var once := FormatByte(current, code);
    FormatByteValue(current, code);
    FormatByteSpec(current, code);
    FormatByteSpec(once, code);
    var twice := FormatByte(once, code);
    DivMod(twice, 16);
    DivMod(once, 16);
  }

  /** The data-rate levels `set_data_rate_level` accepts. */
  predicate ValidLevel(level: int) {
    0 <= level <= 16
  }

  /** The checks of `set_data_rate_level`: TypeError for a non-int, ValueError outside [0, 16]. */
  function CheckLevel(arg: Arg): Result<nat> {
    if arg.NonInt? then Err(TypeError)
    else if !ValidLevel(arg.value) then Err(ValueError)
    else Ok(arg.value)
  }

  /** `data_rate_code = 0b1111 - level`, written to BW_RATE. */
  function DataRateCode(level: int): int {
    0x0F - level
  }

  /** `data_rate = int(3200 / 2**level)`: the float quotient is exact and positive, so
      `int` truncates it to the floor. */
  function DataRate(level: nat): int {
    3200 / Pow2(level)
  }

  /** The rate is the largest whole number of hertz not above 3200 / 2^level. */
  lemma DataRateFloor(level: nat)
    ensures DataRate(level) * Pow2(level) <= 3200 < (DataRate(level) + 1) * Pow2(level)
  {
  }

  /** The rate is 0 Hz for every level from 12 on, and positive below. */
  lemma DataRateZero(level: nat)
    ensures DataRate(level) == 0 <==> level >= 12
  {
    Pow2Values();
    if level >= 12 {
      Pow2Monotonic(12, level);
    } else {
      Pow2Monotonic(level, 11);
    }
  }

  /** Each level halves the rate of the one before, rounding down. */
  lemma DataRateHalves(level: nat)
    ensures DataRate(level + 1) == DataRate(level) / 2
  {
    var p := Pow2(level);
    assert Pow2(level + 1) == 2 * p;
    var q := DataRate(level);
    var r := 3200 % p;
    assert 3200 == q * p + r && 0 <= r < p;
    var h, s := q / 2, q % 2;
    assert 3200 == h * (2 * p) + (s * p + r);
    assert 0 <= s * p + r < 2 * p;
    DivUnique(3200, 2 * p, h, s * p + r);
  }

  /** The rates of the levels the chip names, 3200 Hz down to 1 Hz. */
  lemma DataRateTable()
    ensures DataRate(0) == 3200 && DataRate(1) == 1600 && DataRate(4) == 200
    ensures DataRate(8) == 12 && DataRate(10) == 3 && DataRate(11) == 1
  {
    Pow2Values();
    assert Pow2(10) == 1024;
  }
}
