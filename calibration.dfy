/** The checks and corrections of Adxl345.calibrate, on the reading (x, y, z) in g.
    Python's `fabs`, `round` and `^` are modelled exactly; floats are modelled as reals. */
module Calibration {
  import opened Types
  import opened Bits

  /** `fabs(v)`. */
  function Abs(v: real): real {
    if v < 0.0 then -v else v
  }

  /** Python's `round(v)`: the nearest integer, and the even one of two at a tie. */
  function Round(v: real): int {
    var f := v.Floor;
    var frac := v - f as real;
    if frac < 0.5 then f
    else if frac > 0.5 then f + 1
    else if f % 2 == 0 then f
    else f + 1
  }

  /** `(0-margin < fabs(v) < 0+margin) or (1-margin < fabs(v) < 1+margin)`: near 0 g or near 1 g. */
  predicate NearRest(v: real, margin: real) {
    var a := Abs(v);
    (0.0 - margin < a < 0.0 + margin) || (1.0 - margin < a < 1.0 + margin)
  }

  /** The correction of each axis, in g. */
  datatype Correction = Correction(dx: real, dy: real, dz: real)

  /** The part of `calibrate(margin)` after the reading: reject it when an axis is near neither
      0 g nor 1 g, reject it when `round(x) ^ round(y) ^ round(z)` is 0, and otherwise give
      `round(v) - v` for each axis. */
  function CheckReading(x: real, y: real, z: real, margin: real): Result<Correction> {
    if !(NearRest(x, margin) && NearRest(y, margin) && NearRest(z, margin)) then
      Err(PlacementError(x, y, z))
    else if BitXor(BitXor(Round(x), Round(y)), Round(z)) == 0 then
      Err(OrientationError(x, y, z))
    else
      Ok(Correction(Round(x) as real - x, Round(y) as real - y, Round(z) as real - z))
  }

  /** `round` lands within half a unit of its argument and leaves integers alone. */
  lemma RoundNearest(v: real)
    ensures Abs(v - Round(v) as real) <= 0.5
    ensures v == (v.Floor as real) ==> Round(v) == v.Floor
  {
  }

  /** With a margin of at most 0.5, an axis that passes the first check rounds to 0 when it is
      near 0 g and to its sign when it is near 1 g, and lies strictly within the margin of that. */
  lemma RoundNearRest(v: real, margin: real)
    requires margin <= 0.5 && NearRest(v, margin)
    ensures Round(v) == (if Abs(v) < margin then 0 else if v > 0.0 then 1 else -1)
    ensures Abs(Round(v) as real - v) < margin
  {
    if -0.5 < v < 0.5 {
      if v >= 0.0 {
        assert v.Floor == 0;
      } else {
        assert v.Floor == -1;
      }
    } else if v > 0.0 {
      if v < 1.0 {
        assert v.Floor == 0;
      } else {
        assert v.Floor == 1;
      }
    } else {
      if v >= -1.0 {
        assert v.Floor == -1;
      } else {
        assert v.Floor == -2;
      }
    }
  }

  /** The XOR of three rounded axes in {-1, 0, 1} is 0 exactly when one axis is 0 and the other
      two are equal: all three 0, or two equal nonzero axes. Two opposite nonzero axes, or three
      nonzero ones, give a nonzero XOR. */
  lemma XorZero(a: int, b: int, c: int)
    requires -1 <= a <= 1 && -1 <= b <= 1 && -1 <= c <= 1
    ensures BitXor(BitXor(a, b), c) == 0 <==> (c == 0 && a == b) || (b == 0 && a == c) || (a == 0 && b == c)
  {
    assert BitXor(1, -1) == -2 && BitXor(-1, 1) == -2;
    assert BitXor(1, 1) == 0 && BitXor(1, 0) == 1 && BitXor(0, 1) == 1;
    assert BitXor(-2, 1) == -1 && BitXor(-2, -1) == 1 && BitXor(-2, 0) == -2;
  }

  /** Which readings calibrate accepts, for a margin in (0, 0.5]: every axis near 0 g or 1 g,
      and not the case that one axis is near 0 g while the other two round to the same value. */
  lemma CheckReadingAccepts(x: real, y: real, z: real, margin: real)
    requires 0.0 < margin <= 0.5
    ensures CheckReading(x, y, z, margin).Ok? <==>
      NearRest(x, margin) && NearRest(y, margin) && NearRest(z, margin) &&
      !((Round(z) == 0 && Round(x) == Round(y)) || (Round(y) == 0 && Round(x) == Round(z)) ||
        (Round(x) == 0 && Round(y) == Round(z)))
  {
    if NearRest(x, margin) && NearRest(y, margin) && NearRest(z, margin) {
      RoundNearRest(x, margin);
      RoundNearRest(y, margin);
      RoundNearRest(z, margin);
      XorZero(Round(x), Round(y), Round(z));
    }
  }

  /** An accepted reading's corrections are each smaller than the margin and move every axis
      exactly onto 0 g or 1 g of either sign. */
  lemma CorrectionsSnap(x: real, y: real, z: real, margin: real)
    requires margin <= 0.5 && CheckReading(x, y, z, margin).Ok?
    ensures var c := CheckReading(x, y, z, margin).value;
      Abs(c.dx) < margin && Abs(c.dy) < margin && Abs(c.dz) < margin &&
      Round(x) as real == x + c.dx && Round(y) as real == y + c.dy && Round(z) as real == z + c.dz &&
      -1 <= Round(x) <= 1 && -1 <= Round(y) <= 1 && -1 <= Round(z) <= 1
  {
    RoundNearRest(x, margin);
    RoundNearRest(y, margin);
    RoundNearRest(z, margin);
  }

  /** Once the corrections are applied, a second calibration of the corrected reading accepts
      it and asks for no further correction. */
  lemma CalibrationConverges(x: real, y: real, z: real, margin: real)
    requires 0.0 < margin <= 0.5 && CheckReading(x, y, z, margin).Ok?
    ensures var c := CheckReading(x, y, z, margin).value;
      CheckReading(x + c.dx, y + c.dy, z + c.dz, margin) == Ok(Correction(0.0, 0.0, 0.0))
  {
    SnapAxis(x, margin);
    SnapAxis(y, margin);
    SnapAxis(z, margin);
  }

  /** An axis moved onto its rounded value still passes the first check and rounds the same. */
  lemma SnapAxis(v: real, margin: real)
    requires 0.0 < margin <= 0.5 && NearRest(v, margin)
    ensures var v1 := v + (Round(v) as real - v);
      v1 == Round(v) as real && Round(v1) == Round(v) && NearRest(v1, margin)
  {
    RoundNearRest(v, margin);
    var n := Round(v);
    assert (n as real).Floor == n;
  }

  /** A sensor lying flat reads about (0, 0, 1) g and is corrected by about (-0.02, 0.01, 0.01);
      a tilted one reading 0.5 g on every axis is rejected by the first check. */
  lemma CheckReadingExamples()
    ensures CheckReading(0.02, -0.01, 0.99, 0.1) == Ok(Correction(-0.02, 0.01, 0.01))
    ensures CheckReading(0.5, 0.5, 0.5, 0.1) == Err(PlacementError(0.5, 0.5, 0.5))
  {
    assert Round(0.02) == 0 && Round(-0.01) == 0 && Round(0.99) == 1 by {
      RoundNearRest(0.02, 0.1);
      RoundNearRest(-0.01, 0.1);
      RoundNearRest(0.99, 0.1);
    }
    assert BitXor(BitXor(0, 0), 1) == 1;
  }

  /** The XOR test does not demand a single axis near 1 g: two opposite axes, or all three
      axes, at 1 g pass it although the error message asks for only one value 1. */
  lemma XorAcceptsSeveralAxes()
    ensures CheckReading(1.0, -1.0, 0.0, 0.1).Ok?
    ensures CheckReading(1.0, 1.0, 1.0, 0.1).Ok?
  {
    assert Round(1.0) == 1 && Round(-1.0) == -1 && Round(0.0) == 0;
    XorZero(1, -1, 0);
    XorZero(1, 1, 1);
  }

  /** How many of the rounded axes are nonzero. */
  function NonzeroAxes(rx: int, ry: int, rz: int): nat {
    (if rx != 0 then 1 else 0) + (if ry != 0 then 1 else 0) + (if rz != 0 then 1 else 0)
  }

  /** The check the message of calibrate asks for: every axis near 0 g or 1 g, and exactly
      one of them near 1 g. */
  function CheckReadingSingleAxis(x: real, y: real, z: real, margin: real): Result<Correction> {
    if !(NearRest(x, margin) && NearRest(y, margin) && NearRest(z, margin)) then
      Err(PlacementError(x, y, z))
    else if NonzeroAxes(Round(x), Round(y), Round(z)) != 1 then
      Err(OrientationError(x, y, z))
    else
      Ok(Correction(Round(x) as real - x, Round(y) as real - y, Round(z) as real - z))
  }

  /** The single-axis check accepts a reading exactly when every axis is near 0 g or 1 g and
      exactly one is near 1 g; whatever it accepts the XOR check accepts with the same
      corrections. */
  lemma SingleAxisSpec(x: real, y: real, z: real, margin: real)
    requires 0.0 < margin <= 0.5
    ensures CheckReadingSingleAxis(x, y, z, margin).Ok? <==>
      NearRest(x, margin) && NearRest(y, margin) && NearRest(z, margin) &&
      (if Abs(x) < margin then 0 else 1) + (if Abs(y) < margin then 0 else 1) + (if Abs(z) < margin then 0 else 1) == 1
    ensures CheckReadingSingleAxis(x, y, z, margin).Ok? ==>
      CheckReading(x, y, z, margin) == CheckReadingSingleAxis(x, y, z, margin)
  {
    if NearRest(x, margin) && NearRest(y, margin) && NearRest(z, margin) {
      RoundNearRest(x, margin);
      RoundNearRest(y, margin);
      RoundNearRest(z, margin);
      CheckReadingAccepts(x, y, z, margin);
    }
  }

  /** The single-axis check rejects the two-axis and three-axis readings the XOR check lets
      through. */
  lemma SingleAxisRejectsSeveral()
    ensures CheckReadingSingleAxis(1.0, -1.0, 0.0, 0.1).Err?
    ensures CheckReadingSingleAxis(1.0, 1.0, 1.0, 0.1).Err?
  {
    assert Round(1.0) == 1 && Round(-1.0) == -1;
  }

  // The offset registers: set_offset(x, y, z) writes `int(v / FACTOR_HIGH_RES / 4) & 0xFF` for each
  // axis. The factor is a parameter here because the source never defines it.

  /** Python's `int(r)` on a float: truncation towards zero. */
  function Trunc(r: real): int {
    if r >= 0.0 then r.Floor else -((-r).Floor)
  }

  /** The byte written to an offset register for a correction of `v` g. */
  function OffsetByte(v: real, factor: real): int
    requires factor != 0.0
  {
    BitAnd(Trunc(v / factor / 4.0), 0xFF)
  }

  /** The chip's reading of an offset register: an 8-bit two's complement count. */
  function Signed8(b: int): int {
    if b >= 0x80 then b - 0x100 else b
  }

  /** `int` drops the fraction and keeps the sign: the result lies between 0 and its argument,
      less than one away. */
  lemma TruncSpec(r: real)
    ensures Dist(Trunc(r) as real, r) < 1.0
    ensures r >= 0.0 ==> 0.0 <= Trunc(r) as real <= r
    ensures r < 0.0 ==> r <= Trunc(r) as real <= 0.0
  {
  }

  function Dist(a: real, b: real): real {
    if a >= b then a - b else b - a
  }

  /** The offset byte is the truncated count modulo 256, so it is a byte, and every count the
      register can hold (-128..127) reads back as itself; a zero correction writes 0. */
  lemma OffsetByteSpec(v: real, factor: real)
    requires factor != 0.0
    ensures 0 <= OffsetByte(v, factor) < 0x100
    ensures OffsetByte(v, factor) == Trunc(v / factor / 4.0) % 0x100
    ensures -0x80 <= Trunc(v / factor / 4.0) < 0x80 ==> Signed8(OffsetByte(v, factor)) == Trunc(v / factor / 4.0)
    ensures OffsetByte(0.0, factor) == 0
  {
    MaskByte(Trunc(v / factor / 4.0));
    assert 0.0 / factor / 4.0 == 0.0;
    MaskByte(0);
  }

  /** `t & 0xFF` is t modulo 256, whose 8-bit reading is t when t fits. */
  lemma MaskByte(t: int)
    ensures BitAnd(t, 0xFF) == t % 0x100
    ensures -0x80 <= t < 0x80 ==> Signed8(t % 0x100) == t
  {
    AndLowMask(t, 8);
    assert Pow2(8) == 0x100 by {
      Pow2Values();
    }
    if -0x80 <= t < 0 {
      DivUnique(t, 0x100, -1, t + 0x100);
    } else if 0 <= t < 0x80 {
      DivUnique(t, 0x100, 0, t);
    }
  }
}
