/** The ADXL345 driver object (classes Adxl345 and Adxl345Spi as one class over the SPI bus):
    its configuration fields, its register transactions and the operations built on them. */
module Adxl345 {
  import opened Types
  import opened Bits
  import opened SpiFrame
  import opened Sample
  import opened Config
  import opened Calibration

  // The register map.
  const ADDR_DEV_ID: byte := 0x00
  const ADDR_RATE_BW: byte := 0x2C
  const ADDR_DATA_FORMAT: byte := 0x31
  const ADDR_DATA_X_0: byte := 0x32  // six bytes: X, Y, Z, low byte first
  const ADDR_OFFSET_X: byte := 0x1E
  const ADDR_OFFSET_Y: byte := 0x1F
  const ADDR_OFFSET_Z: byte := 0x20
  const ADDR_POWER_CTL: byte := 0x2D

  /** The check `from_address` makes of the reply to a read of `byteCount` bytes: the count
      must be `byteCount + 1` and must match the data received; the payload is the data
      after the byte clocked in during the header. */
  function ReadReply(addr: byte, byteCount: nat, reply: Reply): (r: Result<seq<byte>>)
    ensures r.Ok? <==> reply.count == byteCount + 1 && |reply.data| == reply.count
    ensures r.Ok? ==> |r.value| == byteCount && r.value == reply.data[1..]
    ensures r.Err? ==> r.error == TransferError(addr, reply.data)
  {
    if reply.count != byteCount + 1 || |reply.data| != reply.count then Err(TransferError(addr, reply.data))
    else Ok(reply.data[1..])
  }

  /** The three writes of `set_offset(x, y, z)` with a working scale factor: X, Y, Z in the order
      of its dict. */
  function OffsetFrames(factor: real, x: real, y: real, z: real): seq<Frame>
    requires factor != 0.0
  {
    [WriteFrame(ADDR_OFFSET_X, Scalar(OffsetByte(x, factor))),
     WriteFrame(ADDR_OFFSET_Y, Scalar(OffsetByte(y, factor))),
     WriteFrame(ADDR_OFFSET_Z, Scalar(OffsetByte(z, factor)))]
  }

  /** `x, y, z = accel[0], accel[1], accel[2]` for the default mask: the three decoded axes. */
  function Reading(code: nat, data: seq<byte>): (r: (real, real, real))
    requires |data| == 6
    ensures r == (Decode(code, data[0], data[1]), Decode(code, data[2], data[3]), Decode(code, data[4], data[5]))
  {
    AccelerationAllAxes(code, data);
    var accel := Acceleration(code, data, 0x7);
    (accel[0], accel[1], accel[2])
  }

  class Accelerometer {
    const bus: SpiBus
    /** The source's `sensitivity_range` field, which holds the range CODE (0..3), not the range. */
    var rangeCode: int
    var dataRateCode: int
    var dataRate: int

    /** The configuration the setters keep: a range code of an accepted range, and a rate code
        and rate that belong to one accepted level. */
    ghost predicate Valid()
      reads this
    {
      0 <= rangeCode <= 3 && ValidLevel(DataRateCode(dataRateCode)) &&
      dataRate == DataRate(DataRateCode(dataRateCode))
    }

    /** The object as `__init__` finds it, before its two setters run; only Create uses it. */
    constructor Attach(bus: SpiBus)
      ensures this.bus == bus && Valid()
      ensures rangeCode == 3 && dataRateCode == 0x0F && dataRate == 3200
    {
      this.bus := bus;
      rangeCode := 3;
      dataRateCode := 0x0F;
      dataRate := 3200;
      new;
      DataRateTable();
    }

    /** `Adxl345.__init__(sensitivity_range=16, data_rate_level=0)`: set the range, then the
        rate; an exception from either is the constructor's exception. */
    static method Create(bus: SpiBus, sensitivityRange: Arg := Int(16), dataRateLevel: Arg := Int(0))
      returns (r: Result<Accelerometer>)
      modifies bus
      ensures r.Ok? ==> fresh(r.value) && r.value.bus == bus && r.value.Valid()
      ensures CheckRange(sensitivityRange).Err? ==>
        r == Err(CheckRange(sensitivityRange).error) && bus.sent == old(bus.sent)
      ensures CheckRange(sensitivityRange).Ok? ==>
        var code := CheckRange(sensitivityRange).value;
        var query := ReadFrame(ADDR_DATA_FORMAT, 1);
        match ReadReply(ADDR_DATA_FORMAT, 1, bus.device(old(bus.sent), query))
        case Err(e) => r == Err(e) && bus.sent == old(bus.sent) + [query]
        case Ok(data) =>
          var formatted := old(bus.sent) + [query, WriteFrame(ADDR_DATA_FORMAT, Scalar(FormatByte(data[0], code)))];
          if dataRateLevel.NonInt? then r == Err(TypeError) && bus.sent == formatted
          else if !(0 <= dataRateLevel.value <= 16) then r == Err(ValueError) && bus.sent == formatted
          else
            var level := dataRateLevel.value;
            r.Ok? && FullScale(r.value.rangeCode) == sensitivityRange.value &&
            r.value.dataRateCode + level == 15 && r.value.dataRate == DataRate(level) &&
            bus.sent == formatted + [WriteFrame(ADDR_RATE_BW, Scalar(15 - level))]
    {
      var dev := new Accelerometer.Attach(bus);
      var done := dev.SetSensitivityRange(sensitivityRange);
      if done.Err? {
        return Err(done.error);
      }
      done := dev.SetDataRateLevel(dataRateLevel);
      if done.Err? {
        return Err(done.error);
      }
      return Ok(dev);
    }

    /** `from_address(addr, byte_count)`: one transfer of the read header and `byte_count`
        fillers, then the reply's check. */
    method FromAddress(addr: byte, byteCount: nat) returns (r: Result<seq<byte>>)
      modifies bus
      ensures bus.sent == old(bus.sent) + [ReadFrame(addr, byteCount)]
      ensures r == ReadReply(addr, byteCount, bus.device(old(bus.sent), ReadFrame(addr, byteCount)))
    {
      var msg := [ReadHeader(addr, byteCount)];
      msg := msg + seq(byteCount, _ => FILLER as int);
      var reply := bus.Xfer(msg);
      if reply.count != byteCount + 1 || |reply.data| != reply.count {
        return Err(TransferError(addr, reply.data));
      }
      return Ok(reply.data[1..]);
    }

    /** `to_address(addr, values)`: one transfer of the write header and the values; the
        reply is not looked at. */
    method ToAddress(addr: byte, values: Payload)
      modifies bus
      ensures bus.sent == old(bus.sent) + [WriteFrame(addr, values)]
    {
      var dataValues := Values(values);
      var msg := [WriteHeader(addr, |dataValues|)];
      msg := msg + dataValues;
      var ignored := bus.Xfer(msg);
    }

    /** `set_sensitivity_range(sensitivity_range)`: check the argument, store the code, then
        read DATA_FORMAT and write it back with the new code and the full-resolution flag.
        The code is stored before the read, so a failed read leaves it changed. */
    method SetSensitivityRange(sensitivityRange: Arg) returns (r: Result<()>)
      requires Valid()
      modifies this, bus
      ensures Valid()
      ensures dataRateCode == old(dataRateCode) && dataRate == old(dataRate)
      ensures CheckRange(sensitivityRange).Err? ==>
        r == Err(CheckRange(sensitivityRange).error) && rangeCode == old(rangeCode) && bus.sent == old(bus.sent)
      ensures CheckRange(sensitivityRange).Ok? ==>
        rangeCode == CheckRange(sensitivityRange).value &&
        var query := ReadFrame(ADDR_DATA_FORMAT, 1);
        match ReadReply(ADDR_DATA_FORMAT, 1, bus.device(old(bus.sent), query))
        case Err(e) => r == Err(e) && bus.sent == old(bus.sent) + [query]
        case Ok(data) =>
          r == Ok(()) &&
          bus.sent == old(bus.sent) + [query, WriteFrame(ADDR_DATA_FORMAT, Scalar(FormatByte(data[0], rangeCode)))]
    {
      var checked := CheckRange(sensitivityRange);
      if checked.Err? {
        return Err(checked.error);
      }
      rangeCode := checked.value;
      var current := FromAddress(ADDR_DATA_FORMAT, 1);
      if current.Err? {
        return Err(current.error);
      }
      var data := FormatByte(current.value[0], rangeCode);
      ToAddress(ADDR_DATA_FORMAT, Scalar(data));
      return Ok(());
    }

    /** `set_data_rate_level(data_rate_level)`: check the argument, store the rate code
        `15 - level` and the rate `3200 // 2^level`, and write the code to BW_RATE. */
    method SetDataRateLevel(dataRateLevel: Arg) returns (r: Result<()>)
      requires Valid()
      modifies this, bus
      ensures Valid()
      ensures rangeCode == old(rangeCode)
      ensures dataRateLevel.NonInt? ==>
        r == Err(TypeError) && bus.sent == old(bus.sent) &&
        dataRateCode == old(dataRateCode) && dataRate == old(dataRate)
      ensures dataRateLevel.Int? && !(0 <= dataRateLevel.value <= 16) ==>
        r == Err(ValueError) && bus.sent == old(bus.sent) &&
        dataRateCode == old(dataRateCode) && dataRate == old(dataRate)
      ensures dataRateLevel.Int? && 0 <= dataRateLevel.value <= 16 ==>
        var level := dataRateLevel.value;
        r == Ok(()) && dataRateCode + level == 15 && dataRate == DataRate(level) &&
        bus.sent == old(bus.sent) + [WriteFrame(ADDR_RATE_BW, Scalar(15 - level))]
    {
      var checked := CheckLevel(dataRateLevel);
      if checked.Err? {
        return Err(checked.error);
      }
      var level := checked.value;
      dataRateCode := DataRateCode(level);
      dataRate := DataRate(level);
      ToAddress(ADDR_RATE_BW, Scalar(dataRateCode));
      return Ok(());
    }

    /** `set_on`: start measuring. */
    method SetOn()
      modifies bus
      ensures bus.sent == old(bus.sent) + [[0x2D, 0x08]]
    {
      RegisterHeaders(ADDR_POWER_CTL, 0, 1);
      WriteFrameShape(ADDR_POWER_CTL, Scalar(0x08));
      ToAddress(ADDR_POWER_CTL, Scalar(0x08));
    }

    /** `set_off`: standby. */
    method SetOff()
      modifies bus
      ensures bus.sent == old(bus.sent) + [[0x2D, 0x00]]
    {
      RegisterHeaders(ADDR_POWER_CTL, 0, 1);
      WriteFrameShape(ADDR_POWER_CTL, Scalar(0x00));
      ToAddress(ADDR_POWER_CTL, Scalar(0x00));
    }

    /** `set_offset(x, y, z)` as written: the first offset it computes reads
        Adxl345.FACTOR_HIGH_RES, which no class defines, so it raises AttributeError before
        anything is sent. */
    method SetOffset(x: real, y: real, z: real) returns (r: Result<()>)
      ensures r == Err(AttributeError)
    {
      r := Err(AttributeError);
    }

    /** `calibrate(margin=0.1)` as written: its first step, `set_offset(0, 0, 0)`, raises, so it
        never reads the sensor and never sends anything. */
    method Calibrate(margin: real := 0.1) returns (r: Result<Correction>)
      ensures r == Err(AttributeError)
    {
      var zeroed := SetOffset(0.0, 0.0, 0.0);
      r := Err(zeroed.error);
    }

    /** `set_offset(x, y, z)` with the scale factor given: each offset, in g, becomes
        `int(v / factor / 4) & 0xFF` and is written to its register. */
    method SetOffsetWith(factor: real, x: real, y: real, z: real)
      requires factor != 0.0
      modifies bus
      ensures bus.sent == old(bus.sent) + OffsetFrames(factor, x, y, z)
    {
      ToAddress(ADDR_OFFSET_X, Scalar(OffsetByte(x, factor)));
      ToAddress(ADDR_OFFSET_Y, Scalar(OffsetByte(y, factor)));
      ToAddress(ADDR_OFFSET_Z, Scalar(OffsetByte(z, factor)));
    }

    /** `accel = self.get_acceleration(); x, y, z = accel[0], accel[1], accel[2]`. */
    method ReadAxes() returns (r: Result<(real, real, real)>)
      requires Valid()
      modifies bus
      ensures bus.sent == old(bus.sent) + [ReadFrame(ADDR_DATA_X_0, 6)]
      ensures match ReadReply(ADDR_DATA_X_0, 6, bus.device(old(bus.sent), ReadFrame(ADDR_DATA_X_0, 6)))
        case Err(e) => r == Err(e)
        case Ok(data) => r == Ok(Reading(rangeCode, data))
    {
      var accel := GetAcceleration();
      if accel.Err? {
        return Err(accel.error);
      }
      ghost var data := ReadReply(ADDR_DATA_X_0, 6, bus.device(old(bus.sent), ReadFrame(ADDR_DATA_X_0, 6))).value;
      assert accel.value == Acceleration(rangeCode, data, 0x7);
      AccelerationAllAxes(rangeCode, data);
      return Ok((accel.value[0], accel.value[1], accel.value[2]));
    }

    /** `calibrate(margin)` with the scale factor given and the single-axis orientation check:
        clear the offsets, read the three axes, check them, and write the corrections. */
    method CalibrateWith(factor: real, margin: real := 0.1) returns (r: Result<Correction>)
      requires Valid() && factor != 0.0
      modifies bus
      ensures var zeroed := old(bus.sent) + OffsetFrames(factor, 0.0, 0.0, 0.0);
        var query := ReadFrame(ADDR_DATA_X_0, 6);
        match ReadReply(ADDR_DATA_X_0, 6, bus.device(zeroed, query))
        case Err(e) => r == Err(e) && bus.sent == zeroed + [query]
        case Ok(data) =>
          var (x, y, z) := Reading(rangeCode, data);
          r == CheckReadingSingleAxis(x, y, z, margin) &&
          bus.sent == zeroed + [query] +
            (if r.Ok? then OffsetFrames(factor, r.value.dx, r.value.dy, r.value.dz) else [])
    {
      SetOffsetWith(factor, 0.0, 0.0, 0.0);
      var accel := ReadAxes();
      if accel.Err? {
        return Err(accel.error);
      }
      var (x, y, z) := accel.value;
      r := CheckReadingSingleAxis(x, y, z, margin);
      if r.Ok? {
        SetOffsetWith(factor, r.value.dx, r.value.dy, r.value.dz);
      }
    }

    /** `get_acceleration(axis=0b111)`: one six-byte read from DATA_X0, then the decoded
        values of the axes the mask selects, in X, Y, Z order. */
    method GetAcceleration(axis: int := 0x7) returns (r: Result<seq<real>>)
      requires Valid()
      modifies bus
      ensures bus.sent == old(bus.sent) + [ReadFrame(ADDR_DATA_X_0, 6)]
      ensures match ReadReply(ADDR_DATA_X_0, 6, bus.device(old(bus.sent), ReadFrame(ADDR_DATA_X_0, 6)))
        case Err(e) => r == Err(e)
        case Ok(data) => r == Ok(Acceleration(rangeCode, data, axis))
      ensures r.Ok? ==> |r.value| == Popcount(axis % 8)
    {
      var data := FromAddress(ADDR_DATA_X_0, 6);
      if data.Err? {
        return Err(data.error);
      }
      AccelerationSpec(rangeCode, data.value, axis);
      return Ok(Acceleration(rangeCode, data.value, axis));
    }
  }
}
