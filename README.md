# ADXL345 accelerometer driver and PWM LED, in Dafny

This project models two parts of the `odcsensor` Python package.

- The ADXL345 three-axis accelerometer driver (`movement.py`):
  - the SPI framing of register reads and writes (`Adxl345Spi.from_address` and `to_address`);
  - the configuration setters (`set_sensitivity_range`, `set_data_rate_level`, `set_on`, `set_off`);
  - the decoding of the output registers (`decode`, `get_acceleration`);
  - the reading checks and the corrections of `calibrate`, and the offset writes of `set_offset`.
- The duty-cycle state of the PWM-driven `LED` class (`led.py`).

Modules, one per file:

| module | file | what it holds |
|---|---|---|
| `Types` | types.dfy | `byte`, the setter argument `Arg`, the driver's exceptions `Error`, `Result` |
| `Bits` | bits.dfy | Python's bitwise or, `&`, `^`, `~`, `<<` and bit tests on unbounded two's-complement ints, with the identities the driver's expressions need |
| `SpiFrame` | spi_frame.dfy | read and write headers and frames, the chip's reading of a header byte, and the SPI transfer as an oracle class `SpiBus` |
| `Sample` | sample.dfy | `decode` and the axis comprehension of `get_acceleration` |
| `Config` | config.dfy | argument checks, range codes, the DATA_FORMAT byte, rate codes and rates |
| `Calibration` | calibration.dfy | the checks and corrections of `calibrate`, and the offset-byte arithmetic of `set_offset` |
| `Adxl345` | adxl345.dfy | class `Accelerometer`: `Adxl345` and `Adxl345Spi` as one object whose methods send frames on a `SpiBus` |
| `Led` | led.dfy | class `Led` with its duty cycle and frequency |

How the model is built:

- `pigpio`'s `spi_xfer` is a function value held by `SpiBus`. It takes every frame sent so far and the new frame, and gives the reply `(count, data)`.
  - `SpiBus.sent` logs the frames in order.
  - Each driver method states exactly which frames it appends to that log. When it reads, it also states what it returns for every possible reply.
- Python ints are unbounded ints. The bit operators are defined bit by bit on two's complement, so `~0x0F`, negative masks and the code -1 written at data-rate level 16 behave as in Python.
- Python floats are Dafny `real`s.
  - `decode` gives dyadic rationals, so the reals are exact there.
  - `round` is ties-to-even and `int()` truncates toward zero, both written out.
- A setter argument is an `Arg`: an int or something else. Python's `True` and `False` are the ints 1 and 0 there, as `isinstance(v, int)` sees them.
- Exceptions are `Err` values of a `Result`. An exception raised inside a call propagates as the same `Err`.

Behaviour of the code a reader might not expect:

- The read header does not mask the address to six bits (`lib/python3/odcsensor/movement.py:123`). `ADDR_SELECT_MASK` is defined at `lib/python3/odcsensor/movement.py:109` but never used, so bit 6 of an address reaches the header (`SpiFrame.UnmaskedAddressCollides`). Every register the driver uses lies below 0x40 (`lib/python3/odcsensor/movement.py:10-17`), so this never shows in its own calls (`SpiFrame.RegisterHeaders`).
- `get_acceleration(axis)` tests only bits 0-2 of the mask (`lib/python3/odcsensor/movement.py:100-101`). It returns popcount(`axis & 0b111`) values, and higher mask bits are ignored.
- `set_sensitivity_range` stores the new range code (`lib/python3/odcsensor/movement.py:38`) before it reads DATA_FORMAT (`lib/python3/odcsensor/movement.py:39`). A failed read therefore leaves the new code stored, and the rate fields untouched.
- The field named `sensitivity_range` holds the range code 0..3, not the range in g (`lib/python3/odcsensor/movement.py:38`).
- The orientation check of `calibrate` is an XOR of the rounded axes (`lib/python3/odcsensor/movement.py:83`). Its error message asks for "only one value 1" (`lib/python3/odcsensor/movement.py:85-87`), which the XOR does not enforce (Findings).
- `calibrate` never reaches its offset writes, because `set_offset` reads an undefined class attribute (`lib/python3/odcsensor/movement.py:62`, `lib/python3/odcsensor/movement.py:72`; Findings).
- `data_rate` is `int(3200/(2**(data_rate_level)))` (`lib/python3/odcsensor/movement.py:50`), the floor: 0 Hz from level 12 on.

## Model

| member | source | states |
|---|---|---|
| SpiFrame.ReadHeaderValue | lib/python3/odcsensor/movement.py:122-124 | the read header is the byte 0x40 * (2 + multi) + addr % 0x40; multi is set by more than one byte or by bit 6 of the address |
| SpiFrame.WriteHeaderValue | lib/python3/odcsensor/movement.py:140-142 | the write header keeps the address's bit 7 and bits 5-0; multi is set by more than one value or by bit 6 of the address |
| SpiFrame.ReadHeaderFields | lib/python3/odcsensor/movement.py:122-124 | every read header is a byte with the read flag set and the address's register field; multi-byte flag iff byte_count > 1 or address bit 6 |
| SpiFrame.WriteHeaderFields | lib/python3/odcsensor/movement.py:140-142 | every write header is a byte whose read flag is the address's bit 7 and whose register field is the address's; multi-byte flag iff more than one value or address bit 6 |
| SpiFrame.RegisterHeaders | lib/python3/odcsensor/movement.py:107-124 | for register addresses below 0x40 the read header is 0x80 + (0x40 iff n > 1) + addr, the write header (0x40 iff more than one value) + addr; the chip reads back register, direction and multi flag exactly |
| SpiFrame.UnmaskedAddressCollides | lib/python3/odcsensor/movement.py:109-124 | with ADDR_SELECT_MASK unused, a one-byte read of an address in [0x40, 0x80) sends the same header as a multi-byte read of the address 0x40 lower |
| SpiFrame.ReadFrameShape | lib/python3/odcsensor/movement.py:121-129 | a read frame has length byte_count + 1: the header, then byte_count fillers 0xFF |
| SpiFrame.WriteFrameShape | lib/python3/odcsensor/movement.py:138-143 | a write frame is the header followed by the payload verbatim; a scalar v gives exactly [header(addr, 1), v] |
| SpiFrame.SpiBus.Xfer | lib/python3/odcsensor/movement.py:130 | one transfer logs its frame and returns the oracle's reply to it, given the frames sent before |
| Adxl345.ReadReply | lib/python3/odcsensor/movement.py:130-136 | a reply is accepted iff its count is byte_count + 1 and equals the data length; then the result is data[1:], of length byte_count; otherwise the error carries the address and the data |
| Adxl345.Accelerometer.FromAddress | lib/python3/odcsensor/movement.py:121-136 | sends exactly the read frame and returns the checked reply |
| Adxl345.Accelerometer.ToAddress | lib/python3/odcsensor/movement.py:138-144 | sends exactly the write frame of the payload and nothing else |
| Sample.RawIsShiftOr | lib/python3/odcsensor/movement.py:27 | the shift-or of msb and lsb is msb * 256 + lsb, in [0, 65535] |
| Sample.DecodeRawAsWritten | lib/python3/odcsensor/movement.py:29 | the test `accl & (1 << 15)` is bit 15 of the count, for every int |
| Sample.DecodeAsWritten | lib/python3/odcsensor/movement.py:26-30 | decode, with the shift-or and the mask test on Python ints as written, equals the model's Decode |
| Sample.LsbSizeValue | lib/python3/odcsensor/movement.py:28 | one count is 2^(code+2) / 8192, and positive |
| Sample.Signed | lib/python3/odcsensor/movement.py:29 | the signed 16-bit count of a register pair lies in [-32768, 32768) and is negative iff msb >= 0x80 |
| Sample.SignBit | lib/python3/odcsensor/movement.py:29 | bit 15 of a 16-bit count is set iff the count is at least 32768 |
| Sample.DecodeValue | lib/python3/odcsensor/movement.py:26-30 | decode is the signed two's-complement count times 2^(code+2) / 8192 |
| Sample.DecodeSign | lib/python3/odcsensor/movement.py:26-30 | a decoded value is negative iff msb >= 0x80 |
| Sample.FullScaleCounts | lib/python3/odcsensor/movement.py:28 | 32768 counts are 2^(code+4) g |
| Sample.DecodeBound | lib/python3/odcsensor/movement.py:26-30 | every decoded value lies in [-2^(code+4), 2^(code+4)) |
| Sample.DecodeExamples | lib/python3/odcsensor/movement.py:26-30 | at code 3, (0xFF, 0x7F) decodes to 32767/256 and (0x00, 0x80) to -128 |
| Sample.EncodeThenSigned | lib/python3/odcsensor/movement.py:26-30 | the register pair of any signed 16-bit count reads back as that count |
| Sample.EncodeThenDecode | lib/python3/odcsensor/movement.py:26-30 | encoding a count and decoding the pair gives the count times the count size |
| Sample.DecodeThenEncode | lib/python3/odcsensor/movement.py:26-30 | every register pair is the encoding of its own signed count |
| Sample.LowBits | lib/python3/odcsensor/movement.py:101 | bits 0-2 of any int mask, negative included, are those of mask % 8 |
| Sample.RankPopcount | lib/python3/odcsensor/movement.py:101 | the number of axes the mask selects is popcount(axis & 0b111) |
| Sample.AxesFromLength | lib/python3/odcsensor/movement.py:98-102 | the comprehension from byte offset idx yields one value per selected axis at or after idx / 2 |
| Sample.AxesFromAt | lib/python3/odcsensor/movement.py:98-102 | the value of each selected axis i decodes bytes 2i and 2i+1, at the position counting the selected axes before it |
| Sample.RankMonotonic | lib/python3/odcsensor/movement.py:101 | counting selected axes over a longer prefix never gives fewer |
| Sample.AccelerationSpec | lib/python3/odcsensor/movement.py:95-102 | get_acceleration's list has popcount(axis & 0b111) elements, in X, Y, Z order, the one for axis i decoding bytes 2i and 2i+1 |
| Sample.AccelerationIgnoresHighBits | lib/python3/odcsensor/movement.py:101 | the result for mask m equals the result for m % 8 |
| Sample.AccelerationAllAxes | lib/python3/odcsensor/movement.py:95-102 | the default mask 0b111 yields exactly the X, Y and Z values |
| Adxl345.Accelerometer.GetAcceleration | lib/python3/odcsensor/movement.py:95-102 | sends one 6-byte read of 0x32 and nothing else; a bad reply is its error; otherwise the decoded selected axes, popcount(axis % 8) of them |
| Adxl345.Reading | lib/python3/odcsensor/movement.py:74-75 | `accel[0], accel[1], accel[2]` of the default read are the decoded X, Y and Z pairs |
| Adxl345.Accelerometer.ReadAxes | lib/python3/odcsensor/movement.py:74-75 | one 6-byte read of 0x32; a bad reply is its error, otherwise the three decoded axes |
| Config.CheckRange | lib/python3/odcsensor/movement.py:32-38 | TypeError for a non-int, ValueError for an int outside {2, 4, 8, 16}, otherwise a code in 0..3 whose full scale is the argument |
| Config.RangeCodeInverse | lib/python3/odcsensor/movement.py:38 | int(log2(r)) - 1 maps 2, 4, 8, 16 to 0, 1, 2, 3, and the code's full scale is r again |
| Config.FullScaleInverse | lib/python3/odcsensor/movement.py:36-38 | each code 0..3 is the code of exactly one accepted range |
| Config.CountSizeOfRange | lib/python3/odcsensor/movement.py:28 | with the code of range r, one decoded count is r / 4096 g |
| Config.ClearLowNibble | lib/python3/odcsensor/movement.py:39 | `x & ~0x0F` is x rounded down to a multiple of 16 |
| Config.SetFlag | lib/python3/odcsensor/movement.py:39 | or-ing 0x08 into 16q + code, with code below 4, adds 8 |
| Config.FormatByteValue | lib/python3/odcsensor/movement.py:39 | the DATA_FORMAT expression, with Python's precedence (`&` before or), is (data // 16) * 16 + 8 + code |
| Config.FormatByteSpec | lib/python3/odcsensor/movement.py:39 | the byte written back keeps the upper nibble of the byte read, and its low nibble is 0x08 + code |
| Config.FormatByteIdempotent | lib/python3/odcsensor/movement.py:39-40 | the byte written is a byte, and rewriting it with the same code leaves it unchanged |
| Adxl345.Accelerometer.SetSensitivityRange | lib/python3/odcsensor/movement.py:32-40 | a rejected argument is its error, with no field change and no traffic; otherwise the code is stored, DATA_FORMAT is read once, and a bad reply is the error after that read; otherwise the format byte is written once; the rate fields never change |
| Config.DataRateFloor | lib/python3/odcsensor/movement.py:50 | the rate is the largest integer not above 3200 / 2^level |
| Config.DataRateZero | lib/python3/odcsensor/movement.py:50 | the rate is 0 iff the level is 12 or more |
| Config.DataRateHalves | lib/python3/odcsensor/movement.py:50 | each level halves the previous level's rate, rounding down |
| Config.DataRateTable | lib/python3/odcsensor/movement.py:50 | levels 0, 1, 4, 8, 10, 11 give 3200, 1600, 200, 12, 3, 1 Hz |
| Adxl345.Accelerometer.SetDataRateLevel | lib/python3/odcsensor/movement.py:42-51 | TypeError for a non-int and ValueError for an int outside [0, 16], each with no field change and no traffic; otherwise rate code + level == 15, the floor rate is stored, and exactly one write of 15 - level to 0x2C is sent; the range code never changes |
| Adxl345.Accelerometer.Attach | lib/python3/odcsensor/movement.py:19-20 | the object before its setters run: a range code, rate code and rate that belong together |
| Adxl345.Accelerometer.Create | lib/python3/odcsensor/movement.py:19-24 | a rejected range is its error, with nothing sent; otherwise the DATA_FORMAT read is sent, and a bad reply is the error; otherwise the format byte is written, and a non-int or out-of-range level gives TypeError or ValueError after that write; otherwise the object's full scale is the range, code + level == 15, the rate is the level's, and the rate code is written to 0x2C last |
| Adxl345.Accelerometer.SetOn | lib/python3/odcsensor/movement.py:65-66 | sends exactly [0x2D, 0x08] |
| Adxl345.Accelerometer.SetOff | lib/python3/odcsensor/movement.py:68-69 | sends exactly [0x2D, 0x00] |
| Adxl345.Accelerometer.SetOffset | lib/python3/odcsensor/movement.py:53-63 | as written, raises AttributeError (Adxl345.FACTOR_HIGH_RES is undefined) before any write |
| Calibration.TruncSpec | lib/python3/odcsensor/movement.py:62 | `int()` lies between 0 and its argument, less than 1 away |
| Calibration.MaskByte | lib/python3/odcsensor/movement.py:62 | `t & 0xFF` is t mod 256, whose 8-bit two's-complement reading is t when t fits |
| Calibration.OffsetByteSpec | lib/python3/odcsensor/movement.py:62 | the offset written is a byte, the truncated count mod 256; counts in -128..127 read back as themselves; a zero correction writes 0 |
| Adxl345.Accelerometer.SetOffsetWith | lib/python3/odcsensor/movement.py:53-63 | with a scale factor given, sends the three offset bytes to 0x1E, 0x1F, 0x20, in that order |
| Calibration.RoundNearest | lib/python3/odcsensor/movement.py:90 | round lands within 0.5 of its argument and leaves integers alone |
| Calibration.RoundNearRest | lib/python3/odcsensor/movement.py:76-83 | for a margin up to 0.5, an axis that passes the first check rounds to 0 if near 0 g, else to its sign, and lies within the margin of that |
| Calibration.XorZero | lib/python3/odcsensor/movement.py:83 | for values in {-1, 0, 1} the XOR of three is 0 iff one is 0 and the other two are equal |
| Calibration.CheckReadingAccepts | lib/python3/odcsensor/movement.py:76-88 | a reading passes both checks iff every axis is near 0 or 1 g and no axis rounds to 0 while the other two round equal |
| Calibration.CheckReadingExamples | lib/python3/odcsensor/movement.py:76-92 | (0.02, -0.01, 0.99) is corrected by (-0.02, 0.01, 0.01); (0.5, 0.5, 0.5) fails the first check |
| Calibration.CorrectionsSnap | lib/python3/odcsensor/movement.py:89-92 | each correction of an accepted reading is below the margin and moves its axis exactly onto -1, 0 or 1 g |
| Calibration.SnapAxis | lib/python3/odcsensor/movement.py:89-92 | a corrected axis still passes the first check and rounds the same |
| Calibration.CalibrationConverges | lib/python3/odcsensor/movement.py:76-92 | checking the corrected reading accepts it with corrections (0, 0, 0) |
| Calibration.XorAcceptsSeveralAxes | lib/python3/odcsensor/movement.py:83-88 | the XOR check accepts (1, -1, 0) and (1, 1, 1) |
| Calibration.SingleAxisSpec | lib/python3/odcsensor/movement.py:83-88 | the single-axis check accepts iff every axis is near 0 or 1 g and exactly one is near 1 g; what it accepts the XOR check accepts with the same corrections |
| Calibration.SingleAxisRejectsSeveral | lib/python3/odcsensor/movement.py:83-88 | the single-axis check rejects (1, -1, 0) and (1, 1, 1) |
| Adxl345.Accelerometer.Calibrate | lib/python3/odcsensor/movement.py:71-72 | as written, raises AttributeError at its first step and sends nothing |
| Adxl345.Accelerometer.CalibrateWith | lib/python3/odcsensor/movement.py:71-93 | writes zero offsets, reads the axes once, then gives the read error, or the check's verdict on the reading; an accepted reading's corrections are written as offsets, nothing is written after a rejection |
| Bits.MaskTest | lib/python3/odcsensor/movement.py:29 | `x & (1 << i)` is nonzero iff bit i of x is set, for every int |
| Bits.BitSetDiv | lib/python3/odcsensor/movement.py:101 | bit i of x is the parity of x // 2^i |
| Bits.OrDisjoint | lib/python3/odcsensor/movement.py:27 | or-ing a value below 2^k into a multiple of 2^k adds it |
| Bits.AndLowMask | lib/python3/odcsensor/movement.py:62 | `x & (2^k - 1)` is x mod 2^k, for negative x too |
| Bits.Split | lib/python3/odcsensor/movement.py:39 | an or or an and works on the bits above and below 2^k separately |
| Bits.Identities | lib/python3/odcsensor/movement.py:39 | or or xor with 0 and and with -1 change nothing; and with 0 gives 0 |
| Bits.Commutes | lib/python3/odcsensor/movement.py:83 | bitwise or, `&` and `^` are symmetric |
| Led.Clamp | lib/python3/odcsensor/led.py:44 | `min(100, max(d, 0))` lies in [0, 100] and is d when d already does |
| Led.ClampNearest | lib/python3/odcsensor/led.py:44 | the clamp is the point of [0, 100] nearest the request |
| Led.ClampIdempotent | lib/python3/odcsensor/led.py:44 | clamping twice is clamping once |
| Led.ClampMonotonic | lib/python3/odcsensor/led.py:44 | clamping keeps the order of requests |
| Led.StoredDuty | lib/python3/odcsensor/led.py:44-45 | the stored duty lies in [0, 100] |
| Led.InverseComplements | lib/python3/odcsensor/led.py:45 | an inverse LED stores 100 minus what a plain LED stores |
| Led.StoredBrightness | lib/python3/odcsensor/led.py:40-46 | under either wiring the LED shines at the clamped request |
| Led.Led.constructor | lib/python3/odcsensor/led.py:14-26 | pin, frequency (default 2000) and inversion are stored; the duty is 0, or 100 when inverse, so the LED is dark |
| Led.Led.SetFreq | lib/python3/odcsensor/led.py:34-39 | only the frequency changes; the duty, and with it the [0, 100] invariant, is kept |
| Led.Led.SetDutyCycle | lib/python3/odcsensor/led.py:40-46 | stores the clamped duty, complemented when inverse; the duty stays in [0, 100], the LED shows the clamped request, the frequency is unchanged |
| Led.Led.SetOn | lib/python3/odcsensor/led.py:49-54 | duty 100, or 0 when inverse; the LED is fully lit |
| Led.Led.SetOff | lib/python3/odcsensor/led.py:55-60 | duty 0, or 100 when inverse; the LED is dark |

## Left out

- pigpio resource handling (`pigpio.pi()`, `spi_open` in `Adxl345Spi.__init__`, `stop`): this is I/O. The channel, mode and baud-rate fields are not modelled, and the bus is passed to the object instead.
- `spi_xfer`: it is an oracle that may answer any frame in any way. The chip's register file is not modelled, so no property depends on what the chip answers.
- `Adxl345I2C`: an empty placeholder class with no behaviour of its own.
- `main` in `movement.py` and `class_test` in `led.py`: demo loops made of `sleep` and `print`.
- `switch.py`: GPIO edge callbacks run by the RPi.GPIO library, plus printing.
- The GPIO and PWM calls of `led.py` (`GPIO.setup`, `GPIO.output`, `PWM.start`, `ChangeFrequency`, `ChangeDutyCycle`, `stop`) and `LED.__del__`: hardware I/O. Only the fields are modelled, so the pin level written by `set_on` and `set_off` is not.
- Floating point: floats are reals. `decode` and the `2**level` quotient are exact in binary floating point, but the subtraction `round(v) - v` and the divisions in `set_offset` round in Python and not here.
- Adxl345.Accelerometer.SetOffsetWith: the scale factor is a parameter, because the source never defines `FACTOR_HIGH_RES`.
- Adxl345.Accelerometer.CalibrateWith: takes the same factor parameter. It uses the single-axis orientation check (Findings) and not the XOR check.
- `set_data_rate_level(16)` writes the code -1. The model sends -1 as the frame element, and how pigpio packs a negative value into a byte is not modelled.
- Calibration.RoundNearRest and the lemmas built on it assume a margin of at most 0.5. Above that, the two windows of the first check overlap and the statements about which value an axis rounds to no longer hold. `CheckReading` itself accepts any margin.

## Findings

| source | as written | input that shows it | evidently intended | confidence | as-written member | corrected member |
|---|---|---|---|---|---|---|
| lib/python3/odcsensor/movement.py:83-88 | the orientation check rejects a reading only when `round(x) ^ round(y) ^ round(z)` is 0 | `calibrate()` reading (1.0, -1.0, 0.0) or (1.0, 1.0, 1.0) with margin 0.1 passes, and offsets would be computed | exactly one axis near 1 g, as the error message asks | not executed | Calibration.XorAcceptsSeveralAxes | Calibration.SingleAxisSpec |
| lib/python3/odcsensor/movement.py:62 | `set_offset` divides by `Adxl345.FACTOR_HIGH_RES`, which no class defines | `set_offset(0, 0, 0)`, the first step of every `calibrate()`, raises AttributeError | convert each correction with the offset register's scale and write it | not executed | Adxl345.Accelerometer.Calibrate | Adxl345.Accelerometer.CalibrateWith |
