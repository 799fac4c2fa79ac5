/** Values shared by the accelerometer driver and its SPI framing. */
module Types {

  /** A byte on the SPI bus: the driver's bytes are Python ints in [0, 256). */
  type byte = x: int | 0 <= x < 0x100

  /** An argument of a configuration setter, as `isinstance(v, int)` sees it.
      Python's bool is a subclass of int, so True and False arrive as Int(1) and Int(0). */
  datatype Arg = Int(value: int) | NonInt

  /** The exceptions the driver raises. */
  datatype Error =
    | TypeError                                        // setter argument is not an int
    | ValueError                                       // setter argument is an int outside its domain
    | TransferError(addr: int, received: seq<byte>)    // SPI reply of the wrong length (raised as ValueError)
    | PlacementError(x: real, y: real, z: real)        // calibration: an axis is near neither 0 nor 1 (ValueError)
    | OrientationError(x: real, y: real, z: real)      // calibration: the XOR of the rounded axes is 0 (ValueError)
    | AttributeError                                   // a class attribute that is not defined

  datatype Result<+T> = Ok(value: T) | Err(error: Error)
}
