/** Failure-compatible return types shared by every module of the model.
    Every fatal condition of the program (a panic, an `expect`, or an `Err`
    propagated with `?`) is an `Err` carrying a `Fault` that names it. */
module Wrappers {

  datatype Option<T> = None | Some(value: T) {
    /** The contained value, or `default` for None (Rust's `unwrap_or`). */
    function GetOr(default: T): T {
      match this
      case Some(v) => v
      case None => default
    }
  }

  /** The fatal conditions the modelled code can reach. */
  datatype Fault =
    // Intcode virtual machine
    | InvalidOpcode(code: nat)
    | InvalidParameterMode(digit: nat)
    | AddressOutOfRange(address: int)
    | InvalidJumpAddress(target: int)
    | ParameterCountUnderflow
    | InputUnavailable
    | OutOfFuel
    // amplifiers
    | OutputNotU32(output: int)
    | MissingOutput
    // day 2
    | NoNounVerb
    // day 3
    | EmptySegment
    | InvalidDistance
    | InvalidDirection
    | NoIntersection
    | MissingWire
    // day 6
    | MalformedOrbit
    | MissingObject
    | CyclicOrbitMap
    // day 8
    | ZeroLayerSize
    | DimensionMismatch
    | InvalidColorDigit(digit: nat)
    | NoLayer

  datatype Result<T> = Ok(value: T) | Err(error: Fault)

  /** Unsigned 32-bit values (Rust `u32`). */
  const U32Limit: nat := 0x1_0000_0000
  type u32 = x: nat | x < U32Limit
}
