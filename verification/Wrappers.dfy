/** Results, options and bytes, shared by every component. */
module Wrappers {

  datatype Option<+T> = None | Some(value: T)

  /** `Success` carries what an operation computed, `Failure` the rule its input broke. */
  datatype Result<+T, +E> = Success(value: T) | Failure(error: E)

  type Byte = b: nat | b < 256
}
