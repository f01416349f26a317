/** Small types shared by every module. */
module Wrappers {

  type Byte = n: nat | n < 256

  datatype Option<+T> = None | Some(value: T) {
    function GetOr(default: T): T
    {
      match this
      case Some(v) => v
      case None => default
    }
  }

  /** `Err` carries what the source reports: a unit, a message name or a typed error. */
  datatype Result<+T, +E> = Ok(value: T) | Err(error: E)
}
