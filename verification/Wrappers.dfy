/** Datatypes and small definitions shared by the whole project. */
module Wrappers {

  datatype Option<+T> = None | Some(value: T)

  /** The source's exceptions become `Err`, its return values `Ok`. */
  datatype Result<+T, +E> = Ok(value: T) | Err(error: E)

  /** Time in seconds. */
  type Instant = real

  function Max(a: nat, b: nat): nat {
    if a < b then b else a
  }
}
