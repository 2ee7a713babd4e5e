/** Failure-carrying values shared by the modules. */
module Wrappers {

  datatype Option<+T> = None | Some(value: T)

  /** The outcome of a call that may revert; `Err` leaves every piece of state as it was. */
  datatype Result<+T, +E> = Ok(value: T) | Err(error: E)
}
