/** Python's None-or-value and raise-or-return, as datatypes. */
module Outcomes {

  /** A value that may be None. */
  datatype Option<T> = None | Some(value: T)

  /** The exceptions the modelled code can raise or catch. */
  datatype Exception =
    | IndexError    // an out-of-range list index
    | ServiceError  // any exception raised by a remote service or its client library

  /** The result of a Python call: the value it returns or the exception it raises. */
  datatype Result<T> = Ok(value: T) | Raised(error: Exception)
}
