/** Stand-ins for a pointer that may be null and for an operation that may
    throw: a null `MimeCategory *` is `None`, and a `CHECK_PTR` failure is
    `NullPointerError`. */
module Wrappers {

  datatype Option<+T> = None | Some(value: T)

  /** Outcome of an operation that first checks its pointer argument. */
  datatype Result<+T> = Ok(value: T) | NullPointerError
}
