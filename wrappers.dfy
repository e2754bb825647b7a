/** Failure-carrying results and the Python exceptions the modelled code raises. */
module Wrappers {

  datatype Option<+T> = None | Some(value: T)

  datatype Result<+T, +E> = Success(value: T) | Failure(error: E)

  /** A Python exception, by class, with the message the source passes to it. */
  datatype PyError =
    | TypeError(msg: string)
    | ValueError(msg: string)
    | IndexError(msg: string)
    | FileNotFoundError(msg: string)
    | OSError(msg: string)
    | RuntimeError(msg: string)
    | TclError(msg: string)
    | OtherError(msg: string)
}
