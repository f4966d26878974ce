/** Failure-carrying values shared by the modules of this project. */
module Wrappers {

  datatype Option<+T> = None | Some(value: T)

  /** The outcome of an operation that either yields a value or reports a message. */
  datatype Result<+T> = Ok(value: T) | Err(message: string)
}
