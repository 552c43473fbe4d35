/** Failure-carrying results for the operations that throw in the C++ library.
    The three error kinds mirror std::invalid_argument, std::logic_error and
    std::runtime_error; the message is the one the library attaches. */
module Wrappers {

  datatype Error =
    | InvalidArgument(msg: string)
    | LogicError(msg: string)
    | RuntimeError(msg: string)

  datatype Result<T> = Ok(value: T) | Err(error: Error)

  /** Result of an operation that returns nothing on success (a `void` member). */
  datatype Outcome = Pass | Fail(error: Error)

  datatype Option<T> = None | Some(value: T)
}
