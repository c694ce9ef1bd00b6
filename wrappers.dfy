/** Null-able values and the exceptions of the generator. */
module Wrappers {

  /** A PHP value that may be `null`. */
  datatype Option<+T> = None | Some(value: T)

  /** The exceptions the modelled PHP code can end in. */
  datatype Error =
    | InvalidArgument(message: string)   // \InvalidArgumentException
    | Fatal(message: string)             // a PHP fatal error (method call on null or false)

  /** The outcome of an operation that may throw. */
  datatype Result<+T> = Ok(value: T) | Err(error: Error)
}
