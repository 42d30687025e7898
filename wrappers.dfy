/** Failure-carrying results shared by every service model: a Java method that
    either returns a value or throws a RuntimeException with a message. */
module Wrappers {

  datatype Option<+T> = None | Some(value: T)

  /** The value the Java method returns, or the message of the exception it throws. */
  datatype Result<+T> = Ok(value: T) | Err(message: string)

  /** The outcome of a Java method returning void: normal return, or an exception message. */
  datatype Outcome = Pass | Fail(message: string)
}
