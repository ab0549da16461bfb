/** Failure-carrying results shared by the subscription and the bus.
    The library reports failures by throwing; here each throw becomes a
    `Failure`/`Fail` value carrying the exception kind it stands for. */
module Errors {

  datatype Option<+T> = None | Some(value: T)

  /** The two exception kinds the library throws. */
  datatype Error =
    | ArgumentNull(paramName: string)     // ArgumentNullException(nameof(param))
    | InvalidOperation(message: string)   // InvalidOperationException(message)

  /** A value-returning operation that may throw. */
  datatype Result<+T> = Success(value: T) | Failure(error: Error)

  /** A void operation that may throw. */
  datatype Outcome = Pass | Fail(error: Error)
}
