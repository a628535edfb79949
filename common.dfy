/** Value types shared by the crawler models: optional values, the exceptions the
    crawlers throw, and the pass/fail result of an operation that may throw. */
module Common {

  /** A Java reference that may be null, or an optional value. */
  datatype Option<+T> = None | Some(value: T)

  /** The unchecked exceptions thrown by the modelled code (Apache Commons `Validate`
      and the crawlers' own guards), with their messages. */
  datatype Failure =
    | IllegalState(message: string)
    | IllegalArgument(message: string)
    | NullPointer(message: string)
    | IndexOutOfBounds

  /** The result of a value-returning Java method: the value, or the exception it threw. */
  datatype Result<+T> = Ok(value: T) | Err(error: Failure)

  /** The result of a void Java method: it returned, or it threw. */
  datatype Outcome = Pass | Fail(error: Failure)
}
