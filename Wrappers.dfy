/** Result wrappers for the optional values and raised errors of the orchestrator. */
module Wrappers {

  /** A value that may be absent (Python's `X | None`). */
  datatype Option<T> = None | Some(value: T)

  /** A computed value, or the error the Python code raises instead of returning it. */
  datatype Result<T, E> = Ok(value: T) | Err(error: E)

  /** The outcome of an operation that returns nothing: it completed, or it raised. */
  datatype Outcome<E> = Pass | Fail(error: E)
}
