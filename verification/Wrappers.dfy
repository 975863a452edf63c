/** The two result shapes every module shares: a value that may be absent (a nullable column,
    a query that finds nothing) and an operation that may fail (an exception that rolls back). */
module Wrappers {

  datatype Option<+T> = None | Some(value: T)

  datatype Result<+T, +E> = Success(value: T) | Failure(error: E)
}
