/** Small result types shared by every module of the model. */
module Wrappers {

  datatype Option<T> = None | Some(value: T)

  /** The closed set of domain errors a handler reports to its caller. */
  datatype Error =
    | Conflict   // a uniqueness or foreign-key violation, or datasets that still exist
    | NotFound   // a lookup matched no row
    | Malformed  // input rejected before it reaches the database

  /** The outcome of a handler that returns nothing on success. */
  datatype Outcome = Ok | Fail(error: Error)

  /** The outcome of a handler that returns a value on success. */
  datatype Result<T> = Success(value: T) | Failure(error: Error)
}
