/** Failure-carrying results for the operations whose .NET counterparts throw. */
module Wrappers {

  datatype Option<+T> = None | Some(value: T)

  /** The exception a .NET call would raise, by kind. */
  datatype Error =
    | KeyNotFound          // Dictionary indexer on a missing key
    | NoMatchingElement    // Enumerable.First with no element satisfying the predicate
    | IndexOutOfRange      // array index or Enumerable.ElementAt outside the sequence

  datatype Result<+T> = Ok(value: T) | Err(error: Error)
}
