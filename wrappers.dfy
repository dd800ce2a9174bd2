/** Optional values and results, used for pandas NaN ("undefined") and for the
    exceptions that abort a run. */
module Wrappers {

  /** A value that may be missing: `None` stands for NaN or an absent entry. */
  datatype Option<+T> = None | Some(value: T)

  /** The outcome of an operation that the source would abort by raising. */
  datatype Result<+T, +E> = Ok(value: T) | Err(error: E)
}
