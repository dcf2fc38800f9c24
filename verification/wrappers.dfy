/** Optional values and results with an error, used for metrics that may be
    absent from the result mapping and for calls that raise. */
module Wrappers {

  /** `None` is an absent metric (or, where a field says so, Python's `None`). */
  datatype Option<+T> = None | Some(value: T)

  /** The outcome of an analysis: the metrics, or the exception the call raises. */
  datatype Result<+T, +E> = Success(value: T) | Failure(error: E)
}
