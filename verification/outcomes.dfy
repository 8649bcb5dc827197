/** Small failure-carrying datatypes shared by the whole model. */
module Outcomes {

  /** A value that may be absent: a JSON field that is missing, a parse that failed. */
  datatype Option<+T> = None | Some(value: T) {

    /** The carried value, or `default` when absent (Python's `dict.get(key, default)`). */
    function GetOr(default: T): (r: T)
      ensures Some? ==> r == value
      ensures None? ==> r == default
    {
      match this
      case Some(v) => v
      case None => default
    }
  }

  /** Either a value or an error, for operations that refuse to proceed. */
  datatype Result<+R, +E> = Success(value: R) | Failure(error: E)

  /** The outcome of a call into code outside the model that may raise an exception. */
  datatype Fetch<+T> = Fetched(value: T) | Raised
}
