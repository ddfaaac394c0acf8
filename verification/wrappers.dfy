/** Optional values and success/failure results, used for the optional fields of a
    scan request and for the outcome of validation and scanning. */
module Wrappers {

  /** A value that may be absent (`undefined` in the scanner's argument record). */
  datatype Option<+T> = None | Some(value: T) {

    /** The value when present, the given default otherwise (the `??` operator). */
    function GetOr(default: T): T {
      match this
      case Some(v) => v
      case None => default
    }
  }

  /** Either a value or an error. */
  datatype Result<+R, +E> = Success(value: R) | Failure(error: E)
}
