/** Optional values and success/failure results, used for Swift optionals and thrown errors. */
module Wrappers {

  datatype Option<T> = None | Some(value: T) {
    /** The `??` operator: the wrapped value, or `default` when absent. */
    function GetOr(default: T): T {
      if Some? then value else default
    }
  }

  /** What a throwing Swift call produces: a value or the error it threw. */
  datatype Result<T, E> = Success(value: T) | Failure(error: E)
}
