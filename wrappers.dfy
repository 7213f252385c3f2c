/** Option and Result, the two wrapper types the Rust code returns. */
module Wrappers {
  datatype Option<T> = None | Some(value: T) {
    /** `unwrap_or`: the value, or `fallback` when there is none. */
    function UnwrapOr(fallback: T): T
    {
      if Some? then value else fallback
    }
  }

  datatype Result<T, E> = Success(value: T) | Failure(error: E)
}
