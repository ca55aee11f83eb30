/** Option and Result, the two shapes Go's `(value, error)` and nil references take in this model. */
module Wrappers {

  /** A nil-able value: `None` stands for Go's nil reference, slice or error. */
  datatype Option<+T> = None | Some(value: T)
  {
    function GetOr(default: T): T
    {
      match this
      case Some(v) => v
      case None => default
    }
  }

  /** A value or an error, as Go functions returning `(T, error)` do. */
  datatype Result<+T, +E> = Ok(value: T) | Err(error: E)

  /** What a Go call that may hit a run-time panic (an index out of range, `rand.Int63n(n)` with `n <= 0`) ends in. */
  datatype Outcome<+T> = Returned(value: T) | Panicked
}
