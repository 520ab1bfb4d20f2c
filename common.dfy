/** Small helpers shared by every module of the model. */
module Common {

  /** Python's `None`-or-value, for optional arguments and configuration entries. */
  datatype Option<T> = None | Some(value: T)

  /** The value of an operation, or the exception the source raises instead. */
  datatype Result<T, E> = Success(value: T) | Failure(error: E)

  /** Python's `int(x)` on a float: truncation toward zero. */
  function Truncate(x: real): (r: int)
    ensures 0.0 <= x ==> r as real <= x < r as real + 1.0
    ensures x < 0.0 ==> r as real - 1.0 < x <= r as real
  {
    if 0.0 <= x then x.Floor else -((-x).Floor)
  }
}
