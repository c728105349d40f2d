/** Small shared vocabulary: a success-or-error result and integer min/max. */
module Wrappers {

  /** The outcome of an operation that may be rejected, carrying the value or the reason. */
  datatype Result<+T, +E> = Success(value: T) | Failure(error: E)

  function Max(a: int, b: int): int
  {
    if a >= b then a else b
  }

  function Min(a: int, b: int): int
  {
    if a <= b then a else b
  }
}
