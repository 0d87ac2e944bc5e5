/** Failure-compatible wrappers used throughout the model. */
module Wrappers {

  /** Rust's `Option<T>`. */
  datatype Option<+T> = None | Some(value: T)

  /** Rust's `Result<T, E>` (anyhow's `Result<T>` fixes `E` to the model's error type). */
  datatype Result<+T, +E> = Success(value: T) | Failure(error: E) {
    predicate IsFailure() { Failure? }

    function PropagateFailure<U>(): Result<U, E>
      requires Failure?
    {
      Failure(error)
    }

    function Extract(): T
      requires Success?
    {
      value
    }
  }

  /** `Option::ok_or_else`: a missing value becomes the given error. */
  function OkOr<T, E>(o: Option<T>, error: E): (r: Result<T, E>)
    ensures r.Failure? <==> o.None?
    ensures r.Success? ==> o == Some(r.value)
    ensures r.Failure? ==> r.error == error
  {
    match o
    case Some(v) => Success(v)
    case None => Failure(error)
  }
}
