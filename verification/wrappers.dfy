/** Failure-compatible result types used by every component.

    A Rust `panic!` (including the arithmetic-overflow panic of a debug build
    and an out-of-bounds index) is modelled as a `Failure` carrying the reason;
    a Rust `Option` return value is modelled as `Option`. */
module Wrappers {

  datatype Option<+T> = None | Some(value: T)

  datatype Result<+T, +E> = Success(value: T) | Failure(error: E) {

    predicate IsFailure() {
      Failure?
    }

    function PropagateFailure<U>(): Result<U, E>
      requires Failure?
    {
      Failure(error)
    }

    function Extract(): T
      requires Success?
    {
      value
    }
  }
}
