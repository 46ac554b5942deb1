/** Failure-compatible wrappers: Python's `None`, raised exceptions and
    "returned normally" are written with these three datatypes. */
module Wrappers {

  /** An optional value; `None` stands for Python's `None`. */
  datatype Option<+T> = None | Some(value: T)

  /** A value, or the error that was raised instead of producing it. */
  datatype Result<+R, +E> = Success(value: R) | Failure(error: E)

  /** A call that returns nothing: it either completes or raises `error`. */
  datatype Outcome<+E> = Pass | Fail(error: E)
}
