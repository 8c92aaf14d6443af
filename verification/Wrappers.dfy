/** The two failure-carrying datatypes the other modules share. */
module Wrappers {
  /** A value JavaScript would call `undefined`, or Go a nil pointer, is None. */
  datatype Option<+T> = None | Some(value: T)

  /** Go's `(value, error)` pair: exactly one of the two is meaningful. */
  datatype Result<+T, +E> = Ok(value: T) | Err(error: E)

  /** Calls a library routine that the model leaves abstract. */
  function Apply<A, B>(f: A -> B, x: A): B { f(x) }
}
