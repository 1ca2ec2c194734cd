/** Option and Result, used for pandas' undefined (NaN) values and for Python exceptions. */
module Wrappers {

  /** A value that may be undefined: `None` stands for a NaN produced during an indicator's warm-up. */
  datatype Option<+T> = None | Some(value: T)

  /** The outcome of an operation that may raise. */
  datatype Result<+T, +E> = Ok(value: T) | Err(error: E)

  /** NaN-aware `o < c`: an undefined value compares false, as IEEE NaN does. */
  predicate Lt(o: Option<real>, c: real) {
    o.Some? && o.value < c
  }

  /** NaN-aware `o > c`. */
  predicate Gt(o: Option<real>, c: real) {
    o.Some? && o.value > c
  }

  /** NaN-aware `o <= c`. */
  predicate Le(o: Option<real>, c: real) {
    o.Some? && o.value <= c
  }

  /** NaN-aware `o >= c`. */
  predicate Ge(o: Option<real>, c: real) {
    o.Some? && o.value >= c
  }
}
