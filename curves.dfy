/** Values shared by every component: points, curves and the error a
    computation can raise when it reads past the end of a series. */
module Curves {

  /** A domain/value pair. Curves and the `u`, `p` series are sequences of these. */
  datatype Point = Point(x: real, y: real)

  /** The only failure the core can raise: reading `.y` of a series entry
      that does not exist. */
  datatype Error = IndexOutOfRange

  datatype Result<T> = Ok(value: T) | Err(error: Error)
}

/** What the model assumes of the transcendental functions it is given. */
module RealMath {

  /** Facts of `Math.exp` the model relies on: it is positive, it does not
      decrease, and it is 1 at 0. */
  ghost predicate ExpLike(exp: real -> real) {
    && (forall x :: 0.0 < exp(x))
    && (forall x, y :: x <= y ==> exp(x) <= exp(y))
    && exp(0.0) == 1.0
  }

  /** The fact of `Math.sqrt` the model relies on: it is positive on positive arguments. */
  ghost predicate SqrtLike(sqrt: real -> real) {
    forall x :: 0.0 < x ==> 0.0 < sqrt(x)
  }

  /** `Math.abs`. */
  function Abs(x: real): (r: real)
    ensures 0.0 <= r
    ensures r == x || r == -x
  {
    if x < 0.0 then -x else x
  }
}
