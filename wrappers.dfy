/** Option and Result wrappers shared by every module of the model, and the
    one piece of JavaScript number semantics the core depends on: NaN. */
module Wrappers {

  datatype Option<+T> = None | Some(value: T)

  datatype Result<+T, +E> = Success(value: T) | Failure(error: E)

  /** A JavaScript number as far as the core needs it: an exact real, or the
      NaN that `0 / 0` produces.  Every comparison with NaN is false. */
  datatype JsNumber = NaN | Num(v: real) {

    /** `this > bound` as JavaScript evaluates it. */
    predicate Above(bound: real) {
      Num? && v > bound
    }
  }

  /** `Math.max(0, v)` for a number that is not NaN. */
  function Max0(v: real): (r: real)
    ensures r >= 0.0 && r >= v
    ensures r == 0.0 || r == v
  {
    if v > 0.0 then v else 0.0
  }
}
