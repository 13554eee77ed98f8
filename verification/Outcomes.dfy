/** Results of operations that may throw.

  The services are written with exceptions over live, mutable rows, so a call that throws can
  leave some of its writes behind. `Thrown` therefore carries a state as well as an error.
  `Outcome` is failure-compatible: `:-` stops at the first throw and keeps the state reached. */
module Outcomes {

  datatype Error = Invalid | Insufficient | NotFound | Conflict | Forbidden

  datatype Outcome<+S> = Done(state: S) | Thrown(state: S, error: Error) {
    predicate IsFailure() {
      Thrown?
    }

    function PropagateFailure(): Outcome<S>
      requires Thrown?
    {
      this
    }

    function Extract(): S
      requires Done?
    {
      state
    }
  }

  /** What the caller of a method sees: no value, or the error. */
  datatype Option<+T> = None | Some(value: T)

  function ErrorOf<S>(o: Outcome<S>): Option<Error> {
    if o.Thrown? then Some(o.error) else None
  }
}
