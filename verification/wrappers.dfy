/** Failure-compatible result types and the bounded integer types of the engine. */
module Wrappers {

  /** An unsigned 8-bit integer: the width of card values and player numbers. */
  type U8 = x: int | 0 <= x < 256

  /** A player number that can index one of the engine's four-seat arrays. */
  type Seat = x: int | 0 <= x < 4

  /** The optional value of the engine (`Option<T>`). */
  datatype Option<+T> = None | Some(value: T)

  /** A success value or an error (`Result<T, E>`); usable with `:-`. */
  datatype Result<+T, +E> = Ok(value: T) | Err(error: E) {

    predicate IsFailure() {
      Err?
    }

    function PropagateFailure<U>(): Result<U, E>
      requires Err?
    {
      Err(error)
    }

    function Extract(): T
      requires Ok?
    {
      value
    }
  }

  /** The outcome of an operation that mutates `state` in place and reports `result`:
      the state is meaningful whether or not the operation failed. */
  datatype Step<+S, +E> = Step(state: S, result: Result<(), E>)
}
