/**
  Failure-carrying datatypes used throughout the model: `Option` for the
  source's `Option<_>` and `Result` for its `Result<_, _>`, plus `Step`,
  the pair of a `Result<(), E>` and the state left behind by an operation
  that mutates `&mut self` or pallet storage.
 */
module Wrappers {

  datatype Option<+T> = None | Some(value: T)

  datatype Result<+T, +E> = Ok(value: T) | Err(error: E)

  /** Outcome of a mutating call: what it returned and the state it left. */
  datatype Step<+S, +E> = Step(result: Result<(), E>, state: S)

  /** A successful mutation that leaves `s` behind. */
  function Done<S, E>(s: S): Step<S, E>
  {
    Step(Ok(()), s)
  }

  /** A failed mutation: the error `e`, with the state `s` left as it was. */
  function Fail<S, E>(s: S, e: E): Step<S, E>
  {
    Step(Err(e), s)
  }
}
