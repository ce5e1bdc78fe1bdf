/** Failure-carrying results for the exceptions the modelled code raises. */
module Wrappers {

  datatype Option<T> = None | Some(value: T)

  /** The Python exception kinds the core raises, with the part of the message the model keeps. */
  datatype Error =
    | ValueError(msg: string)
    | KeyError(key: string)
    | TypeError(msg: string)
    | IndexError
    | AssertionError(msg: string)
    | StopIteration
    | AttributeError(attr: string)

  datatype Result<T> = Ok(value: T) | Err(error: Error)

  /** The outcome of a procedure that returns nothing in the source. */
  datatype Outcome = Pass | Fail(error: Error)

  /** Concatenation regroups freely; stated once for the proofs that need the step spelled out. */
  lemma AppendAssoc<T>(a: seq<T>, b: seq<T>, c: seq<T>)
    ensures (a + b) + c == a + (b + c)
  {
  }
}
