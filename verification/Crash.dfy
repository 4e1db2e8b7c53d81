/**
  Vocabulary shared by the crash-safe transactions: what a call gives back when the
  process may die inside it, and optional values.
*/
module Crash {

  datatype Option<+T> = None | Some(value: T)

  /** The answer of a call, or nothing because the process died inside it. With `:-`
      a death in a callee ends the caller at that very point. */
  datatype Run<+T> = Finished(value: T) | Crashed {
    predicate IsFailure() {
      Crashed?
    }

    function PropagateFailure<U>(): Run<U>
      requires Crashed?
    {
      Crashed
    }

    function Extract(): T
      requires Finished?
    {
      value
    }
  }
}
