/** Results and optional values shared by every engine of the control plane. */
module Outcomes {

  /** A Python value that may be `None`. */
  datatype Option<+T> = None | Some(value: T)

  /** The outcome of a call that either returns or raises a coded error. */
  datatype Result<+T> = Ok(value: T) | Err(code: string) {

    predicate IsFailure() { Err? }

    function PropagateFailure<U>(): Result<U>
      requires Err?
    {
      Err(code)
    }

    function Extract(): T
      requires Ok?
    {
      value
    }
  }
}
