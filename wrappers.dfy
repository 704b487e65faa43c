/** Failure-carrying datatypes shared by every module.

    Every failure in the system is a diagnostic followed by `exit(-1)`;
    `Fatal(msg)` stands for that, with the diagnostic text as `msg`. */
module Wrappers {

  datatype Option<T> = None | Some(value: T)

  /** A value, or the fatal diagnostic that ended the process. */
  datatype Result<T> = Ok(value: T) | Fatal(msg: string)
  {
    predicate IsFailure() { Fatal? }

    function PropagateFailure<U>(): Result<U>
      requires Fatal?
    {
      Fatal(msg)
    }

    function Extract(): T
      requires Ok?
    {
      value
    }
  }

  /** The outcome of an operation that only changes state. */
  datatype Outcome = Pass | Fail(msg: string)
}
