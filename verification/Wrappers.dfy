/** Failure-compatible datatypes shared by all modules. */
module Wrappers {
  datatype Option<+T> = None | Some(value: T)

  /** `Err` stands for both `EncodingError` and `DecryptionError`, which carry no data. */
  datatype Result<+T> = Ok(value: T) | Err {
    predicate IsFailure() {
      Err?
    }

    function PropagateFailure<U>(): Result<U>
      requires Err?
    {
      Err
    }

    function Extract(): T
      requires Ok?
    {
      value
    }
  }
}
