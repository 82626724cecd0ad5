/** The two result types shared by the models; `Result` supports `:-`. */
module Wrappers {
  datatype Option<+T> = None | Some(value: T)

  /** A computation of the source that returns `Result<T>`. */
  datatype Result<+T, +E> = Ok(value: T) | Err(error: E) {
    predicate IsFailure() {
      Err?
    }

    function PropagateFailure<U>(): Result<U, E>
      requires Err?
    {
      Err(error)
    }

    function Extract(): T
      requires Ok?
    {
      value
    }
  }
}
