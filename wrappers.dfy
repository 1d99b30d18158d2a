/** The `Result` type the template returns from its checked operations. */
module Wrappers {

  /** `Ok(value)` or `Err(error)`; usable with `:-`, which models the `?` operator. */
  datatype Result<+T, +E> = Ok(value: T) | Err(error: E) {

    predicate IsFailure() {
      Err?
    }

    function PropagateFailure<U>(): Result<U, E>
      requires Err?
    {
      Err(error)
    }

    function Extract(): T
      requires Ok?
    {
      value
    }
  }
}
