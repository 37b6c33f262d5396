/** Option and Result, the two failure-carrying shapes the Rust programs use.
    Result is failure-compatible, so `var x :- e; ...` reads like Rust's `?`
    and `and_then` chains. */
module Results {

  datatype Option<+T> = None | Some(value: T)

  datatype Result<+T, +E> = Ok(value: T) | Err(error: E) {

    predicate IsFailure() {
      Err?
    }

    function PropagateFailure<U>(): Result<U, E>
      requires Err?
    {
      Err(error)
    }

    function Extract(): T
      requires Ok?
    {
      value
    }
  }
}
