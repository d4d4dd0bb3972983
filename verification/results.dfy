/** Failure-carrying values: the Go `(value, error)` return pairs of the
    handler become `Result`, and a lookup that may find nothing becomes
    `Option`. */
module Results {

  /** Either a value or the message of the Go `error` that replaced it. */
  datatype Result<+T> = Ok(value: T) | Err(error: string) {

    predicate IsFailure() {
      Err?
    }

    function PropagateFailure<U>(): Result<U>
      requires Err?
    {
      Err(error)
    }

    function Extract(): T
      requires Ok?
    {
      value
    }
  }

  datatype Option<+T> = None | Some(value: T)
}
