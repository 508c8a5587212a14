/** The error channel of the builder: the source throws `Error`s (and, in a
    few corners, a `TypeError`) synchronously; the model returns them. */
module Results {

  datatype Result<+T> = Ok(value: T) | Err(message: string) {

    predicate IsFailure() {
      Err?
    }

    function PropagateFailure<U>(): Result<U>
      requires Err?
    {
      Err(message)
    }

    function Extract(): T
      requires Ok?
    {
      value
    }
  }
}
