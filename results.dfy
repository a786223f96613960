/** Optional values and outcomes that may fail with a message. A failure models the
    assembler's fatal exits (the process stops with that message). */
module Results {

  datatype Option<T> = None | Some(value: T)

  datatype Result<T> = Ok(value: T) | Fail(msg: string) {
    predicate IsFailure() {
      Fail?
    }

    function PropagateFailure<U>(): Result<U>
      requires Fail?
    {
      Fail(msg)
    }

    function Extract(): T
      requires Ok?
    {
      value
    }
  }
}
