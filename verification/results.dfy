/** A success/failure datatype standing in for the exceptions the parser raises.
    It is failure-compatible, so `:-` propagates the first failure. */
module Results {

  datatype Result<+T, +E> = Ok(value: T) | Fail(error: E) {

    predicate IsFailure() {
      Fail?
    }

    function PropagateFailure<U>(): Result<U, E>
      requires Fail?
    {
      Fail(error)
    }

    function Extract(): T
      requires Ok?
    {
      value
    }
  }
}
