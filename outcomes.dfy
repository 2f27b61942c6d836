/** Optional values and the outcome of a call that may throw. */
module Outcomes {

  /** A value that may be absent (`undefined` / `null` in the application). */
  datatype Option<+T> = None | Some(value: T)

  /** The outcome of an asynchronous call that either resolves to a value or
      rejects with an error whose `message` is a string (possibly empty). */
  datatype Outcome<+T> = Ok(value: T) | Thrown(message: string) {

    predicate IsFailure() {
      Thrown?
    }

    function PropagateFailure<U>(): Outcome<U>
      requires Thrown?
    {
      Thrown(message)
    }

    function Extract(): T
      requires Ok?
    {
      value
    }
  }
}
