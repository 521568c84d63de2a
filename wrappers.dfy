/** Option and Result values used throughout the model in place of Kotlin's nullable results and exceptions. */
module Wrappers {
  /** A Kotlin nullable value: `None` plays the part of `null`. */
  datatype Option<T> = None | Some(value: T)

  /** An exception as the JVM reports it: its simple class name and its message. */
  datatype Thrown = Thrown(exceptionClass: string, message: string)

  /** The outcome of a Kotlin call that may throw: a returned value or the exception it raised. */
  datatype Result<T> = Ok(value: T) | Fail(thrown: Thrown)
  {
    predicate IsFailure() { Fail? }
    function PropagateFailure<U>(): Result<U>
      requires Fail?
    {
      Fail(thrown)
    }
    function Extract(): T
      requires Ok?
    {
      value
    }
  }

  /** The exception Kotlin's `require(...)` raises when its condition is false. */
  function FailedRequirement(): Thrown
  {
    Thrown("IllegalArgumentException", "Failed requirement.")
  }
}
