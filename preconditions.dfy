/** The configuration errors raised by Guava's `Preconditions` checks, and the
    Option/Result wrappers the model uses in place of `null` and of a thrown
    exception. */
module Preconditions {

  /** A Java reference that may be `null`: `None` stands for `null`. */
  datatype Option<+T> = None | Some(value: T)

  /** The three kinds of exception that configuration code throws:
      `checkNotNull` throws NullPointerException, `checkArgument` throws
      IllegalArgumentException and `checkState` throws IllegalStateException. */
  datatype ConfigError =
    | NullPointer(message: string)
    | IllegalArgument(message: string)
    | IllegalState(message: string)

  /** The outcome of a factory or constructor: the object built, or the
      exception its checks throw. */
  datatype Result<+T> = Ok(value: T) | Err(error: ConfigError) {
    predicate IsFailure() { Err? }

    function PropagateFailure<U>(): Result<U>
      requires Err?
    {
      Err(error)
    }

    function Extract(): T
      requires Ok?
    {
      value
    }
  }

  /** The outcome of a builder step that returns `this` or throws. */
  datatype Outcome = Pass | Fail(error: ConfigError)
}
