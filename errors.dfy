/** Go `error` values, modelled by their messages. `fmt.Errorf("P: %s", err)`
    becomes the message `"P: " + msg`. */
module Errors {

  /** What a call that returns only an `error` produced: `nil` is Pass. */
  datatype Outcome = Pass | Fail(msg: string)

  /** What a call that returns a value and an `error` produced. */
  datatype Result<T> = Ok(value: T) | Failure(msg: string)
}
