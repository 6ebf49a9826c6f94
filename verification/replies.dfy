/** How commands and the duration parser report back to their caller. */
module Replies {

  /** A Go `error` return: `nil`, or an error value. */
  datatype Reply<+E> = Ok | Err(error: E)

  /** What `time.ParseDuration` hands back: a duration, or the reason it refused the text. */
  datatype Parsed<+T> = Value(value: T) | Invalid(reason: string)
}
