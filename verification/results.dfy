/** The success-or-failure container every service returns instead of
    throwing for expected failures (the FluentResults `Result`, `Result<T>`
    and `Error` types the services are written against). */
module Results {

  datatype Option<+T> = None | Some(value: T)

  /** An error's metadata: keys to values, where a value may be null. */
  type Metadata = map<string, Option<string>>

  /** `IError`: a message plus metadata. */
  datatype Error = Error(message: string, metadata: Metadata)

  /** `new Error(message)`: a message with no metadata. */
  function Message(message: string): Error {
    Error(message, map[])
  }

  /** The errors of a failed result. A result counts as failed exactly
      when it holds at least one error, so the list is never empty. */
  type Errors = e: seq<Error> | |e| > 0 witness [Error("", map[])]

  /** `Result<T>`: a value, or the errors explaining why there is none. */
  datatype Result<+T> = Success(value: T) | Failure(errors: Errors)

  /** The payload-less `Result` that update and delete return. */
  datatype Outcome = Pass | Fail(errors: Errors)

  /** `Result.Fail(message)` for a value-carrying result. */
  function FailWith<T>(message: string): Result<T> {
    Failure([Message(message)])
  }
}
