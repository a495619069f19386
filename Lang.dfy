/**
  Java values the pipeline passes around: nullable references, the runtime
  exceptions it throws or catches, and bytes.
 */
module Lang {

  /** A Java reference that may be null: `None` is null. */
  datatype Option<+T> = None | Some(value: T)

  /** The runtime exceptions that cross the pipeline's boundaries, each with
      its message. `OtherRuntime` stands for every RuntimeException subclass
      the pipeline neither throws nor names in a catch clause. */
  datatype Exception =
    | IllegalArgument(message: string)
    | IllegalState(message: string)
    | InvalidFile(message: string)
    | AiNotConfigured(message: string)
    | AiQuota(message: string)
    | AiRequestFailed(message: string)
    | InvalidAiResponse(message: string)
    | OtherRuntime(message: string)

  /** A call that returns a value or throws a runtime exception. */
  datatype Result<+T> = Ok(value: T) | Err(error: Exception)

  /** A Java `byte`, read as its unsigned value. */
  newtype byte = b: int | 0 <= b < 256
}
