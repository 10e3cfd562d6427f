/** Failure-carrying datatypes shared by the whole model. */
module Wrappers {

  /** A C# reference that may be null: `None` is null. */
  datatype Option<+T> = None | Some(value: T)

  /** A value, or the message of the exception raised instead. */
  datatype Result<+T> = Success(value: T) | Failure(message: string)

  /** What an endpoint or a collaborator call ends in: success, a refusal the
      caller can act on (HTTP 400 in the controller), or an exception that the
      controller's catch-all turns into HTTP 500. */
  datatype Outcome = Ok | Rejected(message: string) | Failed(message: string)
}
