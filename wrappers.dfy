/** Failure-carrying datatypes shared by every module of the model. */
module Wrappers {

  /** A value that may be absent: a BSON field that is missing or null, a nil pointer. */
  datatype Option<+T> = None | Some(value: T)

  /** Either a value or the error that the Go code returns beside its zero value. */
  datatype Result<+T, +E> = Ok(value: T) | Err(error: E)

  /** An operation that returns only an error. */
  datatype Outcome<+E> = Pass | Fail(error: E)

  /** The gRPC status codes the service answers with. */
  datatype Code = InvalidArgument | PermissionDenied | Internal

  /** A gRPC error: its code and the message the client sees. */
  datatype Status = Status(code: Code, msg: string)
}
