/** Failure-carrying results shared by every module of the model. */
module Wrappers {

  datatype Option<+T> = None | Some(value: T)

  /** The exceptions the modelled Python code lets escape to its caller. */
  datatype Error =
    | ValueError(reason: string)
    | IndexError(reason: string)
    | ZeroDivisionError
    | NameError(name: string)
    | UnboundLocalError(name: string)
    | FileNotFoundError(path: string)

  datatype Result<+T> = Success(value: T) | Failure(error: Error)
}
