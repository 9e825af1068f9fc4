/** Failure-carrying wrappers used by every module of the model. */
module Wrappers {

  datatype Option<+T> = None | Some(value: T)

  datatype Result<+R, +E> = Ok(value: R) | Err(error: E)
}

/** The Python exceptions the harness raises or lets propagate, by class and message. */
module Exceptions {

  datatype PyError =
    | FileNotFoundError(message: string)
    | IsADirectoryError(message: string)
    | KeyError(key: string)
    | ValueError(message: string)
    | TypeError(message: string)
    | ConnectionError(message: string)
    | TimeoutError(message: string)
    | JsonDecodeError
    | ValidationError
    | ParsingError(message: string)
    | OtherError(message: string)
}
