/** Optional values and the Python exceptions that the modelled code raises. */
module Wrappers {

  datatype Option<+T> = None | Some(value: T)

  /** The exception classes the source raises or lets escape. */
  datatype PyError =
    | TypeError(msg: string)
    | ValueError(msg: string)
    | KeyError(key: string)
    | IndexError
    | AttributeError(attr: string)
    | AssertionError
    | IOError(msg: string)
    | RuntimeError(msg: string)
    | ZeroDivisionError
    | StopIteration
    /** `re.error`, raised by `re.compile` on a malformed pattern. */
    | ReError(pattern: string)
    | SystemExit(code: int)

  datatype Result<+T> = Ok(value: T) | Err(error: PyError)
}
