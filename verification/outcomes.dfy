/** Failure-carrying values shared by every component.

    The Python code signals failure by raising exceptions of a few built-in
    classes; the model returns them as values instead. */
module Outcomes {

  /** The Python exception classes the core raises, catches or lets through. */
  datatype ExcKind =
    | ValueError
    | ZeroDivisionError
    | PermissionError
    | FileNotFoundError
    | LookupError         // unknown codec name
    | UnicodeError        // content that the codec cannot encode
    | OSError             // mkdir refused by the operating system
    | RuntimeError
    | ValidationError     // pydantic model construction failed

  /** A raised exception: its class and the text `str(e)` gives. */
  datatype Exception = Exception(kind: ExcKind, message: string)

  datatype Option<T> = None | Some(value: T)

  datatype Result<T> = Ok(value: T) | Err(error: Exception)

  /** The result of a check that either passes or raises. */
  datatype Outcome = Pass | Fail(error: Exception)
}
