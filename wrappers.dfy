// Small result types shared by every module of the model.
module Wrappers {
  datatype Option<T> = None | Some(value: T)

  /** The outcome of an operation that may raise: a value or the exception it raises. */
  datatype Result<T> = Ok(value: T) | Raise(exc: Exception)

  /** A Python exception, by class name and message. */
  datatype Exception = Exception(kind: string, message: string)
}
