/**
 The outcome of a Python call: a value, or the exception it raises. The messages are
 the ones the module formats; exceptions raised by the interpreter itself carry
 CPython's wording.
 */
module Errors {

  datatype Kind = TypeError | ValueError | ZeroDivisionError

  datatype Exception = Exception(kind: Kind, message: string)

  datatype Result<+T> = Ok(value: T) | Raise(exc: Exception)

  function TypeErr<T>(message: string): (r: Result<T>)
  {
    Raise(Exception(TypeError, message))
  }

  function ValueErr<T>(message: string): (r: Result<T>)
  {
    Raise(Exception(ValueError, message))
  }
}
