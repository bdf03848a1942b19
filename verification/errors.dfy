/**
 The exceptions a task handler can raise, and a handler's outcome: either the
 value it returned or the exception it raised.
 */
module Errors {

  /** The exception classes the service distinguishes. In Python 3 IOError is
      OSError; FileNotFoundError and PIL's UnidentifiedImageError are both
      subclasses of it. OtherError stands for every other exception class
      (ValueError, OverflowError, RuntimeError, ...). */
  datatype PyError =
    | FileNotFoundError(message: string)
    | OSError(message: string)
    | UnidentifiedImageError(message: string)
    | OtherError(message: string)

  /** True when `isinstance(e, IOError)` holds. */
  predicate IsIOError(e: PyError) {
    e.FileNotFoundError? || e.OSError? || e.UnidentifiedImageError?
  }

  /** What a handler call produced: a return value or a raised exception. */
  datatype Outcome<+T> = Ok(value: T) | Raised(error: PyError) {

    /** Applies f to a returned value and passes an exception on untouched. */
    function MapValue<U>(f: T -> U): (r: Outcome<U>)
      ensures r.Ok? <==> Ok?
      ensures Ok? ==> r.value == f(value)
      ensures Raised? ==> r.error == error
    {
      match this
      case Ok(v) => Ok(f(v))
      case Raised(e) => Raised(e)
    }
  }

  /** The message both handlers raise FileNotFoundError with. */
  const NOT_FOUND_MESSAGE := "Image file not found or access denied."
}
