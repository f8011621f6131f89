/** Failure-carrying results for the Python operations of the footprint
    scripting helpers: a raised exception becomes an `Err` (or `Fail`) value
    naming the exception class Python would raise. */
module Wrappers {

  /** The Python exception classes that the modelled helpers can raise. */
  datatype Exception =
    | ValueError         // an unknown flip code
    | IndexError         // `list.pop()` on an empty list
    | UnboundLocalError  // a local read before any assignment
    | TypeError          // a call with the wrong number of arguments
    | AttributeError     // a lookup of an attribute the object lacks
    | ZeroDivisionError  // a division by zero

  datatype Option<+T> = None | Some(value: T)

  datatype Result<+T> = Ok(value: T) | Err(error: Exception)

  /** Outcome of an operation that returns nothing useful but may raise. */
  datatype Outcome = Pass | Fail(error: Exception)
}
