/** Option and Result, used for Python's None and for the exceptions the source raises. */
module Wrappers {

  datatype Option<+T> = None | Some(value: T)

  /** The Python exceptions that the modelled code can raise on malformed input. */
  datatype Error =
    | IndexError   // a list subscript past the end
    | ValueError   // list.remove of a value that is not in the list
    | KeyError     // a missing dictionary key
    | AttributeError // a method called on None or on a string that lacks it

  datatype Result<+R> = Success(value: R) | Failure(error: Error)
}
