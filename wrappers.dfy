/** Failure-compatible result types shared by every module of the model. */
module Wrappers {

  /** An optional value (Python's `None` or a value). */
  datatype Option<+T> = None | Some(value: T)

  /** Python truthiness of an optional integer: set and nonzero. */
  predicate Truthy(a: Option<int>) { a.Some? && a.value != 0 }

  /** The exceptions the modelled Python code can raise. */
  datatype Error =
    | IndexError          // list/array index or tuple subscript out of range
    | ValueError          // int()/float() of a malformed string, numpy shape mismatch
    | KeyError            // dictionary lookup of an absent key
    | ZeroDivisionError   // Python float/int division by zero

  /** Either a value or the exception that ended the computation. */
  datatype Result<+T> = Success(value: T) | Failure(error: Error)
}
