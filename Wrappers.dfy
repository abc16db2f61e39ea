/** Option and Result types, and the Python exceptions the plotting core can raise. */
module Wrappers {

  datatype Option<+T> = None | Some(value: T)

  /** A failure-compatible result, so that `:-` propagates a raised exception. */
  datatype Result<+T> = Success(value: T) | Failure(error: Exception) {
    predicate IsFailure() {
      Failure?
    }

    function PropagateFailure<U>(): Result<U>
      requires Failure?
    {
      Failure(error)
    }

    function Extract(): T
      requires Success?
    {
      value
    }
  }

  /** The exceptions that the modelled code raises, named after Python's. */
  datatype Exception =
    | KeyError(key: string)              // a missing key in the parsed configuration
    | SectionNotObject(section: string)  // TypeError: a configuration section that is not an object
    | IntValueError(text: string)        // int() given a string that is not a decimal integer
    | RangeStepZero                      // range() given a step of zero
    | ZeroDivisionError                  // float division by a halving step that underflowed to 0.0
    | UnboundLocalError(name: string)    // no timescale unit was recognised
    | AttributeError(name: string)       // an attribute read before it was ever assigned
    | FormatNotModelled                  // str() of a float, list or object in str.format, which the model does not render
}
