/** Option and Result types for the decision layer, and the Python exceptions
    that its functions can raise. */
module Results {

  datatype Option<T> = None | Some(value: T)

  /** The exceptions the decision layer raises, by their Python names. */
  datatype Error =
    | KeyError           // a missing dictionary or graph key
    | ValueError         // `max` of an empty sequence
    | TypeError          // an `int` unpacked as a pair
    | AttributeError     // an attribute of `None`
    | ZeroDivisionError  // a division by zero

  datatype Result<T> = Ok(value: T) | Err(error: Error)
}
