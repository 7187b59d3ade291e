/** Optional values and the Python exceptions that the modelled code raises. */
module Results {

  /** A Python argument or attribute that may be `None`. */
  datatype Option<+T> = None | Some(value: T) {
    function GetOr(default: T): T {
      match this
      case Some(v) => v
      case None => default
    }
  }

  /** The exception classes the core raises on its error paths. */
  datatype Error =
    | TypeError       // a non-array handed to `rezero_array`
    | ValueError      // a negative dimensionality handed to `np.zeros`
    | AttributeError  // `.endswith` on `None`, or an unset named axis
    | StopIteration   // `next` on an exhausted iterator

  /** Either the value a Python call returns or the exception it raises. */
  datatype Result<+T> = Ok(value: T) | Err(error: Error)
}
