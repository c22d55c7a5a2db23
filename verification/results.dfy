/** Optional values and error-carrying results used across the binning model. */
module Results {

  /** A value that may be absent; models a Python argument that may be `None`. */
  datatype Option<+T> = None | Some(value: T)

  /** Either a computed value or the error the original code would raise. */
  datatype Result<+V, +E> = Ok(value: V) | Err(error: E)
}
