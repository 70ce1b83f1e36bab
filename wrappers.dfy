/** Optional values, standing for Python's `None` / present value, and the
    outcome of an API endpoint: its response or the HTTP error it raises. */
module Wrappers {

  datatype Option<+T> = None | Some(value: T) {

    /** The value, or `default` when absent (Python's `d.get(key, default)`). */
    function GetOr(default: T): T {
      match this
      case Some(v) => v
      case None => default
    }
  }

  /** An `HTTPException`: status code and detail text. */
  datatype ApiError = ApiError(code: int, detail: string)

  datatype Result<T> = Ok(value: T) | Err(error: ApiError)
}
