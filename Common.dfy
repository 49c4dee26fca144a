/** Optional values and results with an error text, shared by the other modules. */
module Common {

  datatype Option<+T> = None | Some(value: T)

  /** The outcome of a call that either returns a value or raises an error
      whose text is `error` (what `str(e)` gives in the program). */
  datatype Result<+T> = Ok(value: T) | Err(error: string)
}
