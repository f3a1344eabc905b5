// Option and Result: absence and Python exceptions as values.
module Results {
  datatype Option<+T> = None | Some(value: T)
  {
    function UnwrapOr(default: T): T
    {
      match this
      case None => default
      case Some(v) => v
    }
  }

  /** `Err` carries the text that `str(e)` of the raised exception would give. */
  datatype Result<+T> = Ok(value: T) | Err(error: string)
}
