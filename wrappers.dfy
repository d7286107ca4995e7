/** Small result types shared by the whole model. */
module Wrappers {

  /** Python's `None` / a present value. */
  datatype Option<+T> = None | Some(value: T) {
    function GetOr(default: T): T {
      match this
      case Some(v) => v
      case None => default
    }
  }

  /** The outcome of a Python call that may raise: a returned value, or the
      exception it raised, rendered as its message. */
  datatype Reply<+T> = Ok(value: T) | Raised(error: string)
}
