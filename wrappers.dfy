/** Option and Result values used across the model: `None` stands for JavaScript's
    `null`/`undefined`, `Err` for a thrown `Error` carrying its message. */
module Wrappers {

  datatype Option<+T> = None | Some(value: T) {
    /** The `??` operator: the wrapped value, or `default` when absent. */
    function GetOr(default: T): T {
      match this
      case Some(v) => v
      case None => default
    }
  }

  datatype Result<+T, +E> = Ok(value: T) | Err(error: E)
}
