/**
 * Optional values: the model's rendering of Java's `null` and JavaScript's
 * `undefined`.
 */
module Wrappers {
  datatype Option<T> = None | Some(value: T)
  {
    function UnwrapOr(default: T): T
    {
      match this
      case None => default
      case Some(v) => v
    }
  }
}
