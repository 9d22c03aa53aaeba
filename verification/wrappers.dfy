/** The optional-value datatype used throughout the model for JavaScript values
    that may be absent (`undefined`, `null`, a missing property). */
module Wrappers {

  datatype Option<+T> = None | Some(value: T) {

    /** Returns the wrapped value, or `default` when there is none
        (the JavaScript idiom `x || default` for values that are never falsy). */
    function GetOr(default: T): T {
      match this
      case Some(v) => v
      case None => default
    }
  }
}
