/** The optional value used for a form field, a metadata key or a JSON key that may be missing. */
module Wrappers {

  datatype Option<+T> = None | Some(value: T) {

    /** Python's `x or default` / `dict.get(key, default)`: the value when present, else the default. */
    function GetOr(default: T): T {
      match this
      case Some(v) => v
      case None => default
    }
  }
}
