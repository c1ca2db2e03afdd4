/** Optional values: `None` stands for Python's `None` (a missing directory)
    and for an operation that raised. */
module Wrappers {
  datatype Option<+T> = None | Some(value: T) {
    function GetOr(default: T): T {
      match this
      case Some(v) => v
      case None => default
    }
  }
}
