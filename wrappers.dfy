/** The optional value that `URLSearchParams.get` returns: a string or null. */
module Wrappers {

  datatype Option<+T> = None | Some(value: T) {

    /** The value, or `default` when there is none. With the default '', this is JavaScript's
        `x || ''` on a string or null. */
    function GetOr(default: T): T {
      match this
      case Some(v) => v
      case None => default
    }
  }
}
