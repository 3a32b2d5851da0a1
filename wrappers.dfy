/** Optional values: Ruby's `nil` or a value. */
module Wrappers {

  datatype Option<+T> = None | Some(value: T) {

    /** The value, or `default` when there is none (Ruby's `x || default`). */
    function GetOr(default: T): T {
      match this
      case Some(v) => v
      case None => default
    }

    /** This value if there is one, else `other` (Ruby's `x || y` on two maybe-nil values). */
    function Or(other: Option<T>): Option<T> {
      match this
      case Some(_) => this
      case None => other
    }
  }
}
