/** A minimal optional-value type, the counterpart of Rust's `Option`. */
module Wrappers {

  datatype Option<+T> = None | Some(value: T) {

    /** This value when present, otherwise `other` (Rust's `or_else`). */
    function OrElse(other: Option<T>): Option<T> {
      if Some? then this else other
    }

    /** The carried value when present, otherwise `default` (Rust's `unwrap_or`). */
    function GetOr(default: T): T {
      if Some? then value else default
    }
  }
}
