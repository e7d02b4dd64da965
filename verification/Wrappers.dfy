/** Option and Result, standing for the source language's own. */
module Wrappers {

  datatype Option<+T> = None | Some(value: T) {
    /** The first of two options that holds a value. */
    function Or(other: Option<T>): Option<T> {
      if Some? then this else other
    }

    function GetOr(default: T): T {
      if Some? then value else default
    }
  }

  datatype Result<+T, +E> = Ok(value: T) | Err(error: E)
}
