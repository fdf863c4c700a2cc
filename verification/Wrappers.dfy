/** The option type used for JavaScript's null and undefined and for Python's None. */
module Wrappers {
  datatype Option<+T> = None | Some(value: T) {
    /** JavaScript's nullish default, `a ?? b`, where b is again nullable. */
    function Or(default: Option<T>): Option<T> {
      if Some? then this else default
    }

    function GetOr(default: T): T {
      if Some? then value else default
    }
  }

  function Min(a: int, b: int): int {
    if a < b then a else b
  }
}
