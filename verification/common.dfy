/** Small value types shared by the seller, the buyer and the launcher. */
module Common {

  /** A value that may be absent: a missing JSON field, a `None` argument or an empty mailbox. */
  datatype Option<T> = None | Some(value: T) {

    /** The value, or `default` when absent (Python's `d.get(key, default)`). */
    function GetOr(default: T): (v: T) {
      match this
      case Some(v) => v
      case None => default
    }
  }

  function Min(a: int, b: int): (m: int) {
    if a <= b then a else b
  }

  function MinReal(a: real, b: real): (m: real) {
    if a <= b then a else b
  }

  function MaxReal(a: real, b: real): (m: real) {
    if a <= b then b else a
  }
}
