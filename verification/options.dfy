/** An optional value: JavaScript's `null`/`undefined` for a field that may be absent. */
module Options {

  datatype Option<+T> = None | Some(value: T) {

    /** The value, or `default` when absent (the `x || default` idiom for a field that is never falsy when present). */
    function GetOr(default: T): T {
      match this
      case Some(v) => v
      case None => default
    }
  }
}
