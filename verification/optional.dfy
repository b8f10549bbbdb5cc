/** The JavaScript values `undefined`, `null` and `NaN` that the source uses to
    signal "no value" are all modelled by `None`. */
module Optional {

  datatype Option<+T> = None | Some(value: T) {

    /** The value, or `fallback` when there is none (JavaScript's `x ?? fallback`). */
    function GetOr(fallback: T): T {
      match this
      case Some(v) => v
      case None => fallback
    }
  }
}
