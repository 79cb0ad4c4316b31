/** The absent-or-present wrapper used wherever the source has `null`,
    `undefined` or an optional property. */
module Optional {

  datatype Option<+T> = None | Some(value: T) {

    /** The value, or `default` when absent (the source's `x ?? default`). */
    function GetOr(default: T): T {
      match this
      case Some(v) => v
      case None => default
    }
  }
}
