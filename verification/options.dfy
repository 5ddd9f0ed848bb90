/** Optional values: JavaScript's `null`/`undefined` on one side, a present value on the other. */
module Options {

  datatype Option<+T> = None | Some(value: T) {

    /** The present value, or `default` when there is none. */
    function GetOr(default: T): T {
      match this
      case Some(v) => v
      case None => default
    }
  }
}
