/** Optional values: the model's stand-in for Ruby's `nil`. */
module Optional {

  /** `None` plays `nil`; `Some(v)` a present value. */
  datatype Option<+T> = None | Some(value: T) {

    /** The value, or `default` when absent. */
    function GetOr(default: T): T {
      match this
      case Some(v) => v
      case None => default
    }
  }
}
