/** Optional values: the model's stand-in for a Java reference that may be null
    and for a JSON field that may be absent. */
module Options {

  datatype Option<+T> = None | Some(value: T) {

    /** The wrapped value, or `default` when there is none. */
    function GetOr(default: T): T {
      match this
      case Some(v) => v
      case None => default
    }
  }
}
