/** Optional configuration values: a field left out of a configuration object
    is `None`, and the component falls back to its default. */
module Options {

  datatype Option<+T> = None | Some(value: T) {

    /** The value if present, otherwise the default (the `??` operator). */
    function GetOr(default: T): (r: T)
      ensures Some? ==> r == value
      ensures None? ==> r == default
    {
      match this
      case Some(v) => v
      case None => default
    }
  }
}
