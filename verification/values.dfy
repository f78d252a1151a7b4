/** Optional values as they cross the wire: Python's `None` and JavaScript's
    `null`/`undefined` are both `None` here. */
module Values {

  /** A value that may be absent. */
  datatype Option<+T> = None | Some(value: T) {

    /** The value, or `default` when absent: JavaScript's `x || default`
        for values that are truthy whenever present (arrays, objects). */
    function GetOr(default: T): T {
      match this
      case Some(v) => v
      case None => default
    }
  }

  /** Truthiness of an optional string, on which Python (`if s:`) and
      JavaScript (`if (s)`) agree: present and not empty. */
  predicate Truthy(s: Option<string>) {
    s.Some? && |s.value| > 0
  }
}
