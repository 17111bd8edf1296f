/** Optional values: the model's stand-in for `null` / `undefined`. */
module Options {

  datatype Option<+T> = None | Some(value: T) {

    /** The value, or `default` when absent. */
    function GetOr(default: T): T {
      match this
      case Some(v) => v
      case None => default
    }
  }

  /** JavaScript truthiness of an optional string: present and non-empty. */
  predicate Truthy(s: Option<string>) {
    s.Some? && s.value != ""
  }

  /**
   * JavaScript `a || b` on an optional string with a string fallback: a
   * truthy fallback makes the result truthy whatever `a` is.
   */
  function OrElse(s: Option<string>, fallback: string): (r: string)
    ensures fallback != "" ==> r != ""
    ensures r == "" <==> !Truthy(s) && fallback == ""
  {
    if Truthy(s) then s.value else fallback
  }
}
