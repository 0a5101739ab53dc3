/** Optional values: the model's rendering of C# nullable values (`long?`,
    `DateTime?`, `string?`) and of JavaScript's `null`/`undefined`. */
module Wrappers {

  datatype Option<+T> = None | Some(value: T) {

    /** The value, or `default` when absent: C#'s `??` operator. */
    function GetOr(default: T): T {
      match this
      case Some(v) => v
      case None => default
    }

    /** This value if present, otherwise `other`: `??` between two nullable values. */
    function OrElse(other: Option<T>): Option<T> {
      if this.Some? then this else other
    }
  }
}
