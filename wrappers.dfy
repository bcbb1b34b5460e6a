/** Optional values: the model's reading of TypeScript's optional fields, `undefined` and `null`. */
module Wrappers {

  datatype Option<+T> = None | Some(value: T) {

    /** The value, or `default` when absent. On an optional number, `GetOr(0)` is JavaScript's
        `x || 0`: an absent field and a field holding 0 both give 0. */
    function GetOr(default: T): T {
      match this
      case Some(v) => v
      case None => default
    }
  }
}
