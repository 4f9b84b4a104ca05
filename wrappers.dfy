/** Optional values: the model's stand-in for TypeScript's `?:` fields and `| null`. */
module Wrappers {

  datatype Option<+T> = None | Some(value: T) {

    /** Returns the wrapped value, or `default` when there is none (TypeScript's `??`). */
    function GetOr(default: T): T {
      match this
      case Some(v) => v
      case None => default
    }
  }
}
