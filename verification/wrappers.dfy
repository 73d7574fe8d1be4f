/** The optional value used throughout the model: `None` stands for a JavaScript
    `undefined` field, `Some(v)` for a field that holds `v`. */
module Wrappers {

  datatype Option<+T> = None | Some(value: T) {

    /** The value, or `default` when absent: JavaScript's nullish `??` operator. */
    function GetOr(default: T): T {
      match this
      case Some(v) => v
      case None => default
    }
  }
}
