/** The absent-or-present value shared by the models (JavaScript's `undefined`/`null` versus a value). */
module Wrappers {
  datatype Option<+T> = None | Some(value: T) {
    function GetOr(default: T): (v: T) {
      match this
      case Some(v) => v
      case None => default
    }
  }
}
