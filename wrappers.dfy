/** The optional value of a field or a lookup that may be absent
    (`undefined` in the modelled TypeScript). */
module Wrappers {

  datatype Option<+T> = None | Some(value: T) {

    /** The value held, or `default` when absent (TypeScript `??`, zod `.default`). */
    function GetOr(default: T): T {
      match this
      case Some(v) => v
      case None => default
    }
  }
}
