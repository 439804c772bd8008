/** The optional value used wherever the source has `undefined`, `null` or `NaN`
    standing for "no value". */
module Wrappers {

  datatype Option<+T> = None | Some(value: T) {

    /** The carried value, or `default` when there is none (JavaScript's `x || d`
        for a value whose only falsy form is "absent"). */
    function GetOr(default: T): T {
      match this
      case Some(v) => v
      case None => default
    }
  }
}
