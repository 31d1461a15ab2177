/** An optional value: what a JavaScript `find` returns (a record, or `undefined`)
    and what a chart metric returns (a number, or `null`). */
module Wrappers {

  datatype Option<+T> = None | Some(value: T) {

    /** The wrapped value, or `default` when there is none (`x ?? default`). */
    function GetOr(default: T): T {
      match this
      case Some(v) => v
      case None => default
    }
  }
}
