/** The Some/None datatype used for optional values (an absent client, an
    absent scope parameter, a lookup that finds nothing). */
module Wrappers {

  datatype Option<+T> = None | Some(value: T) {

    /** The held value; `default` when there is none. */
    function GetOr(default: T): T {
      match this
      case Some(v) => v
      case None => default
    }
  }
}
