/** The optional-value datatype used where the program returns a value or nothing
    (a dictionary lookup that misses, a file read that fails). */
module Wrappers {

  datatype Option<+T> = None | Some(value: T) {

    /** The encapsulated value, or `default` when there is none. */
    function GetOr(default: T): T {
      match this
      case Some(v) => v
      case None => default
    }
  }
}
