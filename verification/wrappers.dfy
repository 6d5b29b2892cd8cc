/** The optional value used wherever the plugin works with "maybe nothing":
    a regex search that finds no match, a scan that finds no index. */
module Wrappers {

  datatype Option<+T> = None | Some(value: T) {

    /** The value held, or `default` when there is none. */
    function GetOr(default: T): T {
      match this
      case Some(v) => v
      case None => default
    }
  }
}
