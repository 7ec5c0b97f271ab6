/** The option type shared by every module of this project. */
module Wrappers {
  datatype Option<+T> = None | Some(value: T) {
    function GetOr(fallback: T): T {
      if Some? then value else fallback
    }
  }
}
