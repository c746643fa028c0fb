/** The Option type: the "(value, ok)" and "(value, err)" pairs that the Go
    library functions used by the configuration loader return. */
module Wrappers {

  datatype Option<+T> = None | Some(value: T) {

    /** The value if there is one, otherwise `default`: the
        "if err != nil { x = default }" pattern. */
    function GetOr(default: T): (r: T)
      ensures Some? ==> r == value
      ensures None? ==> r == default
    {
      match this
      case Some(v) => v
      case None => default
    }
  }
}
