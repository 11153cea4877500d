/** The optional value used for the keys a state dictionary may lack. */
module Wrappers {

  datatype Option<+T> = None | Some(value: T) {

    /** `d.get(key, default)` once the lookup has been made. */
    function GetOr(default: T): T
    {
      match this
      case Some(v) => v
      case None => default
    }
  }
}
