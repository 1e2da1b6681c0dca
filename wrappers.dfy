/** A C# nullable value (`T?`, or a reference that may be null) is an Option. */
module Wrappers {

  datatype Option<+T> = None | Some(value: T) {

    /** The `??` operator: the value when there is one, otherwise the given default. */
    function GetOr(default: T): T {
      match this
      case Some(v) => v
      case None => default
    }
  }
}
