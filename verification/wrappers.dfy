/** The failure-compatible optional value used throughout the model.
    `None` stands for the null pugixml node, a missing table entry, a line
    that does not parse, or an expansion that runs out of depth. */
module Wrappers {

  datatype Option<+T> = None | Some(value: T) {

    /** True if this is None; lets `:-` propagate the failure. */
    predicate IsFailure() {
      None?
    }

    /** Converts a None to an Option of another value type. */
    function PropagateFailure<U>(): Option<U>
      requires None?
    {
      None
    }

    /** The value held by Some. */
    function Extract(): T
      requires Some?
    {
      value
    }

    /** The value held by Some, or `default` for None. */
    function GetOr(default: T): T {
      match this
      case Some(v) => v
      case None => default
    }
  }
}
