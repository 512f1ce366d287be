/** Optional values. */
module Wrappers {

  /** A value or nothing; in a function `:-` passes nothing on. */
  datatype Option<+T> = None | Some(value: T) {
    predicate IsFailure() {
      None?
    }

    function PropagateFailure<U>(): (none: Option<U>)
      requires None?
    {
      None
    }

    function Extract(): (v: T)
      requires Some?
    {
      value
    }
  }
}
