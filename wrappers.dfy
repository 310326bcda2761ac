/** Option stands for a Java reference that may be null, and for a computation that may throw. */
module Wrappers {

  datatype Option<+T> = None | Some(value: T) {

    /** True if is None */
    predicate IsFailure() {
      None?
    }

    /** Carries a None over to an Option of another value type */
    function PropagateFailure<U>(): Option<U>
      requires None?
    {
      None
    }

    /** The value inside Some */
    function Extract(): T
      requires Some?
    {
      value
    }
  }
}
