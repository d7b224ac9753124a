/** Small datatypes shared by the other modules. */
module Basics {

  /** A value that may be absent: a null pointer or an empty `std::optional`. */
  datatype Option<+T> = None | Some(value: T)
  {
    predicate IsFailure() {
      None?
    }

    function PropagateFailure<U>(): Option<U>
      requires None?
    {
      None
    }

    function Extract(): T
      requires Some?
    {
      value
    }
  }

  /** A byte on the wire or in a fixed buffer. */
  newtype byte = x: int | 0 <= x < 256
}
