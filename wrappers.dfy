/** Failure-compatible Option, used for every "decode may fail" outcome.
    A C++ `std::optional` left empty and an escaping `std::out_of_range` both become `None`. */
module Wrappers {

  datatype Option<+T> = None | Some(value: T) {

    predicate IsFailure() {
      None?
    }

    function PropagateFailure<U>(): Option<U>
      requires None?
    {
      None
    }

    function Extract(): T
      requires Some?
    {
      value
    }
  }
}
