/** The optional value used wherever a reading or a parse may be absent. */
module Wrappers {

  /** `None` stands for an undefined reading (a gauge whose source object
      is gone) or for text that does not parse. Usable with `:-`. */
  datatype Option<+T> = None | Some(value: T) {

    predicate IsFailure() {
      None?
    }

    function PropagateFailure<U>(): Option<U>
      requires None?
    {
      None
    }

    function Extract(): T
      requires Some?
    {
      value
    }
  }
}
