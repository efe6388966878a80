/** The optional-value wrapper shared by every module of the model. A JavaScript
    `undefined` or `null` is `None`. It supports `:-` for decoders that give up at
    the first missing piece. */
module Wrappers {

  datatype Option<+T> = None | Some(value: T) {

    predicate IsFailure() {
      None?
    }

    function PropagateFailure<U>(): Option<U>
      requires None?
    {
      None
    }

    function Extract(): T
      requires Some?
    {
      value
    }
  }
}
