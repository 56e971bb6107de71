/** The optional value used throughout the model in place of Go's nil and of a panic's missing result,
    and the smaller of two numbers. */
module Wrappers {
  datatype Option<+T> = None | Some(value: T) {
    predicate IsFailure() { None? }

    function PropagateFailure<U>(): Option<U>
      requires None?
    {
      None
    }

    function Extract(): T
      requires Some?
    {
      value
    }
  }

  function Least(m: int, n: int): int { if m <= n then m else n }
}
