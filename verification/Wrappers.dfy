/** An optional value, and a value or the error that refused it. */
module Wrappers {

  datatype Option<+T> = None | Some(value: T)

  /** A new value where one is given, else the one there was. */
  function Or<T>(given: Option<T>, was: T): (now: T)
    ensures given == Some(now) || (given.None? && now == was)
  {
    if given.Some? then given.value else was
  }

  datatype Result<+T, +E> = Ok(value: T) | Err(error: E) {
    predicate IsFailure() {
      Err?
    }

    function PropagateFailure<U>(): Result<U, E>
      requires Err?
    {
      Err(error)
    }

    function Extract(): T
      requires Ok?
    {
      value
    }
  }
}
