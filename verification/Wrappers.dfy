/** Values that may be missing, operations that may fail, and picking elements of sets. */
module Wrappers {
  datatype Option<+T> = None | Some(value: T)

  datatype Result<+T, +E> = Ok(value: T) | Err(error: E) {
    predicate IsFailure() {
      Err?
    }

    function PropagateFailure<U>(): Result<U, E>
      requires Err?
    {
      Err(error)
    }

    function Extract(): T
      requires Ok?
    {
      value
    }
  }

  /** Some element of a non-empty set. */
  ghost function Choose<T>(s: set<T>): (x: T)
    requires s != {}
    ensures x in s
  {
    var x :| x in s;
    x
  }

  /** One step of a `range` loop over a Go map: any remaining key may come next. */
  method NextKey<T(==)>(rest: set<T>) returns (x: T)
    requires rest != {}
    ensures x in rest
  {
    x :| x in rest;
  }
}
