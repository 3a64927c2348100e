/** Failure-compatible wrappers used by every module of the model. */
module Wrappers {

  /** An optional value (Rust's `Option`). */
  datatype Option<+T> = None | Some(value: T) {
    predicate IsFailure() { None? }

    function PropagateFailure<U>(): Option<U>
      requires None?
    {
      None
    }

    function Extract(): T
      requires Some?
    {
      value
    }

    function GetOr(default: T): T {
      match this
      case Some(v) => v
      case None => default
    }

    /** `a.or(b)`: this value when present, otherwise `other`. */
    function Or(other: Option<T>): Option<T> {
      if Some? then this else other
    }
  }

  /** A value or an error message (Rust's `anyhow::Result`). */
  datatype Result<+R> = Ok(value: R) | Err(error: string) {
    predicate IsFailure() { Err? }

    function PropagateFailure<U>(): Result<U>
      requires Err?
    {
      Err(error)
    }

    function Extract(): R
      requires Ok?
    {
      value
    }
  }

  /** `option.context(msg)`: turns a missing value into an error. */
  function OkOr<T>(o: Option<T>, msg: string): (r: Result<T>)
    ensures o.Some? ==> r == Ok(o.value)
    ensures o.None? ==> r == Err(msg)
  {
    match o
    case Some(v) => Ok(v)
    case None => Err(msg)
  }
}
