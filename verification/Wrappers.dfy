/** Optional values, results that carry an error, used with `:-`, and array slices. */
module Wrappers {
  datatype Option<+T> = None | Some(value: T) {
    function GetOr(default: T): T {
      match this
      case Some(v) => v
      case None => default
    }
  }

  datatype Result<+T, +E> = Ok(value: T) | Err(error: E) {
    predicate IsFailure() {
      Err?
    }

    function PropagateFailure<U>(): Result<U, E>
      requires Err?
    {
      Err(error)
    }

    function Extract(): T
      requires Ok?
    {
      value
    }
  }

  /** `slice(from, to)` of an array, for natural bounds. */
  function Slice<T>(s: seq<T>, from: nat, to: nat): seq<T> {
    if from >= |s| || to <= from then [] else if to >= |s| then s[from..] else s[from..to]
  }
}
