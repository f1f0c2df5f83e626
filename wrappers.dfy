// Option and Result values shared by every module of the model.
// Java's null and Optional, and TypeScript's null/undefined, become Option;
// a thrown exception whose message the caller sees becomes Result.Err.
module Wrappers {

  datatype Option<T> = None | Some(value: T)
  {
    predicate IsSome() { Some? }

    function GetOr(default: T): (r: T)
      ensures Some? ==> r == value
      ensures None? ==> r == default
    {
      match this
      case Some(v) => v
      case None => default
    }
  }

  datatype Result<T> = Ok(value: T) | Err(error: string)
}
