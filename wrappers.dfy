/** Option, Result and the three-valued optional field of TypeScript records. */
module Wrappers {

  /** A value that may be absent: `T | null` (or `T | undefined`). */
  datatype Option<+T> = None | Some(value: T) {
    /** `x ?? d` */
    function GetOr(default: T): T {
      if Some? then value else default
    }
  }

  /** The outcome of a call that can throw `new Error(message)`. */
  datatype Result<+T> = Ok(value: T) | Err(message: string)

  /** A TypeScript field declared `x?: T | null`: left out, set to `null`, or set to a value. */
  datatype Nullable<+T> = Missing | Null | Present(value: T)

  /** `x ?? null`: an absent field becomes `null`. */
  function OrNull<T>(x: Nullable<T>): (r: Option<T>)
    ensures r.Some? <==> x.Present?
    ensures x.Present? ==> r.value == x.value
  {
    match x
    case Present(v) => Some(v)
    case _ => None
  }
}
