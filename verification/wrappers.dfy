/** Optional values and loosely typed JSON fields, as the storefront probes them. */
module Wrappers {

  /** `None` stands for JavaScript's `null` and `undefined` alike: every
      place the storefront tests for a missing value uses `??` or `?.`,
      which do not tell the two apart. */
  datatype Option<+T> = None | Some(value: T) {

    /** `this ?? fallback` */
    function GetOr(fallback: T): T {
      match this
      case Some(v) => v
      case None => fallback
    }
  }

  /** A JSON field whose type the code checks with `typeof` before use:
      a number, a string, or anything else (missing, `null`, an object). */
  datatype Scalar = Missing | Num(n: int) | Str(s: string)

  /** The number a loosely typed field stands for: a number as is, a
      string through `parse` (which stands for `Number(s)` followed by the
      `Number.isFinite` test), and nothing otherwise. */
  function AsNumber(v: Scalar, parse: string -> Option<int>): Option<int> {
    match v
    case Num(n) => Some(n)
    case Str(s) => parse(s)
    case Missing => None
  }
}
