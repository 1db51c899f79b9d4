/** The JavaScript values request bodies and form fields carry, as far as
    the handlers distinguish them. */
module Js {

  /** A possibly absent value; `None` is `undefined` or `null`. */
  datatype Option<+T> = None | Some(value: T) {
    function GetOr(default: T): T
    {
      match this
      case Some(v) => v
      case None => default
    }
  }

  /** JavaScript truthiness of an optional string: absent and "" are falsy. */
  predicate Truthy(s: Option<string>)
  {
    s.Some? && s.value != ""
  }

  /** `s || fallback` for an optional string. */
  function OrElse(s: Option<string>, fallback: string): (r: string)
    ensures Truthy(s) ==> r == s.value
    ensures !Truthy(s) ==> r == fallback
  {
    if Truthy(s) then s.value else fallback
  }

  /** A numeric request field. `Num` covers numbers and numeric strings
      (including "", which converts to 0); `NonNumeric` is a non-empty
      string that does not read as a number. */
  datatype NumInput = Undefined | Null | Num(n: int) | NonNumeric

  /** JavaScript truthiness of a numeric field. */
  predicate NumTruthy(x: NumInput)
  {
    (x.Num? && x.n != 0) || x.NonNumeric?
  }

  /** `Number(x)`; `None` stands for NaN. */
  function ToNumber(x: NumInput): (r: Option<int>)
    ensures r.None? <==> x.Undefined? || x.NonNumeric?
    ensures x.Null? ==> r == Some(0)
    ensures x.Num? ==> r == Some(x.n)
  {
    match x
    case Undefined => None
    case Null => Some(0)
    case Num(n) => Some(n)
    case NonNumeric => None
  }
}
