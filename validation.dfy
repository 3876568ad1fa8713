/** `validateInput`: the origin and destination checks made before any network call. */
module Validation {
  import opened Wrappers
  import opened Text
  import opened Json
  import opened Errors

  /** `!v?.trim()` holds: `undefined?.trim()` short-circuits to undefined, and a
      string is falsy once trimmed when it is all whitespace. */
  predicate TrimsToNothing(v: Value) {
    v.Null? || (v.Str? && Blank(v.s))
  }

  /** `if (!v?.trim()) throw new RouteError(..., code)`: undefined and a blank string
      are rejected with `code`; calling `trim` on a boolean, number or object throws
      a `TypeError`. */
  function TrimCheck(v: Value, code: string): (r: Outcome<Thrown>)
    ensures r == Pass <==> v.Str? && !Blank(v.s)
    ensures r == Fail(Reject(code)) <==> TrimsToNothing(v)
    ensures r == Fail(Plain) <==> !v.Str? && !v.Null?
  {
    match v
    case Null => Fail(Reject(code))
    case Str(s) =>
      TrimEmptyIffBlank(s);
      if Trim(s) == "" then Fail(Reject(code)) else Pass
    case _ => Fail(Plain)
  }

  /** `validateInput(origin, destination, arrivalTime)`; the arrival time is not inspected. */
  function ValidateInput(origin: Value, destination: Value): (r: Outcome<Thrown>)
    ensures r == Pass <==> origin.Str? && !Blank(origin.s) && destination.Str? && !Blank(destination.s)
    ensures r == Fail(Reject(InvalidOrigin)) <==> TrimsToNothing(origin)
    ensures r == Fail(Reject(InvalidDestination)) <==> origin.Str? && !Blank(origin.s) && TrimsToNothing(destination)
    ensures r == Fail(Plain) <==>
              (!origin.Str? && !origin.Null?) || (origin.Str? && !Blank(origin.s) && !destination.Str? && !destination.Null?)
  {
    match TrimCheck(origin, InvalidOrigin)
    case Fail(t) => Fail(t)
    case Pass => TrimCheck(destination, InvalidDestination)
  }
}
