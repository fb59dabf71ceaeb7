/** The handlers' readings of loosely typed request fields. */
module Requests {
  import opened Common
  import opened JsString

  /** `!x || typeof x !== 'string'`, negated: a non-empty string. */
  predicate ValidId(id: Arg)
  {
    id.Text? && id.s != ""
  }

  /** `(x || "").trim()`: a falsy field gives `""`, and a truthy one that is
      not a string has no `trim` method, so calling it throws. */
  function TrimmedArg(a: Arg): (r: Result<string>)
    ensures r.Err? <==> a.Other? && a.truthy
    ensures r.Ok? ==> Trimmed(r.value)
    ensures a.Text? ==> r == Ok(Trim(a.s))
  {
    match a
    case Absent => Ok("")
    case Text(s) => Ok(Trim(s))
    case Other(t) => if t then Err(Internal) else Ok("")
  }

  /** `x?.trim() || ''` for an optional text field: a missing field (`null`
      or `undefined`) and a blank one give `""`; any other non-string value
      has no `trim` method, and calling it throws. */
  function OptionalTrim(a: Arg): (r: Result<string>)
    ensures r.Err? <==> a.Other?
    ensures r.Ok? ==> Trimmed(r.value)
  {
    match a
    case Absent => Ok("")
    case Text(s) => Ok(Trim(s))
    case Other(_) => Err(Internal)
  }
}
