/** The classification that `getCategoryId` and `getProductId` apply to the
    lookup endpoint's HTTP response.  The request itself is not modelled: a
    lookup is represented by what came back. */
module Lookup {
  import opened Json

  /** The response body: either it fails to parse as JSON (so
      `response.json()` throws), or it parses and `data?.id` is the given
      value (`None` for a missing `id`, a `null` body, or a `null` id). */
  datatype Body = Unparsable | Parsed(id: Option<string>)

  /** What one GET on the lookup endpoint produced. */
  datatype Fetch = NetworkFault | Responded(status: int, body: Body)

  /** What `getCategoryId` / `getProductId` did: threw, or returned an id
      (`Some`) or `null` (`None`). */
  datatype Answer = Threw | Returned(id: Option<string>)

  /** `response.ok`: the status is in the 200-299 range. */
  predicate IsOk(status: int)
  {
    200 <= status <= 299
  }

  /** The answer of a lookup: 404 and every other non-ok status give `null`,
      an ok response gives its body's `id` when that is truthy and `null`
      otherwise; a network fault or an unparsable ok body is an exception. */
  function Classify(f: Fetch): (a: Answer)
    ensures a.Threw? <==> f.NetworkFault? || (IsOk(f.status) && f.body.Unparsable?)
    ensures f.Responded? && f.status == 404 ==> a == Returned(None)
    ensures f.Responded? && !IsOk(f.status) ==> a == Returned(None)
    ensures (a.Returned? && a.id.Some?) <==>
              (f.Responded? && IsOk(f.status) && f.body.Parsed? && f.body.id.Some? && f.body.id.value != "")
    ensures a.Returned? && a.id.Some? ==> a.id == f.body.id
  {
    match f
    case NetworkFault => Threw
    case Responded(status, body) =>
      if status == 404 then Returned(None)
      else if !IsOk(status) then Returned(None)
      else match body
        case Unparsable => Threw
        case Parsed(id) => if id.Some? && id.value != "" then Returned(id) else Returned(None)
  }

  /** The id `processCategoryData` / `processProductData` obtain from a
      lookup: an exception is caught and, like a `null` answer, yields no id. */
  function ResolvedId(f: Fetch): (r: Option<string>)
    ensures r.Some? <==> f.Responded? && IsOk(f.status) && f.body.Parsed? && f.body.id.Some? && f.body.id.value != ""
    ensures r.Some? ==> r == f.body.id
  {
    match Classify(f)
    case Threw => None
    case Returned(id) => id
  }
}
