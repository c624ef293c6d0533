/**
 * The request-parameter validators of CrawData/src/utils/validation.ts.
 * `Number(...)` is the integer model of JsValues.ToNumber.
 */
module Validation {
  import opened Wrappers
  import opened JsValues

  /** `isValidNumber`: a number that is not NaN, or a string that `Number` does not turn into NaN. */
  function IsValidNumber(v: JsValue): (r: bool)
    ensures !v.Num? && !v.NaN? && !v.Str? ==> !r
    ensures v.Num? ==> r
    ensures v.NaN? ==> !r
    ensures v.Str? ==> (r <==> StringToNumber(v.s).Some?)
    ensures v.Str? && AllSpace(v.s) ==> r
  {
    if TypeOf(v) == "number" then v != NaN
    else if TypeOf(v) == "string" then ToNumber(v) != None
    else false
  }

  /** `sanitizeString`: the trimmed string, or `undefined` (None) for a non-string or a blank string. */
  function SanitizeString(v: JsValue): (r: Option<string>)
    ensures !v.Str? ==> r == None
    ensures v.Str? ==> (r == None <==> AllSpace(v.s))
    ensures r.Some? ==> r.value != [] && TrimOf(v.s, r.value)
  {
    if TypeOf(v) != "string" then None
    else
      var t := Trim(v.s);
      if t != "" then Some(t) else None
  }

  /** Sanitising a sanitised string gives it back. */
  lemma SanitizeStringIdempotent(v: JsValue)
    requires SanitizeString(v).Some?
    ensures SanitizeString(Str(SanitizeString(v).value)) == SanitizeString(v)
  {
    TrimTrimmed(SanitizeString(v).value);
  }

  const DefaultPage := 1
  const DefaultLimit := 24
  const MaxLimit := 100

  datatype PageParams = PageParams(page: int, limit: int)

  /** `Number(v) || d`: the converted number unless it is 0 or NaN. */
  function NumberOr(v: JsValue, d: int): int
  {
    var n := ToNumber(v);
    if n.Some? && n.value != 0 then n.value else d
  }

  function Max(a: int, b: int): int { if a >= b then a else b }
  function Min(a: int, b: int): int { if a <= b then a else b }

  /**
   * `validatePaginationParams`: the page is at least 1 and the limit lies
   * in [1, 100]. A missing, zero or non-numeric page gives 1 and such a
   * limit gives 24; a page or limit already in range is kept; a negative
   * limit becomes 1 and one above 100 becomes 100.
   */
  function ValidatePaginationParams(page: JsValue, limit: JsValue): (r: PageParams)
    ensures r.page >= 1
    ensures 1 <= r.limit <= MaxLimit
    ensures ToNumber(page) in {None, Some(0)} ==> r.page == DefaultPage
    ensures ToNumber(limit) in {None, Some(0)} ==> r.limit == DefaultLimit
    ensures forall p :: ToNumber(page) == Some(p) && p >= 1 ==> r.page == p
    ensures forall p :: ToNumber(page) == Some(p) && p < 0 ==> r.page == 1
    ensures forall l :: ToNumber(limit) == Some(l) && 1 <= l <= MaxLimit ==> r.limit == l
    ensures forall l :: ToNumber(limit) == Some(l) && l < 0 ==> r.limit == 1
    ensures forall l :: ToNumber(limit) == Some(l) && l > MaxLimit ==> r.limit == MaxLimit
  {
    PageParams(Max(1, NumberOr(page, DefaultPage)), Min(MaxLimit, Max(1, NumberOr(limit, DefaultLimit))))
  }
}
