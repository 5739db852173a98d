/**
 * The price filter of frontend/src/components/entity/product/ProductFilter.tsx:
 * two text inputs whose contents are the state, and three events that each
 * update the state and report a (min, max) pair to `onFilterChange`.
 *
 * `parseFloat` is a parameter; an empty input is reported as `null` (None)
 * and never reaches it.
 */
module ProductFilter {
  import opened Js

  /** The two state variables `minPrice` and `maxPrice`, as typed. */
  datatype FilterState = FilterState(minText: string, maxText: string)

  /** Both inputs start empty. */
  const InitialFilter := FilterState("", "")

  /** The arguments of one `onFilterChange(minPrice, maxPrice)` call. */
  datatype Report = Report(minPrice: Option<Number<real>>, maxPrice: Option<Number<real>>)

  /** The three handlers. */
  datatype Event = MinChanged(value: string) | MaxChanged(value: string) | Cleared

  /** `value === '' ? null : parseFloat(value)`. */
  function Bound(text: string, parseFloat: string -> Number<real>): (b: Option<Number<real>>)
    ensures b == None <==> text == ""
    ensures b.Some? ==> b.value == parseFloat(text)
  {
    if text == "" then None else Some(parseFloat(text))
  }

  /** `handleMinPriceChange`: stores the new min text; the max bound comes from the stored max text. */
  function HandleMinPriceChange(s: FilterState, value: string, parseFloat: string -> Number<real>)
    : (r: (FilterState, Report))
    ensures r.0.minText == value && r.0.maxText == s.maxText
    ensures r.1.minPrice == Bound(value, parseFloat) && r.1.maxPrice == Bound(s.maxText, parseFloat)
  {
    (s.(minText := value), Report(Bound(value, parseFloat), Bound(s.maxText, parseFloat)))
  }

  /** `handleMaxPriceChange`: stores the new max text; the min bound comes from the stored min text. */
  function HandleMaxPriceChange(s: FilterState, value: string, parseFloat: string -> Number<real>)
    : (r: (FilterState, Report))
    ensures r.0.maxText == value && r.0.minText == s.minText
    ensures r.1.minPrice == Bound(s.minText, parseFloat) && r.1.maxPrice == Bound(value, parseFloat)
  {
    (s.(maxText := value), Report(Bound(s.minText, parseFloat), Bound(value, parseFloat)))
  }

  /** `handleClearFilters`: both inputs emptied, `(null, null)` reported. */
  function HandleClearFilters(s: FilterState): (r: (FilterState, Report))
    ensures r.0 == InitialFilter && r.1.minPrice.None? && r.1.maxPrice.None?
  {
    (InitialFilter, Report(None, None))
  }

  /** One event: its handler's new state and report. */
  function Step(s: FilterState, e: Event, parseFloat: string -> Number<real>): (r: (FilterState, Report)) {
    match e
    case MinChanged(v) => HandleMinPriceChange(s, v, parseFloat)
    case MaxChanged(v) => HandleMaxPriceChange(s, v, parseFloat)
    case Cleared => HandleClearFilters(s)
  }

  /** The state after a sequence of events. */
  function Run(s: FilterState, events: seq<Event>, parseFloat: string -> Number<real>): (r: FilterState)
    decreases |events|
  {
    if |events| == 0 then s else Run(Step(s, events[0], parseFloat).0, events[1..], parseFloat)
  }

  /** What the inputs currently say, as `onFilterChange` would receive it. */
  function Reading(s: FilterState, parseFloat: string -> Number<real>): (r: Report) {
    Report(Bound(s.minText, parseFloat), Bound(s.maxText, parseFloat))
  }

  // ---------------------------------------------------------------------
  // Lemmas

  /** Whatever the event, the report describes exactly the state the handler leaves behind. */
  lemma StepReportsNewState(s: FilterState, e: Event, parseFloat: string -> Number<real>)
    ensures Step(s, e, parseFloat).1 == Reading(Step(s, e, parseFloat).0, parseFloat)
  {
  }

  /** An input left empty is never reported as a number. */
  lemma EmptyInputIsNull(s: FilterState, e: Event, parseFloat: string -> Number<real>)
    ensures Step(s, e, parseFloat).0.minText == "" ==> Step(s, e, parseFloat).1.minPrice == None
    ensures Step(s, e, parseFloat).0.maxText == "" ==> Step(s, e, parseFloat).1.maxPrice == None
  {
    StepReportsNewState(s, e, parseFloat);
  }

  /** Clearing twice is clearing once. */
  lemma ClearIdempotent(s: FilterState)
    ensures HandleClearFilters(HandleClearFilters(s).0) == HandleClearFilters(s)
  {
  }

  /** Changing min then max, or max then min, ends in the same state and the same last report. */
  lemma MinMaxChangesCommute(s: FilterState, lo: string, hi: string, parseFloat: string -> Number<real>)
    ensures HandleMaxPriceChange(HandleMinPriceChange(s, lo, parseFloat).0, hi, parseFloat)
         == HandleMinPriceChange(HandleMaxPriceChange(s, hi, parseFloat).0, lo, parseFloat)
  {
  }

  /** A run that ends with Clear leaves both inputs empty, whatever came before. */
  lemma {:induction false} RunEndsWithClear(s: FilterState, events: seq<Event>, parseFloat: string -> Number<real>)
    requires |events| > 0 && events[|events| - 1] == Cleared
    ensures Run(s, events, parseFloat) == InitialFilter
    decreases |events|
  {
    if |events| > 1 {
      RunEndsWithClear(Step(s, events[0], parseFloat).0, events[1..], parseFloat);
    }
  }
}
