/**
 * What the date typer takes from its host: JavaScript's Date objects and the
 * caller's formatter. Their calendar arithmetic is not modelled; they are
 * uninterpreted functions the widget is given.
 */
module HostDate {
  import opened JsValues

  /** The six calendar fields the widget knows (DateTyper.js:127-134). */
  datatype FieldKind = Year | Month | Day | Hour | Minute | Second

  /** The time value of a Date: milliseconds since the epoch, or NaN. */
  datatype TimeValue = Invalid | Time(ms: int)

  datatype Host = Host(
    /** `new Date(year, monthIndex, day, hours, minutes, seconds)` in local time. */
    construct: (int, int, int, int, int, int) -> TimeValue,
    /**
     * The setter a field applies to a date: `setFullYear`, `setMonth`,
     * `setDate`, `setHours`, `setMinutes` or `setSeconds`, given a number that
     * may be NaN.
     */
    setField: (FieldKind, TimeValue, Option<int>) -> TimeValue,
    /** The caller's `dateFormatter` (DateTyper.js:26). */
    format: TimeValue -> string
  )
}
