/**
 * The vocabulary shared by the navigation bar and the week-number column:
 * dates, views, calendar types, and the date library they call.
 *
 * The date library (period stepping, days in month, weekday, ISO week
 * number, labels) and the locale-dependent month/year formatter are not part
 * of this model. They are passed in as a record of functions, `DateLib`, and
 * the callers state as `requires` only the ranges of their results that the
 * modelled code relies on.
 */
module Dates {

  /** A JavaScript `Date`; relational operators compare its millisecond timestamp. */
  type Date = int

  /** A view string that is none of the four view names the calendar knows. */
  type OtherViewName = s: string | s !in ["century", "decade", "year", "month"] witness "week"

  /** The granularity shown by the calendar; `Unknown` is any other string. */
  datatype View = Century | Decade | Year | Month | Unknown(name: OtherViewName)

  /** The four views the calendar knows, coarsest first. */
  const AllViews: seq<View> := [Century, Decade, Year, Month]

  /** Whether weeks start on Monday (ISO 8601) or on Sunday (US). */
  datatype CalendarType = ISO8601 | US

  /** The functions the two components import from the date helpers. */
  datatype DateLib = DateLib(
    beginPrevious: (View, Date) -> Date,
    beginPrevious2: (View, Date) -> Date,
    beginNext: (View, Date) -> Date,
    beginNext2: (View, Date) -> Date,
    fullYear: Date -> int,
    centuryLabel: Date -> string,
    decadeLabel: Date -> string,
    year: Date -> int,
    formatMonthYear: Date -> string,
    daysInMonth: Date -> int,
    dayOfWeek: (Date, CalendarType) -> int,
    weekNumber: (Date, CalendarType) -> int)
}
