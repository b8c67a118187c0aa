# react-calendar navigation and week numbers, in Dafny

This project models two components of the react-calendar date picker.

- **Navigation** (`src/Calendar/Navigation.jsx`) is the bar above the calendar. It decides whether the label button can drill up and whether drilling down is available, from where the current view sits in the configured list of views. It decides whether each of the four step buttons (prev, prev2, next, next2) is disabled, given a year-1000 floor and the optional `minDate`/`maxDate` bounds. It decides which date each button passes to `setActiveStartDate`, what the label shows, and which buttons are rendered. The two double-step buttons are hidden in century view.
- **WeekNumbers** (`src/MonthView/WeekNumbers.jsx`) is the column beside the month grid. It computes how many week rows the month spans from the month length and the weekday of its first day. It then lists one week number per row, counting up from the first row's number; anything above 52 is taken modulo 52.

Both components are pure: every getter is an expression over the component's props. So the model is made of Dafny functions over a props snapshot (`Navigation.Props`), plus lemmas relating them.

The date helpers the components import are not part of this model. These are `getBeginPrevious`, `getBeginNext`, the double steps, `getDaysInMonth`, `getDayOfWeek`, `getWeekNumber`, the century/decade/year labels and `formatMonthYear`. The model takes them as a parameter: `Dates.DateLib`, a record of functions. Only the result ranges the modelled code relies on are assumed, as `requires`: days in month in 28..31, weekday in 0..6, week number in 1..53. A `Date` is its millisecond timestamp (an `int`), because JavaScript compares dates numerically. `getFullYear` is the abstract `fullYear` field of the record.

A view is `Century`, `Decade`, `Year`, `Month` or `Unknown(name)`, where `name` is any string other than the four view names. The label of an unknown view is the error `InvalidView(name)`; the source throws an `Error` here. `getYear` returns a number, not a string, so the label is either `Text(s)` or `YearNumber(y)`.

For February 2021 (28 days, starting on a Monday in ISO week 5) the code yields four rows, weeks 5 to 8 (`WeekNumbers.February2021`).

## Model

| member | source | states |
|---|---|---|
| `Navigation.IndexOf` | src/Calendar/Navigation.jsx:18-26 | `views.indexOf(view)`: -1 exactly when the view is absent; otherwise a position holding the view with no earlier occurrence |
| `Navigation.DrillDownAvailable` | src/Calendar/Navigation.jsx:18-21 | true iff the list is non-empty and the view either is absent from it or occurs before the last position |
| `Navigation.DrillUpAvailable` | src/Calendar/Navigation.jsx:23-26 | true iff the view occurs in the list and is not its first element; false for an absent view |
| `Navigation.DrillFromMissingView` | src/Calendar/Navigation.jsx:18-26 | for a view missing from the list, drill-down is available exactly when the list is non-empty, and drill-up never is |
| `Navigation.DrillYearMonthList` | src/Calendar/Navigation.jsx:18-26 | with views `[year, month]`, year view drills down but not up, and month view drills up but not down |
| `Navigation.PrevButtonDisabled` | src/Calendar/Navigation.jsx:28-35 | prev is enabled iff the previous period starts in year 1000 or later and `minDate` is unset or before the anchor date |
| `Navigation.Prev2ButtonDisabled` | src/Calendar/Navigation.jsx:37-44 | prev2 is enabled iff the period two steps back starts in year 1000 or later and `minDate` is unset or before the anchor date |
| `Navigation.NextButtonDisabled` | src/Calendar/Navigation.jsx:46-50 | next is enabled iff `maxDate` is unset or after the start of the next period |
| `Navigation.Next2ButtonDisabled` | src/Calendar/Navigation.jsx:52-56 | next2 is enabled iff `maxDate` is unset or after the start of the period two steps ahead |
| `Navigation.PrevBelowFloorDisabled` | src/Calendar/Navigation.jsx:28-33 | if the previous period starts before year 1000, prev is disabled whatever `minDate` is |
| `Navigation.Prev2BelowFloorDisabled` | src/Calendar/Navigation.jsx:37-42 | the same for prev2, with the double backward step |
| `Navigation.PrevPastFloor` | src/Calendar/Navigation.jsx:28-35 | past the floor, prev is disabled iff `minDate` is set and `minDate >= activeStartDate`; with no `minDate` it is enabled |
| `Navigation.Prev2PastFloor` | src/Calendar/Navigation.jsx:37-44 | the same for prev2 |
| `Navigation.PrevBoundUsesAnchorDate` | src/Calendar/Navigation.jsx:28-35 | past the floor, the disabled state does not depend on which date the backward step lands on, only on the anchor date |
| `Navigation.BackwardButtonsAgreePastFloor` | src/Calendar/Navigation.jsx:28-44 | when both floor checks pass, prev and prev2 are both disabled or both enabled |
| `Navigation.ForwardWithoutMax` | src/Calendar/Navigation.jsx:46-56 | with no `maxDate`, next and next2 are never disabled |
| `Navigation.BoundsAreOneSided` | src/Calendar/Navigation.jsx:28-56 | next and next2 depend neither on the year floor nor on `minDate`; prev and prev2 do not depend on `maxDate` |
| `Navigation.TighterBoundsDisableMore` | src/Calendar/Navigation.jsx:28-56 | raising `minDate` or lowering `maxDate` never re-enables a disabled step button |
| `Navigation.OnClickPrevious` | src/Calendar/Navigation.jsx:58-61 | emits the start of the previous period; when prev is enabled, that date's year is at least 1000 |
| `Navigation.OnClickNext` | src/Calendar/Navigation.jsx:63-66 | emits the start of the next period; next is disabled iff `maxDate` is set and not after that date |
| `Navigation.OnClickPrevious2` | src/Calendar/Navigation.jsx:68-71 | emits the start of the period two steps back; when prev2 is enabled, its year is at least 1000 |
| `Navigation.OnClickNext2` | src/Calendar/Navigation.jsx:73-76 | emits the start of the period two steps ahead; next2 is disabled iff `maxDate` is set and not after that date |
| `Navigation.Label` | src/Calendar/Navigation.jsx:78-93 | fails iff the view is none of the four known views, with `InvalidView` naming it; otherwise century, decade, year and month dispatch to the century label, decade label, year number and month/year formatter |
| `Navigation.Controls` | src/Calendar/Navigation.jsx:95-145 | rendering reads the label first, so it fails with the label's `InvalidView` error exactly when the view is none of the four known views; otherwise prev, the label button and next are rendered, prev2 and next2 iff the view is not century, and no button appears twice |
| `Navigation.Disabled` | src/Calendar/Navigation.jsx:104-145 | the `disabled` attribute of each button: the label button is disabled iff the view is missing from the list or first in it; prev and prev2 are enabled iff the date they would emit is in year 1000 or later and `minDate` is unset or before the anchor date; next and next2 are disabled iff `maxDate` is set and not after the date they would emit |
| `Navigation.CenturyView` | src/Calendar/Navigation.jsx:78-145 | in century view only prev, label and next are rendered, and the label is the century label |
| `WeekNumbers.NumberOfWeeks` | src/MonthView/WeekNumbers.jsx:12-32 | reads the date library through the delegating getters `NumberOfDays` and `StartWeekday`; the result is the least number of 7-cell rows holding the first day's offset and every day of the month; 4 to 6 rows for 28-31 days and an offset of 0-6 |
| `WeekNumbers.Wrap` | src/MonthView/WeekNumbers.jsx:39 | the shown value is congruent to the raw one modulo 52, never larger, the raw value itself up to 52, and in 1-52 for raw values 1-103 |
| `WeekNumbers.CeilDiv7` | src/MonthView/WeekNumbers.jsx:29 | `Math.ceil(x / 7)` on an integer: the least `r` with `x <= 7r` |
| `WeekNumbers.WeeksSpanned` | src/MonthView/WeekNumbers.jsx:27-32 | `1 + ceil((days - (7 - weekday)) / 7)` is the least number of 7-cell rows that hold `weekday` blank cells followed by `days` day cells |
| `WeekNumbers.WeeksSpannedBounds` | src/MonthView/WeekNumbers.jsx:27-32 | for 28-31 days and weekday 0-6, the month spans four to six rows |
| `WeekNumbers.WeeksSpannedExtremes` | src/MonthView/WeekNumbers.jsx:27-32 | 28 days from weekday 0 span exactly 4 rows; one more day or one more offset gives 5; 31 days from weekday 5 or 30 from weekday 6 give 6 |
| `WeekNumbers.WeeksSpannedMonotone` | src/MonthView/WeekNumbers.jsx:27-32 | the row count never decreases as the day count or the starting weekday grows |
| `WeekNumbers.WrapProperties` | src/MonthView/WeekNumbers.jsx:39 | a raw 53 is shown as 1, the same as week 1 |
| `WeekNumbers.WeekNumberSequence` | src/MonthView/WeekNumbers.jsx:36-39 | the pipeline yields exactly one entry per row |
| `WeekNumbers.WeekNumberSequenceAt` | src/MonthView/WeekNumbers.jsx:36-39 | entry `i` is the wrapped value of `start + i` |
| `WeekNumbers.WeekNumbersInRange` | src/MonthView/WeekNumbers.jsx:36-39 | from a week number in 1-53, up to six rows show only numbers in 1-52 |
| `WeekNumbers.WeekNumbersConsecutive` | src/MonthView/WeekNumbers.jsx:36-39 | each entry is the previous one plus 1, except that 1 follows 52 |
| `WeekNumbers.WeekNumbersDistinct` | src/MonthView/WeekNumbers.jsx:36-47 | no number is shown twice, so the rows' React keys are unique |
| `WeekNumbers.DisplayedWeekNumbers` | src/MonthView/WeekNumbers.jsx:12-39 | reads the first week number through the delegating getter `StartWeekNumber`; for a month from the date library's ranges: as many entries as `numberOfWeeks`, between 4 and 6 of them, starting at the wrapped first week number, all in 1-52, consecutive with 52 followed by 1, and pairwise distinct |
| `WeekNumbers.February2021` | src/MonthView/WeekNumbers.jsx:27-39 | a 28-day month that starts on weekday 0 in week 5 shows weeks 5, 6, 7, 8 |
| `WeekNumbers.YearBoundary` | src/MonthView/WeekNumbers.jsx:36-39 | six rows from week 52 show 52, 1, 2, 3, 4, 5; five rows from a raw 53 show 1 to 5 |

## Left out

- The rendered markup: the `div` and `button` elements, class names, inline styles, React keys as attributes and the default arrow glyphs. Only which buttons are rendered (`Controls`, including its failure through the label) and their `disabled` attributes (`Disabled`) are kept.
- PropTypes validation of the props: the Dafny types take its place. A view string outside the four known ones is kept as `Unknown(name)`, so the label can fail on it.
- The date helpers in `src/shared/dates` and `formatMonthYear` in `src/shared/dateFormatter` (period stepping, leap years, ISO week numbering, label text) are not part of this model. They are parameters, with only the result ranges named above assumed.
- The `setActiveStartDate` and `drillUp` callbacks: each click handler is modelled as the date it passes to the setter. The caller that owns the anchor date is not modelled.
- JavaScript truthiness: `minDate && minDate >= date` yields `undefined` when `minDate` is unset. Both are modelled as `false`.
- DisplayedWeekNumbers: does not model the `RangeError` that `Array(this.numberOfWeeks)` throws in render (src/MonthView/WeekNumbers.jsx:36) for a negative row count. Its requires keep the date library in the assumed ranges, where the row count is between 4 and 6.
