/**
 * The week-number column of the month view: how many week rows a month
 * spans and the week number shown beside each row.
 */
module WeekNumbers {
  import opened Dates

  /** The highest week number the column shows; larger values wrap around. */
  const WeeksShown: int := 52

  /** The three getters below hand the date library's answers through unchanged. */
  function NumberOfDays(lib: DateLib, activeStartDate: Date): int {
    lib.daysInMonth(activeStartDate)
  }

  function StartWeekday(lib: DateLib, activeStartDate: Date, calendarType: CalendarType): int {
    lib.dayOfWeek(activeStartDate, calendarType)
  }

  function StartWeekNumber(lib: DateLib, activeStartDate: Date, calendarType: CalendarType): int {
    lib.weekNumber(activeStartDate, calendarType)
  }

  /** `Math.ceil(x / 7)` for an integer `x`. */
  function CeilDiv7(x: int): (r: int)
    ensures 7 * (r - 1) < x <= 7 * r
  {
    -((-x) / 7)
  }

  /**
   * `1 + ceil((days - (7 - weekday)) / 7)`: the first row holds the
   * `7 - weekday` days after the offset and every later row seven more. The
   * result is the least number of seven-cell rows holding `weekday` empty
   * cells followed by `days` day cells.
   */
  function WeeksSpanned(days: int, weekday: int): (r: int)
    ensures 7 * (r - 1) < weekday + days <= 7 * r
  {
    1 + CeilDiv7(days - (7 - weekday))
  }

  /** The rows of the month grid: enough to hold the first day's offset and every day of the month. */
  function NumberOfWeeks(lib: DateLib, activeStartDate: Date, calendarType: CalendarType): (r: int)
    ensures var days, weekday := lib.daysInMonth(activeStartDate), lib.dayOfWeek(activeStartDate, calendarType);
      7 * (r - 1) < weekday + days <= 7 * r &&
      (28 <= days <= 31 && 0 <= weekday <= 6 ==> 4 <= r <= 6)
  {
    WeeksSpanned(NumberOfDays(lib, activeStartDate), StartWeekday(lib, activeStartDate, calendarType))
  }

  /**
   * The second `map` of the pipeline: values above 52 are taken modulo 52.
   * The shown value is congruent to the raw one, never larger, and is the
   * raw value itself up to 52.
   */
  function Wrap(n: int): (r: int)
    ensures r % WeeksShown == n % WeeksShown
    ensures r <= n
    ensures n <= WeeksShown ==> r == n
    ensures 1 <= n < 2 * WeeksShown ==> 1 <= r <= WeeksShown
  {
    if n > WeeksShown then n % WeeksShown else n
  }

  /** `Array(count).fill(null).map((_, i) => i + start).map(Wrap)`. */
  function WeekNumberSequence(count: nat, start: int): (r: seq<int>)
    ensures |r| == count
  {
    var raw := seq(count, i => i + start);
    seq(count, i requires 0 <= i < count => Wrap(raw[i]))
  }

  /** The week numbers rendered for the month that starts at `activeStartDate`. */
  function DisplayedWeekNumbers(lib: DateLib, activeStartDate: Date, calendarType: CalendarType): (r: seq<int>)
    requires 28 <= lib.daysInMonth(activeStartDate) <= 31
    requires 0 <= lib.dayOfWeek(activeStartDate, calendarType) <= 6
    requires 1 <= lib.weekNumber(activeStartDate, calendarType) <= 53
    ensures |r| == NumberOfWeeks(lib, activeStartDate, calendarType)
    ensures 4 <= |r| <= 6
    ensures r[0] == Wrap(StartWeekNumber(lib, activeStartDate, calendarType))
    ensures forall i :: 0 <= i < |r| ==> 1 <= r[i] <= WeeksShown
    ensures forall i :: 0 < i < |r| ==> r[i] == if r[i - 1] == WeeksShown then 1 else r[i - 1] + 1
    ensures forall i, j :: 0 <= i < j < |r| ==> r[i] != r[j]
  {
    var count := NumberOfWeeks(lib, activeStartDate, calendarType);
    var start := StartWeekNumber(lib, activeStartDate, calendarType);
    WeeksSpannedBounds(NumberOfDays(lib, activeStartDate), StartWeekday(lib, activeStartDate, calendarType));
    WeekNumbersInRange(count, start);
    WeekNumbersConsecutive(count, start);
    WeekNumbersDistinct(count, start);
    WeekNumberSequence(count, start)
  }

  // Properties of the row count

  /** A month of 28 to 31 days, at any weekday offset, spans four to six rows. */
  lemma WeeksSpannedBounds(days: int, weekday: int)
    requires 28 <= days <= 31 && 0 <= weekday <= 6
    ensures 4 <= WeeksSpanned(days, weekday) <= 6
  {
  }

  /** A 28-day month starting on the first weekday spans exactly four rows; one more day or offset makes five. */
  lemma WeeksSpannedExtremes()
    ensures WeeksSpanned(28, 0) == 4
    ensures WeeksSpanned(29, 0) == 5 && WeeksSpanned(28, 1) == 5
    ensures WeeksSpanned(31, 5) == 6 && WeeksSpanned(30, 6) == 6
  {
  }

  /** More days or a later starting weekday never need fewer rows. */
  lemma WeeksSpannedMonotone(days: int, days': int, weekday: int, weekday': int)
    requires days <= days' && weekday <= weekday'
    ensures WeeksSpanned(days, weekday) <= WeeksSpanned(days', weekday')
  {
  }

  // Properties of the displayed numbers

  /** A raw 53 is shown as 1, the same as week 1. */
  lemma WrapProperties()
    ensures Wrap(53) == 1 && Wrap(53) == Wrap(1)
  {
  }

  /** Entry `i` is the wrapped `start + i`. */
  lemma WeekNumberSequenceAt(count: nat, start: int, i: int)
    requires 0 <= i < count
    ensures WeekNumberSequence(count, start)[i] == Wrap(start + i)
  {
  }

  /** Starting at a week number in 1..53, up to six rows show only numbers in 1..52. */
  lemma WeekNumbersInRange(count: nat, start: int)
    requires 1 <= start <= 53 && count <= 6
    ensures forall i :: 0 <= i < count ==> 1 <= WeekNumberSequence(count, start)[i] <= WeeksShown
  {
  }

  /** Each shown number is the previous one plus one, except that 52 is followed by 1. */
  lemma WeekNumbersConsecutive(count: nat, start: int)
    requires 1 <= start <= 53 && count <= 6
    ensures var r := WeekNumberSequence(count, start);
      forall i :: 0 < i < count ==> r[i] == if r[i - 1] == WeeksShown then 1 else r[i - 1] + 1
  {
  }

  /** Up to six rows never show the same number twice, so the rows' React keys are unique. */
  lemma WeekNumbersDistinct(count: nat, start: int)
    requires 1 <= start <= 53 && count <= 6
    ensures var r := WeekNumberSequence(count, start);
      forall i, j :: 0 <= i < j < count ==> r[i] != r[j]
  {
  }

  /** February 2021 starts on a Monday in week 5 and has 28 days: weeks 5 to 8 are shown. */
  lemma February2021(lib: DateLib, february: Date)
    requires lib.daysInMonth(february) == 28
    requires lib.dayOfWeek(february, ISO8601) == 0
    requires lib.weekNumber(february, ISO8601) == 5
    ensures DisplayedWeekNumbers(lib, february, ISO8601) == [5, 6, 7, 8]
  {
  }

  /** Six rows from week 52 show 52 and then 1 to 5; five rows from a raw week 53 start at 1. */
  lemma YearBoundary()
    ensures WeekNumberSequence(6, 52) == [52, 1, 2, 3, 4, 5]
    ensures WeekNumberSequence(5, 53) == [1, 2, 3, 4, 5]
  {
  }
}
