/**
 * The navigation bar of the calendar: drill-up/drill-down availability, the
 * disabled state of the four step buttons, the date each step emits, the
 * label and which controls are shown. Every getter of the component is a
 * function of a snapshot of its props.
 */
module Navigation {
  import opened Wrappers
  import opened Dates

  /** The props the getters read. */
  datatype Props = Props(
    view: View,
    views: seq<View>,
    activeStartDate: Date,
    minDate: Option<Date>,
    maxDate: Option<Date>)

  /** Years before this one are never navigated to backwards. */
  const YearFloor: int := 1000

  /** `views.indexOf(v)`: the first position holding `v`, or -1. */
  function IndexOf(views: seq<View>, v: View): (i: int)
    ensures -1 <= i < |views|
    ensures i == -1 <==> v !in views
    ensures 0 <= i ==> views[i] == v && forall k :: 0 <= k < i ==> views[k] != v
  {
    if |views| == 0 then -1
    else if views[0] == v then 0
    else
      var j := IndexOf(views[1..], v);
      if j == -1 then -1 else j + 1
  }

  /**
   * Drill-down is offered unless the view is the last of the list; a view
   * missing from a non-empty list (index -1) also offers it.
   */
  function DrillDownAvailable(view: View, views: seq<View>): (r: bool)
    ensures r <==> |views| > 0 && (view !in views || view in views[..|views| - 1])
  {
    var i := IndexOf(views, view);
    i < |views| - 1
  }

  /** Drill-up is offered only when the view occurs in the list after its first position. */
  function DrillUpAvailable(view: View, views: seq<View>): (r: bool)
    ensures r <==> view in views && views[0] != view
  {
    IndexOf(views, view) > 0
  }

  /**
   * Prev is enabled exactly when the previous period starts in year 1000 or
   * later and `minDate` is unset or before the anchor date.
   */
  function PrevButtonDisabled(lib: DateLib, p: Props): (r: bool)
    ensures !r <==> (lib.fullYear(lib.beginPrevious(p.view, p.activeStartDate)) >= YearFloor &&
      (p.minDate.None? || p.minDate.value < p.activeStartDate))
  {
    var previousActiveStartDate := lib.beginPrevious(p.view, p.activeStartDate);
    if lib.fullYear(previousActiveStartDate) < YearFloor then true
    else p.minDate.Some? && p.minDate.value >= p.activeStartDate
  }

  /** The same rule as prev, with the period two steps back. */
  function Prev2ButtonDisabled(lib: DateLib, p: Props): (r: bool)
    ensures !r <==> (lib.fullYear(lib.beginPrevious2(p.view, p.activeStartDate)) >= YearFloor &&
      (p.minDate.None? || p.minDate.value < p.activeStartDate))
  {
    var previousActiveStartDate := lib.beginPrevious2(p.view, p.activeStartDate);
    if lib.fullYear(previousActiveStartDate) < YearFloor then true
    else p.minDate.Some? && p.minDate.value >= p.activeStartDate
  }

  /** Next is enabled exactly when `maxDate` is unset or after the start of the next period. */
  function NextButtonDisabled(lib: DateLib, p: Props): (r: bool)
    ensures !r <==> p.maxDate.None? || lib.beginNext(p.view, p.activeStartDate) < p.maxDate.value
  {
    var nextActiveStartDate := lib.beginNext(p.view, p.activeStartDate);
    p.maxDate.Some? && p.maxDate.value <= nextActiveStartDate
  }

  /** The same rule as next, with the period two steps ahead. */
  function Next2ButtonDisabled(lib: DateLib, p: Props): (r: bool)
    ensures !r <==> p.maxDate.None? || lib.beginNext2(p.view, p.activeStartDate) < p.maxDate.value
  {
    var nextActiveStartDate := lib.beginNext2(p.view, p.activeStartDate);
    p.maxDate.Some? && p.maxDate.value <= nextActiveStartDate
  }

  /**
   * The dates the click handlers hand to `setActiveStartDate`. An enabled
   * backward button moves to a year at or above the floor; a forward button
   * is disabled exactly when the date it would move to is not before `maxDate`.
   */
  function OnClickPrevious(lib: DateLib, p: Props): (r: Date)
    ensures !PrevButtonDisabled(lib, p) ==> lib.fullYear(r) >= YearFloor
  {
    lib.beginPrevious(p.view, p.activeStartDate)
  }

  function OnClickNext(lib: DateLib, p: Props): (r: Date)
    ensures NextButtonDisabled(lib, p) <==> p.maxDate.Some? && p.maxDate.value <= r
  {
    lib.beginNext(p.view, p.activeStartDate)
  }

  function OnClickPrevious2(lib: DateLib, p: Props): (r: Date)
    ensures !Prev2ButtonDisabled(lib, p) ==> lib.fullYear(r) >= YearFloor
  {
    lib.beginPrevious2(p.view, p.activeStartDate)
  }

  function OnClickNext2(lib: DateLib, p: Props): (r: Date)
    ensures Next2ButtonDisabled(lib, p) <==> p.maxDate.Some? && p.maxDate.value <= r
  {
    lib.beginNext2(p.view, p.activeStartDate)
  }

  /** What the label shows: text, or the bare year number `getYear` returns. */
  datatype LabelValue = Text(text: string) | YearNumber(year: int)

  /** The error thrown for a view the label does not know. */
  datatype NavigationError = InvalidView(name: string)

  function Label(lib: DateLib, p: Props): (r: Result<LabelValue, NavigationError>)
    ensures r.Failure? <==> p.view !in AllViews
    ensures r.Failure? ==> r.error == InvalidView(p.view.name)
    ensures p.view == Century ==> r == Success(Text(lib.centuryLabel(p.activeStartDate)))
    ensures p.view == Decade ==> r == Success(Text(lib.decadeLabel(p.activeStartDate)))
    ensures p.view == Year ==> r == Success(YearNumber(lib.year(p.activeStartDate)))
    ensures p.view == Month ==> r == Success(Text(lib.formatMonthYear(p.activeStartDate)))
  {
    match p.view
    case Century => Success(Text(lib.centuryLabel(p.activeStartDate)))
    case Decade => Success(Text(lib.decadeLabel(p.activeStartDate)))
    case Year => Success(YearNumber(lib.year(p.activeStartDate)))
    case Month => Success(Text(lib.formatMonthYear(p.activeStartDate)))
    case Unknown(name) => Failure(InvalidView(name))
  }

  /** The buttons of the bar; `LabelButton` is the drill-up button showing the label. */
  datatype Control = Prev2 | Prev | LabelButton | Next | Next2

  /**
   * The buttons rendered, left to right. Rendering reads the label first, so
   * for a view the label rejects it fails with the label's error.
   */
  function Controls(lib: DateLib, p: Props): (r: Result<seq<Control>, NavigationError>)
    ensures r.Failure? <==> p.view !in AllViews
    ensures r.Failure? ==> Label(lib, p).Failure? && r.error == Label(lib, p).error
    ensures r.Success? ==> Prev in r.value && LabelButton in r.value && Next in r.value
    ensures r.Success? ==> (Prev2 in r.value <==> p.view != Century)
    ensures r.Success? ==> (Next2 in r.value <==> p.view != Century)
    ensures r.Success? ==> forall i, j :: 0 <= i < j < |r.value| ==> r.value[i] != r.value[j]
  {
    match Label(lib, p)
    case Failure(e) => Failure(e)
    case Success(_) =>
      if p.view != Century then Success([Prev2, Prev, LabelButton, Next, Next2])
      else Success([Prev, LabelButton, Next])
  }

  /**
   * The `disabled` attribute each button is rendered with: the label button
   * is disabled when the view is missing from the list or first in it, and
   * each step button when the date it would emit is out of bounds.
   */
  function Disabled(lib: DateLib, p: Props, c: Control): (r: bool)
    ensures c == LabelButton ==> (r <==> p.view !in p.views || p.views[0] == p.view)
    ensures c == Prev ==> (!r <==> (lib.fullYear(OnClickPrevious(lib, p)) >= YearFloor &&
      (p.minDate.None? || p.minDate.value < p.activeStartDate)))
    ensures c == Prev2 ==> (!r <==> (lib.fullYear(OnClickPrevious2(lib, p)) >= YearFloor &&
      (p.minDate.None? || p.minDate.value < p.activeStartDate)))
    ensures c == Next ==> (r <==> p.maxDate.Some? && p.maxDate.value <= OnClickNext(lib, p))
    ensures c == Next2 ==> (r <==> p.maxDate.Some? && p.maxDate.value <= OnClickNext2(lib, p))
  {
    match c
    case Prev2 => Prev2ButtonDisabled(lib, p)
    case Prev => PrevButtonDisabled(lib, p)
    case LabelButton => !DrillUpAvailable(p.view, p.views)
    case Next => NextButtonDisabled(lib, p)
    case Next2 => Next2ButtonDisabled(lib, p)
  }

  // Properties of the step buttons

  /** Below the year floor a backward button is disabled whatever `minDate` is. */
  lemma PrevBelowFloorDisabled(lib: DateLib, p: Props)
    requires lib.fullYear(lib.beginPrevious(p.view, p.activeStartDate)) < YearFloor
    ensures forall m :: PrevButtonDisabled(lib, p.(minDate := m))
  {
  }

  lemma Prev2BelowFloorDisabled(lib: DateLib, p: Props)
    requires lib.fullYear(lib.beginPrevious2(p.view, p.activeStartDate)) < YearFloor
    ensures forall m :: Prev2ButtonDisabled(lib, p.(minDate := m))
  {
  }

  /** Past the floor, a backward button is disabled exactly when `minDate` is set and not before the anchor date. */
  lemma PrevPastFloor(lib: DateLib, p: Props)
    requires lib.fullYear(lib.beginPrevious(p.view, p.activeStartDate)) >= YearFloor
    ensures PrevButtonDisabled(lib, p) <==> p.minDate.Some? && p.minDate.value >= p.activeStartDate
    ensures p.minDate.None? ==> !PrevButtonDisabled(lib, p)
  {
  }

  lemma Prev2PastFloor(lib: DateLib, p: Props)
    requires lib.fullYear(lib.beginPrevious2(p.view, p.activeStartDate)) >= YearFloor
    ensures Prev2ButtonDisabled(lib, p) <==> p.minDate.Some? && p.minDate.value >= p.activeStartDate
    ensures p.minDate.None? ==> !Prev2ButtonDisabled(lib, p)
  {
  }

  /**
   * Past the floor, the `minDate` test compares with the anchor date, not with
   * the date the button moves to: two date libraries that step backwards to
   * different dates give the same disabled state.
   */
  lemma PrevBoundUsesAnchorDate(lib: DateLib, lib': DateLib, p: Props)
    requires lib.fullYear(lib.beginPrevious(p.view, p.activeStartDate)) >= YearFloor
    requires lib'.fullYear(lib'.beginPrevious(p.view, p.activeStartDate)) >= YearFloor
    ensures PrevButtonDisabled(lib, p) == PrevButtonDisabled(lib', p)
  {
  }

  /** Once both floor checks pass, prev and prev2 agree. */
  lemma BackwardButtonsAgreePastFloor(lib: DateLib, p: Props)
    requires lib.fullYear(lib.beginPrevious(p.view, p.activeStartDate)) >= YearFloor
    requires lib.fullYear(lib.beginPrevious2(p.view, p.activeStartDate)) >= YearFloor
    ensures PrevButtonDisabled(lib, p) == Prev2ButtonDisabled(lib, p)
  {
  }

  /** Without `maxDate` neither forward button is ever disabled. */
  lemma ForwardWithoutMax(lib: DateLib, p: Props)
    requires p.maxDate.None?
    ensures !NextButtonDisabled(lib, p) && !Next2ButtonDisabled(lib, p)
  {
  }

  /** The forward side has no year floor and ignores `minDate`; the backward side ignores `maxDate`. */
  lemma BoundsAreOneSided(lib: DateLib, p: Props, fullYear: Date -> int, m: Option<Date>)
    ensures NextButtonDisabled(lib.(fullYear := fullYear), p.(minDate := m)) == NextButtonDisabled(lib, p)
    ensures Next2ButtonDisabled(lib.(fullYear := fullYear), p.(minDate := m)) == Next2ButtonDisabled(lib, p)
    ensures PrevButtonDisabled(lib, p.(maxDate := m)) == PrevButtonDisabled(lib, p)
    ensures Prev2ButtonDisabled(lib, p.(maxDate := m)) == Prev2ButtonDisabled(lib, p)
  {
  }

  /** Tightening a bound never re-enables a button. */
  lemma TighterBoundsDisableMore(lib: DateLib, p: Props, lo: Date, lo': Date, hi: Date, hi': Date)
    requires lo <= lo' && hi' <= hi
    ensures PrevButtonDisabled(lib, p.(minDate := Some(lo))) ==> PrevButtonDisabled(lib, p.(minDate := Some(lo')))
    ensures Prev2ButtonDisabled(lib, p.(minDate := Some(lo))) ==> Prev2ButtonDisabled(lib, p.(minDate := Some(lo')))
    ensures NextButtonDisabled(lib, p.(maxDate := Some(hi))) ==> NextButtonDisabled(lib, p.(maxDate := Some(hi')))
    ensures Next2ButtonDisabled(lib, p.(maxDate := Some(hi))) ==> Next2ButtonDisabled(lib, p.(maxDate := Some(hi')))
  {
  }

  // Properties of drilling

  /** A view missing from a list can be drilled down from (if the list is non-empty) but never up. */
  lemma DrillFromMissingView(view: View, views: seq<View>)
    requires view !in views
    ensures DrillDownAvailable(view, views) <==> |views| > 0
    ensures !DrillUpAvailable(view, views)
  {
  }

  /** In `[year, month]`, the year view drills down and up is closed; the month view is the reverse. */
  lemma DrillYearMonthList()
    ensures DrillDownAvailable(Year, [Year, Month]) && !DrillUpAvailable(Year, [Year, Month])
    ensures !DrillDownAvailable(Month, [Year, Month]) && DrillUpAvailable(Month, [Year, Month])
  {
  }

  /** Century view renders prev and next but neither double step, and its label is the century label. */
  lemma CenturyView(lib: DateLib, p: Props)
    requires p.view == Century
    ensures Controls(lib, p) == Success([Prev, LabelButton, Next])
    ensures Label(lib, p) == Success(Text(lib.centuryLabel(p.activeStartDate)))
  {
  }
}
