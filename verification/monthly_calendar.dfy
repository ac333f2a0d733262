/**
 * The month grid: a (month, year) view stepped a month or a year at a time with
 * wrap-around at the year's ends, cells coloured by status with a corner icon,
 * and the day-entry dialog opened on a record of the tracked year.
 */
module MonthlyCalendar {
  import opened Types
  import opened Text
  import opened CalendarUtils
  import CalendarView
  import CalendarDay

  // ---------------------------------------------------------------------------
  // The year list

  /** The years offered by the year selector: ten before the current year to twenty after. */
  method GenerateYearArray(currentYear: int) returns (years: seq<int>)
    ensures |years| == 31
    ensures forall i :: 0 <= i < |years| ==> years[i] == currentYear - 10 + i
    ensures years[0] == currentYear - 10 && years[|years| - 1] == currentYear + 20
  {
    years := [];
    var year := currentYear - 10;
    while year <= currentYear + 20
      invariant currentYear - 10 <= year <= currentYear + 21
      invariant |years| == year - (currentYear - 10)
      invariant forall i :: 0 <= i < |years| ==> years[i] == currentYear - 10 + i
    {
      years := years + [year];
      year := year + 1;
    }
  }

  // ---------------------------------------------------------------------------
  // Month and year navigation

  /** The month and year on screen. */
  datatype View = View(month: int, year: int)

  /** The position of a view on a running count of months. */
  function MonthIndex(v: View): int {
    v.year * 12 + v.month
  }

  predicate InRange(v: View) {
    0 <= v.month < 12
  }

  /** December steps to January of the next year. */
  function NextMonth(v: View): (r: View)
    ensures v.month == 11 ==> r == View(0, v.year + 1)
    ensures v.month != 11 ==> r == View(v.month + 1, v.year)
  {
    if v.month == 11 then View(0, v.year + 1) else View(v.month + 1, v.year)
  }

  /** January steps to December of the previous year. */
  function PrevMonth(v: View): (r: View)
    ensures v.month == 0 ==> r == View(11, v.year - 1)
    ensures v.month != 0 ==> r == View(v.month - 1, v.year)
  {
    if v.month == 0 then View(11, v.year - 1) else View(v.month - 1, v.year)
  }

  /**
   * On a view with a real month both arrows keep the month in 0..11, move by
   * exactly one month on the running count, and undo each other.
   */
  lemma MonthStepsAreInverse(v: View)
    requires InRange(v)
    ensures InRange(NextMonth(v)) && InRange(PrevMonth(v))
    ensures MonthIndex(NextMonth(v)) == MonthIndex(v) + 1
    ensures MonthIndex(PrevMonth(v)) == MonthIndex(v) - 1
    ensures PrevMonth(NextMonth(v)) == v && NextMonth(PrevMonth(v)) == v
  {
  }

  /** Twelve steps forward land on the same month of the next year. */
  lemma {:induction false} TwelveStepsIsAYear(v: View)
    requires InRange(v)
    ensures Steps(v, 12) == View(v.month, v.year + 1)
  {
    StepsIndex(v, 12);
    var r := Steps(v, 12);
    assert MonthIndex(r) == MonthIndex(v) + 12;
  }

  function Steps(v: View, n: nat): View {
    if n == 0 then v else NextMonth(Steps(v, n - 1))
  }

  lemma {:induction false} StepsIndex(v: View, n: nat)
    requires InRange(v)
    ensures InRange(Steps(v, n)) && MonthIndex(Steps(v, n)) == MonthIndex(v) + n
  {
    if n > 0 {
      StepsIndex(v, n - 1);
      MonthStepsAreInverse(Steps(v, n - 1));
    }
  }

  function PrevYear(v: View): (r: View)
    ensures r.month == v.month && r.year == v.year - 1
  {
    v.(year := v.year - 1)
  }

  function NextYear(v: View): (r: View)
    ensures r.month == v.month && r.year == v.year + 1
  {
    v.(year := v.year + 1)
  }

  /** A year step is twelve month steps. */
  lemma YearStepIsTwelveMonths(v: View)
    requires InRange(v)
    ensures MonthIndex(NextYear(v)) == MonthIndex(v) + 12
    ensures MonthIndex(PrevYear(v)) == MonthIndex(v) - 12
    ensures NextYear(v) == Steps(v, 12)
  {
    TwelveStepsIsAYear(v);
  }

  // ---------------------------------------------------------------------------
  // Cells

  datatype Status = DayMissed | DayFuture | DayPartial | DayStudied

  /** `isPast` says whether the day's date lies before the current instant. */
  function DayStatusClass(x: DayData, isPast: bool): (c: Status)
    ensures c == DayMissed <==> !x.studied && isPast
    ensures c == DayFuture <==> !x.studied && !isPast
    ensures c == DayPartial <==> x.studied && x.hoursStudied < 2
    ensures c == DayStudied <==> x.studied && x.hoursStudied >= 2
  {
    if !x.studied && isPast then DayMissed
    else if !x.studied then DayFuture
    else if x.hoursStudied < 2 then DayPartial
    else DayStudied
  }

  /**
   * The grid's classes extend the scrolling view's: they agree on every day
   * except an unstudied day in the past, which only this grid marks missed.
   */
  lemma StatusExtendsScrollingView(x: DayData, isPast: bool)
    ensures (DayStatusClass(x, isPast) == DayMissed) ==> CalendarView.DayStatusClass(x) == CalendarView.DayFuture
    ensures DayStatusClass(x, isPast) == DayFuture <==> CalendarView.DayStatusClass(x) == CalendarView.DayFuture && !isPast
    ensures DayStatusClass(x, isPast) == DayPartial <==> CalendarView.DayStatusClass(x) == CalendarView.DayPartial
    ensures DayStatusClass(x, isPast) == DayStudied <==> CalendarView.DayStatusClass(x) == CalendarView.DayStudied
  {
  }

  /** A check on studied days, a cross on unstudied days with a justification, nothing otherwise. */
  function DayIcon(x: DayData): (i: Option<CalendarDay.Icon>)
    ensures i == Some(CalendarDay.CheckIcon) <==> x.studied
    ensures i == Some(CalendarDay.XIcon) <==> !x.studied && !Blank(x.justification)
    ensures i == None <==> !x.studied && Blank(x.justification)
  {
    if x.studied then Some(CalendarDay.CheckIcon)
    else if !Blank(x.justification) then Some(CalendarDay.XIcon)
    else None
  }

  /**
   * This grid's icon is the calendar cell's corner icon, except that an
   * unstudied day without a justification shows none here.
   */
  lemma IconAgreesWithCalendarCell(x: DayData)
    ensures x.studied || !Blank(x.justification) ==> DayIcon(x) == Some(CalendarDay.CornerIcon(x))
    ensures !x.studied && Blank(x.justification) ==> DayIcon(x) == None && CalendarDay.CornerIcon(x) == CalendarDay.XIcon
  {
  }

  /** Stored records are shown only for the tracked year. */
  function CurrentMonthData(cal: CalendarData, v: View): (r: Option<MonthData>)
    ensures r.Some? <==> v.year == TrackedYear && v.month in cal
    ensures r.Some? ==> r.value == cal[v.month]
  {
    if v.year == TrackedYear && v.month in cal then Some(cal[v.month]) else None
  }

  /** The record behind day `day` of the grid, if the grid shows records. */
  function CellRecord(cal: CalendarData, v: View, day: int): (r: Option<DayData>)
    ensures r.Some? ==> v.year == TrackedYear && r == Lookup(cal, v.month, day)
    ensures v.year == TrackedYear ==> r == Lookup(cal, v.month, day)
  {
    match CurrentMonthData(cal, v)
    case Some(md) => if day in md.days then Some(md.days[day]) else None
    case None => None
  }

  /** The cell of today's date is ringed, in whatever year is on screen. */
  predicate IsToday(v: View, dayNumber: int, now: Date) {
    v.year == now.year && v.month == now.month && dayNumber == now.day
  }

  lemma TodayOnlyInItsOwnView(v: View, w: View, dayNumber: int, now: Date)
    requires IsToday(v, dayNumber, now) && IsToday(w, dayNumber, now)
    ensures v == w
  {
  }

  // ---------------------------------------------------------------------------
  // The grid's state

  /** The day the dialog edits: its position and the record as it was when opened. */
  datatype Selection = Selection(month: int, day: int, data: DayData)

  class MonthlyCalendar {
    var selectedYear: int
    var selectedMonth: int
    var selectedDayInfo: Option<Selection>
    var isModalOpen: bool

    function CurrentView(): View
      reads this
    {
      View(selectedMonth, selectedYear)
    }

    /** The dialog is open exactly when a day is selected. */
    predicate Valid()
      reads this
    {
      isModalOpen <==> selectedDayInfo.Some?
    }

    constructor(today: Date)
      ensures CurrentView() == View(today.month, TrackedYear)
      ensures selectedDayInfo == None && !isModalOpen && Valid()
    {
      selectedYear := TrackedYear;
      selectedMonth := today.month;
      selectedDayInfo := None;
      isModalOpen := false;
    }

    method GoToNextMonth()
      modifies this
      ensures CurrentView() == NextMonth(old(CurrentView()))
      ensures selectedDayInfo == old(selectedDayInfo) && isModalOpen == old(isModalOpen)
    {
      if selectedMonth == 11 {
        selectedMonth := 0;
        selectedYear := selectedYear + 1;
      } else {
        selectedMonth := selectedMonth + 1;
      }
    }

    method GoToPrevMonth()
      modifies this
      ensures CurrentView() == PrevMonth(old(CurrentView()))
      ensures selectedDayInfo == old(selectedDayInfo) && isModalOpen == old(isModalOpen)
    {
      if selectedMonth == 0 {
        selectedMonth := 11;
        selectedYear := selectedYear - 1;
      } else {
        selectedMonth := selectedMonth - 1;
      }
    }

    method GoToPrevYear()
      modifies this
      ensures CurrentView() == PrevYear(old(CurrentView()))
      ensures selectedDayInfo == old(selectedDayInfo) && isModalOpen == old(isModalOpen)
    {
      selectedYear := selectedYear - 1;
    }

    method GoToNextYear()
      modifies this
      ensures CurrentView() == NextYear(old(CurrentView()))
      ensures selectedDayInfo == old(selectedDayInfo) && isModalOpen == old(isModalOpen)
    {
      selectedYear := selectedYear + 1;
    }

    method GoToToday(today: Date)
      modifies this
      ensures CurrentView() == View(today.month, today.year)
      ensures selectedDayInfo == old(selectedDayInfo) && isModalOpen == old(isModalOpen)
    {
      selectedMonth := today.month;
      selectedYear := today.year;
    }

    /** The month selector reports the chosen month's index as decimal text. */
    method HandleMonthChange(value: string)
      requires |value| >= 1 && AllDigits(value)
      modifies this
      ensures CurrentView() == old(CurrentView()).(month := ParseDigits(value))
      ensures selectedDayInfo == old(selectedDayInfo) && isModalOpen == old(isModalOpen)
    {
      selectedMonth := ParseDigits(value);
    }

    method HandleYearChange(year: int)
      modifies this
      ensures CurrentView() == old(CurrentView()).(year := year)
      ensures selectedDayInfo == old(selectedDayInfo) && isModalOpen == old(isModalOpen)
    {
      selectedYear := year;
    }

    /** Opens the dialog on the record at (month, day); a missing record opens nothing. */
    method OpenDayDialog(cal: CalendarData, month: int, day: int)
      requires Valid()
      modifies this
      ensures Valid() && CurrentView() == old(CurrentView())
      ensures Lookup(cal, month, day).Some? ==>
        isModalOpen && selectedDayInfo == Some(Selection(month, day, Lookup(cal, month, day).value))
      ensures Lookup(cal, month, day).None? ==>
        isModalOpen == old(isModalOpen) && selectedDayInfo == old(selectedDayInfo)
    {
      if month in cal && day in cal[month].days {
        selectedDayInfo := Some(Selection(month, day, cal[month].days[day]));
        isModalOpen := true;
      }
    }

    /**
     * A click on day `day` of the grid: record cells, shown only in the tracked
     * year, open the dialog; the blank cells of other years do nothing.
     */
    method ClickDay(cal: CalendarData, day: int)
      requires Valid()
      modifies this
      ensures Valid() && CurrentView() == old(CurrentView())
      ensures CellRecord(cal, CurrentView(), day).Some? ==>
        isModalOpen && selectedDayInfo == Some(Selection(selectedMonth, day, CellRecord(cal, CurrentView(), day).value))
      ensures CellRecord(cal, CurrentView(), day).None? ==>
        isModalOpen == old(isModalOpen) && selectedDayInfo == old(selectedDayInfo)
    {
      if selectedYear == TrackedYear && selectedMonth in cal {
        OpenDayDialog(cal, selectedMonth, day);
      }
    }

    method CloseDayDialog()
      modifies this
      ensures !isModalOpen && selectedDayInfo == None && Valid()
      ensures CurrentView() == old(CurrentView())
    {
      isModalOpen := false;
      selectedDayInfo := None;
    }

    /** Forwards the dialog's patch to the page for the selected day; changes nothing here. */
    method HandleSaveDayData(data: Patch) returns (update: Option<DayUpdate>)
      ensures selectedDayInfo.Some? ==>
        update == Some(DayUpdate(DayRef(selectedDayInfo.value.month, selectedDayInfo.value.day), data))
      ensures selectedDayInfo.None? ==> update == None
    {
      update := None;
      if selectedDayInfo.Some? {
        update := Some(DayUpdate(DayRef(selectedDayInfo.value.month, selectedDayInfo.value.day), data));
      }
    }
  }
}
