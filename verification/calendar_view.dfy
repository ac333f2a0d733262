/**
 * The scrolling year view: one month at a time in focus, bounded to the twelve
 * months of the tracked year, and a dialog that edits a copy of one day's
 * record and hands back its studied flag, hours and notes.
 */
module CalendarView {
  import opened Types
  import opened CalendarUtils
  import opened IndexPage
  import opened DayEntryModal

  // ---------------------------------------------------------------------------
  // Cell status and the today marker

  datatype Status = DayFuture | DayPartial | DayStudied

  /** Unstudied days are `day-future`; studied days under one hour are `day-partial`. */
  function DayStatusClass(x: DayData): (c: Status)
    ensures c == DayFuture <==> !x.studied
    ensures c == DayPartial <==> x.studied && x.hoursStudied < 2
    ensures c == DayStudied <==> x.studied && x.hoursStudied >= 2
  {
    if !x.studied then DayFuture
    else if x.hoursStudied < 2 then DayPartial
    else DayStudied
  }

  function StatusRank(c: Status): nat {
    match c
    case DayFuture => 0
    case DayPartial => 1
    case DayStudied => 2
  }

  /** Studying, or studying longer, never lowers a day's status. */
  lemma StatusMonotone(x: DayData, y: DayData)
    requires x.studied ==> y.studied
    requires x.studied ==> x.hoursStudied <= y.hoursStudied
    ensures StatusRank(DayStatusClass(x)) <= StatusRank(DayStatusClass(y))
    ensures !y.studied ==> DayStatusClass(x) == DayStatusClass(y)
  {
  }

  /** The (month, day) the grid marks as today: `(-1, -1)` unless the clock is in the tracked year. */
  function TodayMarker(today: Date): (r: DayRef)
    ensures today.year == TrackedYear ==> r == DayRef(today.month, today.day)
    ensures today.year != TrackedYear ==> r == DayRef(-1, -1)
  {
    if today.year == TrackedYear then DayRef(today.month, today.day) else DayRef(-1, -1)
  }

  predicate IsTodayCell(month: int, day: int, today: Date) {
    TodayMarker(today) == DayRef(month, day)
  }

  /**
   * Outside the tracked year no cell of the grid (whose day numbers start at 1)
   * is marked; inside it, exactly the cell of today's month and day.
   */
  lemma TodayMarkedOnlyInTrackedYear(month: int, day: int, today: Date)
    requires day >= 1
    ensures today.year != TrackedYear ==> !IsTodayCell(month, day, today)
    ensures today.year == TrackedYear ==> (IsTodayCell(month, day, today) <==> month == today.month && day == today.day)
  {
  }

  // ---------------------------------------------------------------------------
  // Month navigation

  /** Next month, held at December. */
  function NextMonthBounded(m: int): (r: int)
    ensures 0 <= m < 12 ==> 0 <= r < 12
    ensures r == m || r == m + 1
  {
    if m + 1 < 12 then m + 1 else m
  }

  /** Previous month, held at January. */
  function PrevMonthBounded(m: int): (r: int)
    ensures 0 <= m < 12 ==> 0 <= r < 12
    ensures r == m || r == m - 1
  {
    if m - 1 >= 0 then m - 1 else m
  }

  predicate PrevDisabled(m: int) {
    m == 0
  }

  predicate NextDisabled(m: int) {
    m == 11
  }

  /**
   * Within the year the arrows move one month and undo each other; a disabled
   * arrow would do nothing, and an enabled one always moves.
   */
  lemma MonthNavigation(m: int)
    requires 0 <= m < 12
    ensures NextDisabled(m) <==> NextMonthBounded(m) == m
    ensures PrevDisabled(m) <==> PrevMonthBounded(m) == m
    ensures !NextDisabled(m) ==> PrevMonthBounded(NextMonthBounded(m)) == m
    ensures !PrevDisabled(m) ==> NextMonthBounded(PrevMonthBounded(m)) == m
  {
  }

  // ---------------------------------------------------------------------------
  // Saving

  /** The partial record saved: the studied flag, the hours and the notes, nothing else. */
  function SavePatch(x: DayData): (p: Patch)
    ensures p.studied == Some(x.studied) && p.hoursStudied == Some(x.hoursStudied) && p.notes == Some(x.notes)
    ensures p.date == None && p.justification == None && p.mood == None
  {
    Patch(None, Some(x.studied), Some(x.hoursStudied), Some(x.notes), None, None)
  }

  /**
   * Saving copies the three edited fields into the stored record and leaves its
   * date, justification and mood alone; saving an untouched copy changes nothing.
   */
  lemma SavePatchEffect(stored: DayData, edited: DayData)
    ensures var r := ApplyPatch(stored, SavePatch(edited));
      && r.studied == edited.studied && r.hoursStudied == edited.hoursStudied && r.notes == edited.notes
      && r.date == stored.date && r.justification == stored.justification && r.mood == stored.mood
    ensures ApplyPatch(stored, SavePatch(stored)) == stored
  {
  }

  // ---------------------------------------------------------------------------
  // The view's state

  class CalendarView {
    var selectedMonth: int
    var selectedDay: Option<DayData>
    var selectedDayInfo: Option<DayRef>

    /** The dialog holds a copy of a day exactly when it knows which day it is. */
    predicate Valid()
      reads this
    {
      selectedDay.Some? <==> selectedDayInfo.Some?
    }

    predicate DialogOpen()
      reads this
    {
      selectedDay.Some?
    }

    constructor(today: Date)
      ensures selectedMonth == today.month && selectedDay == None && selectedDayInfo == None
      ensures Valid() && !DialogOpen()
    {
      selectedMonth := today.month;
      selectedDay := None;
      selectedDayInfo := None;
    }

    method GoToNextMonth()
      modifies this
      ensures selectedMonth == NextMonthBounded(old(selectedMonth))
      ensures selectedDay == old(selectedDay) && selectedDayInfo == old(selectedDayInfo)
    {
      var nextMonth := selectedMonth + 1;
      if nextMonth < 12 {
        selectedMonth := nextMonth;
      }
    }

    method GoToPrevMonth()
      modifies this
      ensures selectedMonth == PrevMonthBounded(old(selectedMonth))
      ensures selectedDay == old(selectedDay) && selectedDayInfo == old(selectedDayInfo)
    {
      var prevMonth := selectedMonth - 1;
      if prevMonth >= 0 {
        selectedMonth := prevMonth;
      }
    }

    /** Selects a copy of the day's record; a day without a record selects nothing. */
    method OpenDayDialog(cal: CalendarData, month: int, day: int)
      requires Valid()
      modifies this
      ensures Valid()
      ensures Lookup(cal, month, day).Some? ==>
        selectedDay == Lookup(cal, month, day) && selectedDayInfo == Some(DayRef(month, day))
      ensures Lookup(cal, month, day).None? ==>
        selectedDay == old(selectedDay) && selectedDayInfo == old(selectedDayInfo)
      ensures selectedMonth == old(selectedMonth)
    {
      if month in cal && day in cal[month].days {
        selectedDay := Some(cal[month].days[day]);
        selectedDayInfo := Some(DayRef(month, day));
      }
    }

    method CloseDayDialog()
      modifies this
      ensures selectedDay == None && selectedDayInfo == None && Valid()
      ensures selectedMonth == old(selectedMonth)
    {
      selectedDay := None;
      selectedDayInfo := None;
    }

    /**
     * With a day selected, hands the update of that day to the page and closes
     * the dialog; with none, does nothing.
     */
    method SaveDayData() returns (update: Option<DayUpdate>)
      requires Valid()
      modifies this
      ensures old(selectedDay).Some? ==>
        && update == Some(DayUpdate(old(selectedDayInfo).value, SavePatch(old(selectedDay).value)))
        && selectedDay == None && selectedDayInfo == None
      ensures old(selectedDay).None? ==>
        update == None && selectedDay == old(selectedDay) && selectedDayInfo == old(selectedDayInfo)
      ensures Valid() && selectedMonth == old(selectedMonth)
    {
      update := None;
      if selectedDay.Some? && selectedDayInfo.Some? {
        var x := selectedDay.value;
        update := Some(DayUpdate(selectedDayInfo.value, Patch(None, Some(x.studied), Some(x.hoursStudied), Some(x.notes), None, None)));
        CloseDayDialog();
      }
    }

    method HandleToggleStudied()
      modifies this
      ensures old(selectedDay).Some? ==>
        selectedDay == Some(old(selectedDay).value.(studied := !old(selectedDay).value.studied))
      ensures old(selectedDay).None? ==> selectedDay == None
      ensures selectedDayInfo == old(selectedDayInfo) && selectedMonth == old(selectedMonth)
    {
      if selectedDay.Some? {
        selectedDay := Some(selectedDay.value.(studied := !selectedDay.value.studied));
      }
    }

    /** The slider reports its value as a one-element list, always within its range. */
    method HandleHoursChange(hours: seq<HalfHours>)
      requires |hours| >= 1 && SliderValue(hours[0])
      modifies this
      ensures old(selectedDay).Some? ==>
        selectedDay == Some(old(selectedDay).value.(hoursStudied := hours[0]))
      ensures old(selectedDay).None? ==> selectedDay == None
      ensures selectedDayInfo == old(selectedDayInfo) && selectedMonth == old(selectedMonth)
    {
      if selectedDay.Some? {
        selectedDay := Some(selectedDay.value.(hoursStudied := hours[0]));
      }
    }

    method HandleNotesChange(value: string)
      modifies this
      ensures old(selectedDay).Some? ==> selectedDay == Some(old(selectedDay).value.(notes := value))
      ensures old(selectedDay).None? ==> selectedDay == None
      ensures selectedDayInfo == old(selectedDayInfo) && selectedMonth == old(selectedMonth)
    {
      if selectedDay.Some? {
        selectedDay := Some(selectedDay.value.(notes := value));
      }
    }
  }
}
