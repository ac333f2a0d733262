/**
 * The data model of the habit tracker: one record per calendar day, grouped by
 * month, and the application state that owns the whole calendar.
 */
module Types {

  datatype Option<+T> = None | Some(value: T) {
    function GetOr(default: T): T {
      match this
      case Some(v) => v
      case None => default
    }
  }

  /** A calendar date as the JavaScript `Date` getters report it: the month is 0-based. */
  datatype Date = Date(year: int, month: int, day: int)

  /**
   * Study time is entered with a slider from 0 to 12 in steps of 0.5, so every
   * value the application produces is a whole number of half hours.
   */
  type HalfHours = int

  /**
   * One calendar day. `justification` and `mood` are optional fields; wherever the
   * application reads them, an absent value behaves as the empty string.
   */
  datatype DayData = DayData(
    date: Date,
    studied: bool,
    hoursStudied: HalfHours,
    notes: string,
    justification: Option<string>,
    mood: Option<string>)

  datatype MonthData = MonthData(month: int, year: int, days: map<int, DayData>)

  /** Month index (0..11) to the month's records. */
  type CalendarData = map<int, MonthData>

  datatype AppState = AppState(
    calendarData: CalendarData,
    weeklyFocus: string,
    streakCount: int,
    showConfetti: bool)

  /** A partial day record: every present field overwrites the record's own. */
  datatype Patch = Patch(
    date: Option<Date>,
    studied: Option<bool>,
    hoursStudied: Option<HalfHours>,
    notes: Option<string>,
    justification: Option<string>,
    mood: Option<string>)

  /** The month and day-of-month of a record that a dialog has selected. */
  datatype DayRef = DayRef(month: int, day: int)

  /** A request to the application to patch the record at `at`. */
  datatype DayUpdate = DayUpdate(at: DayRef, patch: Patch)

  /** Text that JavaScript treats as absent: an unset optional field or the empty string. */
  predicate Blank(o: Option<string>) {
    o == None || o == Some("")
  }

  /** The record at (month, day), if both the month and the day exist. */
  function Lookup(cal: CalendarData, month: int, day: int): (r: Option<DayData>)
    ensures r.Some? <==> month in cal && day in cal[month].days
    ensures r.Some? ==> r.value == cal[month].days[day]
  {
    if month in cal && day in cal[month].days then Some(cal[month].days[day]) else None
  }

  /** `calendarData[month]?.days[day]?.studied`: a missing record reads as not studied. */
  predicate Studied(cal: CalendarData, month: int, day: int) {
    month in cal && day in cal[month].days && cal[month].days[day].studied
  }
}
