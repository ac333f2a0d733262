/**
 * The application page: it owns the whole state, loads it once, patches one day
 * at a time and recomputes the streak, and decides when the confetti and the
 * reminder show.
 */
module IndexPage {
  import opened Types
  import opened CalendarUtils

  // ---------------------------------------------------------------------------
  // Patching a record

  /** `{ ...record, ...patch }`: every field the patch carries overwrites the record's. */
  function ApplyPatch(x: DayData, p: Patch): (r: DayData)
    ensures r.studied == p.studied.GetOr(x.studied)
    ensures r.hoursStudied == p.hoursStudied.GetOr(x.hoursStudied)
    ensures r.notes == p.notes.GetOr(x.notes)
    ensures p.justification == None ==> r.justification == x.justification
    ensures p.justification != None ==> r.justification == p.justification
    ensures p.mood == None ==> r.mood == x.mood
    ensures p.mood != None ==> r.mood == p.mood
    ensures r.date == p.date.GetOr(x.date)
  {
    DayData(
      p.date.GetOr(x.date),
      p.studied.GetOr(x.studied),
      p.hoursStudied.GetOr(x.hoursStudied),
      p.notes.GetOr(x.notes),
      if p.justification == None then x.justification else p.justification,
      if p.mood == None then x.mood else p.mood)
  }

  /** Applying the same patch twice is applying it once. */
  lemma ApplyPatchIdempotent(x: DayData, p: Patch)
    ensures ApplyPatch(ApplyPatch(x, p), p) == ApplyPatch(x, p)
  {
  }

  /** A patch that carries no field leaves the record as it is. */
  lemma EmptyPatchIsIdentity(x: DayData)
    ensures ApplyPatch(x, Patch(None, None, None, None, None, None)) == x
  {
  }

  // ---------------------------------------------------------------------------
  // The reducer

  /** A new multiple of 7 reached by climbing: 7, 14, 21, ... above the previous streak. */
  predicate ConfettiDue(newStreak: int, oldStreak: int) {
    newStreak >= 7 && newStreak % 7 == 0 && newStreak > oldStreak
  }

  function PatchDay(cal: CalendarData, month: int, day: int, p: Patch): CalendarData
    requires month in cal && day in cal[month].days
  {
    var md := cal[month];
    cal[month := md.(days := md.days[day := ApplyPatch(md.days[day], p)])]
  }

  /** The state after `updateDay`: unchanged when the record is missing. */
  function UpdatedState(s: AppState, month: int, day: int, p: Patch, today: Date): AppState {
    if month in s.calendarData && day in s.calendarData[month].days then
      var cal := PatchDay(s.calendarData, month, day, p);
      var newStreak := StreakAsWritten(cal, today);
      AppState(cal, s.weeklyFocus, newStreak, ConfettiDue(newStreak, s.streakCount))
    else s
  }

  lemma UpdateMissingIsNoOp(s: AppState, month: int, day: int, p: Patch, today: Date)
    requires Lookup(s.calendarData, month, day) == None
    ensures UpdatedState(s, month, day, p, today) == s
  {
  }

  /**
   * Updating an existing record patches that record and nothing else, keeps the
   * weekly focus, stores the recomputed streak and raises the confetti on a new
   * multiple of 7.
   */
  lemma UpdateExisting(s: AppState, month: int, day: int, p: Patch, today: Date)
    requires Lookup(s.calendarData, month, day).Some?
    ensures var t := UpdatedState(s, month, day, p, today);
      && Lookup(t.calendarData, month, day) == Some(ApplyPatch(Lookup(s.calendarData, month, day).value, p))
      && (forall m, d :: (m, d) != (month, day) ==> Lookup(t.calendarData, m, d) == Lookup(s.calendarData, m, d))
      && t.calendarData.Keys == s.calendarData.Keys
      && (forall m :: m in t.calendarData ==>
            t.calendarData[m].month == s.calendarData[m].month && t.calendarData[m].year == s.calendarData[m].year)
      && t.weeklyFocus == s.weeklyFocus
      && t.streakCount == StreakAsWritten(t.calendarData, today)
      && (t.showConfetti <==> ConfettiDue(t.streakCount, s.streakCount))
  {
  }

  /** Marking today studied turns the reminder off and gives a streak of at least 1. */
  lemma StudyingTodayClearsReminder(s: AppState, p: Patch, today: Date)
    requires today.day >= 1 && Lookup(s.calendarData, today.month, today.day).Some?
    requires p.studied == Some(true)
    ensures var t := UpdatedState(s, today.month, today.day, p, today);
      !ReminderDue(t.calendarData, today) && t.streakCount >= 1
  {
    var t := UpdatedState(s, today.month, today.day, p, today);
    assert Studied(t.calendarData, today.month, today.day);
    assert RunBack(t.calendarData, today.month, today.day) >= 1;
  }

  function WithWeeklyFocus(s: AppState, focus: string): (t: AppState)
    ensures t.weeklyFocus == focus
    ensures t.calendarData == s.calendarData && t.streakCount == s.streakCount && t.showConfetti == s.showConfetti
  {
    s.(weeklyFocus := focus)
  }

  function WithoutConfetti(s: AppState): (t: AppState)
    ensures !t.showConfetti
    ensures t.calendarData == s.calendarData && t.weeklyFocus == s.weeklyFocus && t.streakCount == s.streakCount
  {
    s.(showConfetti := false)
  }

  // ---------------------------------------------------------------------------
  // Loading and saving

  /** What the saved slot holds: nothing (or the empty text), text that does not parse, or a state. */
  datatype Stored = NoData | Unparsable | Parsed(state: AppState)

  function FreshState(): AppState {
    AppState(Skeleton(TrackedYear), "", 0, false)
  }

  function LoadedState(stored: Stored): (s: AppState)
    ensures stored.Parsed? ==> s == stored.state
  {
    match stored
    case Parsed(state) => state
    case _ => FreshState()
  }

  /** The state is written back only once it holds at least one month. */
  predicate ShouldPersist(s: AppState) {
    |s.calendarData| > 0
  }

  /**
   * Without usable saved data the page starts from the twelve empty months of the
   * tracked year, with no focus, no streak and no confetti; that state is saved.
   */
  lemma FreshStateIsSkeletonAndPersists(stored: Stored)
    requires !stored.Parsed?
    ensures var s := LoadedState(stored);
      && s.weeklyFocus == "" && s.streakCount == 0 && !s.showConfetti
      && (forall m :: m in s.calendarData <==> 0 <= m < 12)
      && (forall m, d :: m in s.calendarData && d in s.calendarData[m].days ==>
            !s.calendarData[m].days[d].studied && s.calendarData[m].days[d].hoursStudied == 0)
      && ShouldPersist(s)
  {
    var cal := Skeleton(TrackedYear);
    assert 0 in cal.Keys;
  }

  /** The reminder shows when it is due and has not been dismissed. */
  predicate ShouldShowReminder(s: AppState, reminderDismissed: bool, today: Date) {
    ReminderDue(s.calendarData, today) && !reminderDismissed
  }

  /** Once dismissed the reminder stays hidden, whatever the calendar. */
  lemma DismissedReminderStaysHidden(s: AppState, today: Date)
    ensures !ShouldShowReminder(s, true, today)
  {
  }

  // ---------------------------------------------------------------------------
  // The page's state

  class Index {
    var appState: AppState
    var reminderDismissed: bool

    constructor()
      ensures appState == AppState(map[], "", 0, false) && !reminderDismissed
      ensures !ShouldPersist(appState)
    {
      appState := AppState(map[], "", 0, false);
      reminderDismissed := false;
    }

    /** The first-render load. */
    method Load(stored: Stored)
      modifies this
      ensures appState == LoadedState(stored)
      ensures reminderDismissed == old(reminderDismissed)
    {
      match stored {
        case Parsed(state) =>
          appState := state;
        case _ =>
          var cal := InitializeCalendarData();
          appState := AppState(cal, "", 0, false);
      }
    }

    method UpdateDay(month: int, day: int, p: Patch, today: Date)
      modifies this
      ensures appState == UpdatedState(old(appState), month, day, p, today)
      ensures reminderDismissed == old(reminderDismissed)
    {
      var prev := appState;
      var newCalendarData := prev.calendarData;
      if month in newCalendarData && day in newCalendarData[month].days {
        var md := newCalendarData[month];
        newCalendarData := newCalendarData[month := md.(days := md.days[day := ApplyPatch(md.days[day], p)])];
        var newStreak := CalculateStreak(newCalendarData, today);
        var oldStreak := prev.streakCount;
        var showConfetti := newStreak >= 7 && newStreak % 7 == 0 && newStreak > oldStreak;
        appState := AppState(newCalendarData, prev.weeklyFocus, newStreak, showConfetti);
      }
    }

    method UpdateWeeklyFocus(focus: string)
      modifies this
      ensures appState == WithWeeklyFocus(old(appState), focus)
      ensures reminderDismissed == old(reminderDismissed)
    {
      appState := appState.(weeklyFocus := focus);
    }

    method HideConfetti()
      modifies this
      ensures appState == WithoutConfetti(old(appState))
      ensures reminderDismissed == old(reminderDismissed)
    {
      appState := appState.(showConfetti := false);
    }

    /** The close button of the reminder. */
    method DismissReminder()
      modifies this
      ensures reminderDismissed && appState == old(appState)
    {
      reminderDismissed := true;
    }

    predicate ShowsReminder(today: Date)
      reads this
    {
      ShouldShowReminder(appState, reminderDismissed, today)
    }
  }
}
