/**
 * The calendar kernel: the year skeleton, month lengths, the backward streak
 * walk, the three-day reminder and the study totals. "Today" is a parameter
 * wherever the application reads the clock.
 */
module CalendarUtils {
  import opened Types
  import opened Text
  import opened OrderedKeys

  /** The one year the application keeps records for. */
  const TrackedYear := 2025

  // ---------------------------------------------------------------------------
  // Month lengths

  predicate IsLeapYear(y: int) {
    y % 4 == 0 && (y % 100 != 0 || y % 400 == 0)
  }

  /** Days in the months before month `m` (0..12) of year `y`. */
  function DaysBeforeMonth(y: int, m: int): int
    requires 0 <= m <= 12
  {
    var table := [0, 31, 59, 90, 120, 151, 181, 212, 243, 273, 304, 334, 365];
    table[m] + (if m >= 2 && IsLeapYear(y) then 1 else 0)
  }

  /** The `Date` constructor reads a year argument 0..99 as 1900..1999. */
  function ConstructorYear(year: int): int {
    if 0 <= year <= 99 then 1900 + year else year
  }

  /**
   * `new Date(year, month + 1, 0).getDate()`: day 0 of the next month is the last
   * day of `month`, after the month has been carried into the year.
   */
  function DaysInMonth(year: int, month: int): (n: int)
    ensures 28 <= n <= 31
    ensures var y, m := ConstructorYear(year) + month / 12, month % 12;
      && (m == 1 ==> n == (if IsLeapYear(y) then 29 else 28))
      && (m == 3 || m == 5 || m == 8 || m == 10 ==> n == 30)
      && (m == 0 || m == 2 || m == 4 || m == 6 || m == 7 || m == 9 || m == 11 ==> n == 31)
  {
    var y, m := ConstructorYear(year) + month / 12, month % 12;
    DaysBeforeMonth(y, m + 1) - DaysBeforeMonth(y, m)
  }

  function DaysInYear(year: int, months: nat): int
    requires months <= 12
  {
    if months == 0 then 0 else DaysInYear(year, months - 1) + DaysInMonth(year, months - 1)
  }

  lemma {:induction false} DaysInYearTelescopes(year: int, months: nat)
    requires year >= 100 && months <= 12
    ensures DaysInYear(year, months) == DaysBeforeMonth(year, months)
  {
    if months > 0 {
      DaysInYearTelescopes(year, months - 1);
    }
  }

  /** The twelve month lengths add up to the length of the year. */
  lemma YearLength(year: int)
    requires year >= 100
    ensures DaysInYear(year, 12) == if IsLeapYear(year) then 366 else 365
  {
    DaysInYearTelescopes(year, 12);
  }

  /** A date as the `Date` getters can report it. */
  predicate ValidDate(d: Date) {
    0 <= d.month < 12 && 1 <= d.day <= DaysInMonth(d.year, d.month)
  }

  /** A number that orders dates as the calendar does: by year, then month, then day. */
  function DateKey(d: Date): int {
    d.year * 400 + d.month * 32 + d.day
  }

  predicate DateBefore(a: Date, b: Date) {
    a.year < b.year || (a.year == b.year && (a.month < b.month || (a.month == b.month && a.day < b.day)))
  }

  /** On dates with a month 0..11 and a day 1..31 the key follows the calendar order. */
  lemma DateKeyOrder(a: Date, b: Date)
    requires 0 <= a.month < 12 && 1 <= a.day <= 31
    requires 0 <= b.month < 12 && 1 <= b.day <= 31
    ensures DateKey(a) < DateKey(b) <==> DateBefore(a, b)
    ensures DateKey(a) == DateKey(b) <==> a == b
  {
  }

  // ---------------------------------------------------------------------------
  // The year skeleton

  function EmptyDay(d: Date): DayData {
    DayData(d, false, 0, "", Some(""), None)
  }

  function SkeletonMonth(year: int, m: int): MonthData {
    MonthData(m, year, map d | 1 <= d <= DaysInMonth(year, m) :: EmptyDay(Date(year, m, d)))
  }

  function Skeleton(year: int): CalendarData {
    map m | 0 <= m < 12 :: SkeletonMonth(year, m)
  }

  /** Builds the empty calendar of the tracked year, month by month and day by day. */
  method InitializeCalendarData() returns (cal: CalendarData)
    ensures cal == Skeleton(TrackedYear)
    ensures forall m :: m in cal <==> 0 <= m < 12
    ensures forall m :: m in cal ==> cal[m].month == m && cal[m].year == TrackedYear
    ensures forall m, d :: m in cal ==> (d in cal[m].days <==> 1 <= d <= DaysInMonth(TrackedYear, m))
    ensures forall m, d :: m in cal && d in cal[m].days ==>
      cal[m].days[d] == EmptyDay(Date(TrackedYear, m, d)) && ValidDate(cal[m].days[d].date)
  {
    cal := map[];
    var month := 0;
    while month < 12
      invariant 0 <= month <= 12
      invariant cal == map m | 0 <= m < month :: SkeletonMonth(TrackedYear, m)
    {
      var daysInMonth := DaysInMonth(TrackedYear, month);
      var days: map<int, DayData> := map[];
      var day := 1;
      while day <= daysInMonth
        invariant 1 <= day <= daysInMonth + 1
        invariant days == map d | 1 <= d < day :: EmptyDay(Date(TrackedYear, month, d))
      {
        days := days[day := EmptyDay(Date(TrackedYear, month, day))];
        day := day + 1;
      }
      assert days == SkeletonMonth(TrackedYear, month).days;
      cal := cal[month := MonthData(month, TrackedYear, days)];
      month := month + 1;
    }
  }

  // ---------------------------------------------------------------------------
  // The date text of a skeleton record

  function PreviousDay(d: Date): Date {
    if d.day > 1 then Date(d.year, d.month, d.day - 1)
    else if d.month > 0 then Date(d.year, d.month - 1, DaysInMonth(d.year, d.month - 1))
    else Date(d.year - 1, 11, 31)
  }

  /**
   * The date text the skeleton stores, as written: the UTC date of local midnight,
   * in a time zone `utcOffsetMinutes` ahead of UTC. East of UTC local midnight
   * falls on the previous UTC day.
   */
  function SkeletonDateString(d: Date, utcOffsetMinutes: int): string
    requires 1 <= d.year <= 9999 && ValidDate(d)
    requires -1440 < utcOffsetMinutes < 1440
  {
    if utcOffsetMinutes > 0 then IsoDate(PreviousDay(d)) else IsoDate(d)
  }

  /** East of UTC every skeleton record carries the text of the wrong day. */
  lemma SkeletonDateStringIsWrongEastOfUtc(d: Date, utcOffsetMinutes: int)
    requires 1 <= d.year <= 9999 && ValidDate(d)
    requires 0 < utcOffsetMinutes < 1440
    ensures SkeletonDateString(d, utcOffsetMinutes) != IsoDate(d)
    ensures ParseIsoDate(SkeletonDateString(d, utcOffsetMinutes)) == Some(PreviousDay(d))
  {
    IsoDateRoundTrip(d);
    IsoDateRoundTrip(PreviousDay(d));
  }

  // ---------------------------------------------------------------------------
  // The records of a calendar in `Object.values` order

  /** The records of a month in ascending day order. */
  function MonthRecords(md: MonthData): (r: seq<DayData>)
    ensures |r| == |md.days|
  {
    var ks := Ascending(md.days.Keys);
    seq(|ks|, i requires 0 <= i < |ks| => md.days[ks[i]])
  }

  predicate HasDay(md: MonthData, x: DayData) {
    exists d :: d in md.days && md.days[d] == x
  }

  lemma MonthRecordsMembership(md: MonthData, x: DayData)
    ensures x in MonthRecords(md) <==> HasDay(md, x)
  {
    var ks := Ascending(md.days.Keys);
    var r := MonthRecords(md);
    if x in r {
      var i :| 0 <= i < |r| && r[i] == x;
      assert md.days[ks[i]] == x;
    }
    if HasDay(md, x) {
      var d :| d in md.days && md.days[d] == x;
      assert d in ks;
      var i :| 0 <= i < |ks| && ks[i] == d;
      assert r[i] == x;
    }
  }

  /** The parts one after another. */
  function Concat<T>(parts: seq<seq<T>>): seq<T> {
    if parts == [] then [] else Concat(parts[..|parts| - 1]) + parts[|parts| - 1]
  }

  predicate InPart<T(==)>(parts: seq<seq<T>>, i: int, x: T) {
    0 <= i < |parts| && x in parts[i]
  }

  lemma {:induction false} ConcatMembership<T>(parts: seq<seq<T>>, x: T)
    ensures x in Concat(parts) <==> exists i :: InPart(parts, i, x)
  {
    if parts != [] {
      var n := |parts| - 1;
      var init := parts[..n];
      ConcatMembership(init, x);
      assert Concat(parts) == Concat(init) + parts[n];
      if x in Concat(parts) {
        if x in Concat(init) {
          var i :| InPart(init, i, x);
          assert InPart(parts, i, x);
        } else {
          assert InPart(parts, n, x);
        }
      }
      if exists i :: InPart(parts, i, x) {
        var i :| InPart(parts, i, x);
        if i < n {
          assert InPart(init, i, x);
        }
      }
    }
  }

  /** The records of each month, months in ascending order. */
  function MonthsOf(cal: CalendarData): (parts: seq<seq<DayData>>)
    ensures |parts| == |cal|
  {
    var ks := Ascending(cal.Keys);
    seq(|ks|, i requires 0 <= i < |ks| => MonthRecords(cal[ks[i]]))
  }

  /** Every record of the calendar, ordered by month and then by day. */
  function Records(cal: CalendarData): seq<DayData> {
    Concat(MonthsOf(cal))
  }

  predicate HasRecord(cal: CalendarData, x: DayData) {
    exists m, d :: m in cal && d in cal[m].days && cal[m].days[d] == x
  }

  /** The sequence holds exactly the records of the calendar. */
  lemma RecordsMembership(cal: CalendarData, x: DayData)
    ensures x in Records(cal) <==> HasRecord(cal, x)
  {
    var ks := Ascending(cal.Keys);
    var parts := MonthsOf(cal);
    ConcatMembership(parts, x);
    if x in Records(cal) {
      var i :| InPart(parts, i, x);
      MonthRecordsMembership(cal[ks[i]], x);
      var d :| d in cal[ks[i]].days && cal[ks[i]].days[d] == x;
    }
    if HasRecord(cal, x) {
      var m, d :| m in cal && d in cal[m].days && cal[m].days[d] == x;
      assert m in ks;
      var i :| 0 <= i < |ks| && ks[i] == m;
      MonthRecordsMembership(cal[m], x);
      assert InPart(parts, i, x);
    }
  }

  // ---------------------------------------------------------------------------
  // The backward streak walk

  /** The studied days d, d-1, ... of month m, counted until the first unstudied one. */
  function RunBack(cal: CalendarData, m: int, d: int): (r: nat)
    ensures r <= (if d < 0 then 0 else d)
    decreases d
  {
    if d < 1 || !Studied(cal, m, d) then 0 else 1 + RunBack(cal, m, d - 1)
  }

  /**
   * The walk through months m, m-1, ..., 0 from each month's last day: a fully
   * studied month adds its length and the walk goes on; otherwise the walk ends.
   */
  function EarlierRun(cal: CalendarData, year: int, m: int): nat
    decreases m
  {
    if m < 0 then 0
    else
      var n := DaysInMonth(year, m);
      if RunBack(cal, m, n) == n then n + EarlierRun(cal, year, m - 1) else RunBack(cal, m, n)
  }

  /**
   * The streak as the application computes it: the run that ends today within
   * today's month, plus the walk through the earlier months, which starts at the
   * last day of the previous month whether or not the first run reached day 1.
   */
  function StreakAsWritten(cal: CalendarData, today: Date): nat {
    RunBack(cal, today.month, today.day) + EarlierRun(cal, today.year, today.month - 1)
  }

  method CalculateStreak(cal: CalendarData, today: Date) returns (streak: nat)
    ensures streak == StreakAsWritten(cal, today)
    ensures streak >= RunBack(cal, today.month, today.day)
  {
    streak := 0;
    var d := today.day;
    while d >= 1
      invariant d <= today.day
      invariant streak + RunBack(cal, today.month, d) == RunBack(cal, today.month, today.day)
    {
      if Studied(cal, today.month, d) {
        streak := streak + 1;
      } else {
        break;
      }
      d := d - 1;
    }
    ghost var first := streak;
    var m := today.month - 1;
    while m >= 0
      invariant m <= today.month - 1
      invariant first + EarlierRun(cal, today.year, today.month - 1) == streak + EarlierRun(cal, today.year, m)
    {
      var n := DaysInMonth(today.year, m);
      ghost var before := streak;
      var day := n;
      while day >= 1
        invariant 0 <= day <= n
        invariant RunBack(cal, m, n) == (n - day) + RunBack(cal, m, day)
        invariant streak == before + (n - day)
      {
        if Studied(cal, m, day) {
          streak := streak + 1;
        } else {
          return;
        }
        day := day - 1;
      }
      m := m - 1;
    }
  }

  /** The first and last day on which a streak that includes today could have started. */
  predicate OnOrBefore(m: int, d: int, today: Date) {
    0 <= m && 1 <= d && (m < today.month || (m == today.month && d <= today.day))
  }

  lemma {:induction false} RunBackReadsOnlyEarlierDays(c1: CalendarData, c2: CalendarData, m: int, d: int)
    requires forall k :: 1 <= k <= d ==> (Studied(c1, m, k) <==> Studied(c2, m, k))
    ensures RunBack(c1, m, d) == RunBack(c2, m, d)
    decreases d
  {
    if d >= 1 {
      RunBackReadsOnlyEarlierDays(c1, c2, m, d - 1);
    }
  }

  lemma {:induction false} EarlierRunReadsOnlyEarlierMonths(c1: CalendarData, c2: CalendarData, year: int, m: int)
    requires forall k, d :: 0 <= k <= m && 1 <= d ==> (Studied(c1, k, d) <==> Studied(c2, k, d))
    ensures EarlierRun(c1, year, m) == EarlierRun(c2, year, m)
    decreases m
  {
    if m >= 0 {
      RunBackReadsOnlyEarlierDays(c1, c2, m, DaysInMonth(year, m));
      EarlierRunReadsOnlyEarlierMonths(c1, c2, year, m - 1);
    }
  }

  /**
   * The walk reads no day after today, no month after today's month and no
   * month before January: two calendars that agree from January 1 up to today
   * give the same streak.
   */
  lemma StreakReadsOnlyUpToToday(c1: CalendarData, c2: CalendarData, today: Date)
    requires ValidDate(today)
    requires forall m, d :: OnOrBefore(m, d, today) ==> (Studied(c1, m, d) <==> Studied(c2, m, d))
    ensures StreakAsWritten(c1, today) == StreakAsWritten(c2, today)
  {
    RunBackReadsOnlyEarlierDays(c1, c2, today.month, today.day);
    EarlierRunReadsOnlyEarlierMonths(c1, c2, today.year, today.month - 1);
  }

  /**
   * With today unstudied the first walk stops at once, but the second still
   * runs: the result is the run that ends on the last day of the previous month.
   */
  lemma StreakWhenTodayUnstudied(cal: CalendarData, today: Date)
    requires !Studied(cal, today.month, today.day)
    ensures StreakAsWritten(cal, today) == EarlierRun(cal, today.year, today.month - 1)
    ensures today.month >= 1 ==> StreakAsWritten(cal, today) >= RunBack(cal, today.month - 1, DaysInMonth(today.year, today.month - 1))
  {
  }

  /** A concrete case: on February 1 with that day unstudied, January 31 alone gives a streak of 1. */
  lemma StreakCountsLastMonthWhenTodayUnstudied()
    ensures var studied := DayData(Date(2025, 0, 31), true, 2, "", None, None);
      var cal := map[0 := MonthData(0, 2025, map[31 := studied])];
      !Studied(cal, 1, 1) && StreakAsWritten(cal, Date(2025, 1, 1)) == 1
  {
    var studied := DayData(Date(2025, 0, 31), true, 2, "", None, None);
    var cal := map[0 := MonthData(0, 2025, map[31 := studied])];
    assert RunBack(cal, 0, 30) == 0;
    assert RunBack(cal, 0, 31) == 1;
    assert DaysInMonth(2025, 0) == 31;
  }

  /** Studied days 1..d of month m. */
  function StudiedInMonth(cal: CalendarData, m: int, d: int): nat
    decreases d
  {
    if d < 1 then 0 else StudiedInMonth(cal, m, d - 1) + (if Studied(cal, m, d) then 1 else 0)
  }

  /** Studied days in the whole months 0..m-1. */
  function StudiedInMonthsBefore(cal: CalendarData, year: int, m: int): nat
    decreases m
  {
    if m <= 0 then 0
    else StudiedInMonthsBefore(cal, year, m - 1) + StudiedInMonth(cal, m - 1, DaysInMonth(year, m - 1))
  }

  lemma {:induction false} RunBackAtMostStudied(cal: CalendarData, m: int, d: int)
    ensures RunBack(cal, m, d) <= StudiedInMonth(cal, m, d)
    decreases d
  {
    if d >= 1 {
      RunBackAtMostStudied(cal, m, d - 1);
    }
  }

  lemma {:induction false} EarlierRunAtMostStudied(cal: CalendarData, year: int, m: int)
    ensures EarlierRun(cal, year, m) <= StudiedInMonthsBefore(cal, year, m + 1)
    decreases m
  {
    if m >= 0 {
      RunBackAtMostStudied(cal, m, DaysInMonth(year, m));
      EarlierRunAtMostStudied(cal, year, m - 1);
    }
  }

  /** The streak never exceeds the number of studied days from January 1 through today. */
  lemma StreakAtMostStudiedDays(cal: CalendarData, today: Date)
    ensures StreakAsWritten(cal, today)
      <= StudiedInMonthsBefore(cal, today.year, today.month) + StudiedInMonth(cal, today.month, today.day)
  {
    RunBackAtMostStudied(cal, today.month, today.day);
    EarlierRunAtMostStudied(cal, today.year, today.month - 1);
  }

  // ---------------------------------------------------------------------------
  // The three-day reminder

  /**
   * No day among today and the two before it, within today's month, is studied.
   * A lookback day that falls into the previous month is not looked at.
   */
  predicate ReminderDue(cal: CalendarData, today: Date) {
    forall d :: today.day - 2 <= d <= today.day && 1 <= d ==> !Studied(cal, today.month, d)
  }

  method CheckReminder(cal: CalendarData, today: Date) returns (show: bool)
    ensures show == ReminderDue(cal, today)
    ensures !show <==> exists d :: today.day - 2 <= d <= today.day && 1 <= d && Studied(cal, today.month, d)
  {
    for i := 0 to 3
      invariant forall d :: today.day - i < d <= today.day && 1 <= d ==> !Studied(cal, today.month, d)
    {
      var day := today.day - i;
      // setDate(day) moves a day below 1 into the previous month, which is skipped
      if day >= 1 && Studied(cal, today.month, day) {
        return false;
      }
    }
    return true;
  }

  /** A reminder is due only when no run of studied days ends today. */
  lemma ReminderDueMeansNoRunEndingToday(cal: CalendarData, today: Date)
    requires today.day >= 1
    ensures ReminderDue(cal, today) ==> RunBack(cal, today.month, today.day) == 0
    ensures RunBack(cal, today.month, today.day) >= 1 ==> !ReminderDue(cal, today)
  {
  }

  // ---------------------------------------------------------------------------
  // Totals

  function CountStudied(s: seq<DayData>): (n: nat)
    ensures n <= |s|
  {
    if s == [] then 0 else CountStudied(s[..|s| - 1]) + (if s[|s| - 1].studied then 1 else 0)
  }

  /** Total time of the studied records; time logged on unstudied records is not counted. */
  function SumHours(s: seq<DayData>): HalfHours {
    if s == [] then 0
    else SumHours(s[..|s| - 1]) + (if s[|s| - 1].studied then s[|s| - 1].hoursStudied else 0)
  }

  /** The best time seen so far and the date it was seen on. */
  datatype Best = Best(hours: HalfHours, day: Option<Date>)

  /** Scans for the first studied record whose time is strictly greater than every earlier best, starting from 0. */
  function MostProductive(s: seq<DayData>): Best {
    if s == [] then Best(0, None)
    else
      var b := MostProductive(s[..|s| - 1]);
      var x := s[|s| - 1];
      if x.studied && x.hoursStudied > b.hours then Best(x.hoursStudied, Some(x.date)) else b
  }

  /** s[i] is the first studied record with the best time, and that time is positive. */
  predicate FirstBestAt(s: seq<DayData>, i: int, b: Best) {
    && 0 <= i < |s|
    && s[i].studied && s[i].hoursStudied == b.hours > 0 && b.day == Some(s[i].date)
    && forall j :: 0 <= j < i && s[j].studied ==> s[j].hoursStudied < b.hours
  }

  /**
   * The most productive day is the first studied record with the greatest time;
   * ties keep the first; there is none when no studied record has a positive time.
   */
  lemma {:induction false} MostProductiveIsFirstMaximum(s: seq<DayData>)
    ensures MostProductive(s).hours >= 0
    ensures forall i :: 0 <= i < |s| && s[i].studied ==> s[i].hoursStudied <= MostProductive(s).hours
    ensures MostProductive(s).day == None <==> forall i :: 0 <= i < |s| && s[i].studied ==> s[i].hoursStudied <= 0
    ensures MostProductive(s).day == None ==> MostProductive(s).hours == 0
    ensures MostProductive(s).day != None ==> exists i :: FirstBestAt(s, i, MostProductive(s))
  {
    if s != [] {
      var init := s[..|s| - 1];
      MostProductiveIsFirstMaximum(init);
      var b := MostProductive(init);
      var x := s[|s| - 1];
      assert forall i :: 0 <= i < |init| ==> init[i] == s[i];
      if x.studied && x.hoursStudied > b.hours {
        assert FirstBestAt(s, |s| - 1, MostProductive(s));
      } else if b.day != None {
        var i :| FirstBestAt(init, i, b);
        assert FirstBestAt(s, i, MostProductive(s));
      }
    }
  }

  /** The average per studied day in hours; 0 when nothing is studied. */
  function AverageHours(totalHalfHours: int, days: nat): real {
    if days > 0 then totalHalfHours as real / (2 * days) as real else 0.0
  }

  /** `avg` hours per day over `days` days make up `totalHalfHours` half hours in all. */
  predicate IsAverage(avg: real, totalHalfHours: int, days: nat) {
    days > 0 ==> avg * (2 * days) as real == totalHalfHours as real
  }

  lemma AverageRecoversTotal(totalHalfHours: int, days: nat)
    ensures IsAverage(AverageHours(totalHalfHours, days), totalHalfHours, days)
  {
  }

  datatype Summary = Summary(
    totalDaysStudied: nat,
    totalHours: HalfHours,
    averageHoursPerDay: real,
    mostProductiveDay: Option<Date>,
    mostProductiveHours: HalfHours)

  /** One pass over the records, accumulating the totals and the best day. */
  method Accumulate(all: seq<DayData>) returns (totalDaysStudied: nat, totalHours: HalfHours, best: Best)
    ensures totalDaysStudied == CountStudied(all)
    ensures totalHours == SumHours(all)
    ensures best == MostProductive(all)
  {
    totalDaysStudied, totalHours, best := 0, 0, Best(0, None);
    for i := 0 to |all|
      invariant totalDaysStudied == CountStudied(all[..i])
      invariant totalHours == SumHours(all[..i])
      invariant best == MostProductive(all[..i])
    {
      assert all[..i + 1][..i] == all[..i];
      var day := all[i];
      if day.studied {
        totalDaysStudied := totalDaysStudied + 1;
        totalHours := totalHours + day.hoursStudied;
        if day.hoursStudied > best.hours {
          best := Best(day.hoursStudied, Some(day.date));
        }
      }
    }
    assert all[..|all|] == all;
  }

  method GetStatistics(cal: CalendarData) returns (r: Summary)
    ensures r.totalDaysStudied == CountStudied(Records(cal))
    ensures r.totalHours == SumHours(Records(cal))
    ensures r.mostProductiveDay == MostProductive(Records(cal)).day
    ensures r.mostProductiveHours == MostProductive(Records(cal)).hours
    ensures r.totalDaysStudied == 0 ==> r.averageHoursPerDay == 0.0
    ensures IsAverage(r.averageHoursPerDay, r.totalHours, r.totalDaysStudied)
  {
    var totalDaysStudied, totalHours, best := Accumulate(Records(cal));
    AverageRecoversTotal(totalHours, totalDaysStudied);
    r := Summary(totalDaysStudied, totalHours, AverageHours(totalHours, totalDaysStudied), best.day, best.hours);
  }
}
