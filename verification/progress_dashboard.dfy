/**
 * The progress dashboard: the kernel's totals, the longest run of studied days
 * from January 1 through today, and the motivation message chosen from them.
 */
module ProgressDashboard {
  import opened Types
  import opened Runs
  import opened CalendarUtils

  /** The year length the dashboard assumes. */
  const DaysInTrackedYear := 365

  /** The assumption holds: the tracked year is not a leap year. */
  lemma TrackedYearLength()
    ensures DaysInYear(TrackedYear, 12) == DaysInTrackedYear
  {
    YearLength(TrackedYear);
  }

  /** The studied flags of days 1..n of month m; a missing record reads as unstudied. */
  function MonthFlags(cal: CalendarData, m: int, n: int): (f: seq<bool>)
    ensures |f| == (if n < 0 then 0 else n)
    decreases n
  {
    if n <= 0 then [] else MonthFlags(cal, m, n - 1) + [Studied(cal, m, n)]
  }

  /** Today's month is read up to today; an earlier month for as many days as it has records. */
  function DaysToCheck(cal: CalendarData, m: int, today: Date): int
    requires m in cal
  {
    if m == today.month then today.day else |cal[m].days|
  }

  /** The flags the dashboard reads for months 0..k-1, skipping a month that is missing. */
  function ScannedFlags(cal: CalendarData, today: Date, k: int): seq<bool>
    decreases k
  {
    if k <= 0 then []
    else if k - 1 in cal then ScannedFlags(cal, today, k - 1) + MonthFlags(cal, k - 1, DaysToCheck(cal, k - 1, today))
    else ScannedFlags(cal, today, k - 1)
  }

  /** The dashboard's streak: the longest run in the flags of months 0..today's month. */
  function DashboardStreak(cal: CalendarData, today: Date): nat {
    LongestRun(ScannedFlags(cal, today, today.month + 1))
  }

  /** The scan's running streak, best streak so far and activity flag describe the flags read so far. */
  predicate Tracks(pre: seq<bool>, cur: nat, maxS: nat, active: bool) {
    cur == TrailingRun(pre) && Max(maxS, cur) == LongestRun(pre) && (active || cur == 0)
  }

  lemma AppendDay(before: seq<bool>, cal: CalendarData, m: int, d: int)
    requires d >= 1
    ensures before + MonthFlags(cal, m, d) == (before + MonthFlags(cal, m, d - 1)) + [Studied(cal, m, d)]
  {
  }

  /**
   * One day of the scan. A studied day extends the running streak, or starts a
   * new one after a break; any other day ends the running streak and keeps the
   * best seen so far.
   */
  method ScanDay(studied: bool, ghost pre: seq<bool>, cur0: nat, maxS0: nat, active0: bool)
    returns (cur: nat, maxS: nat, active: bool)
    requires Tracks(pre, cur0, maxS0, active0)
    ensures Tracks(pre + [studied], cur, maxS, active)
  {
    AppendFlag(pre, studied);
    cur, maxS, active := cur0, maxS0, active0;
    if studied {
      if active {
        cur := cur + 1;
      } else {
        cur := 1;
        active := true;
      }
    } else {
      active := false;
      maxS := Max(maxS, cur);
      cur := 0;
    }
  }

  /** One month of the scan: days 1..daysToCheck in order. */
  method ScanMonth(cal: CalendarData, m: int, daysToCheck: int, ghost before: seq<bool>,
                   cur0: nat, maxS0: nat, active0: bool)
    returns (cur: nat, maxS: nat, active: bool)
    requires Tracks(before, cur0, maxS0, active0)
    ensures Tracks(before + MonthFlags(cal, m, daysToCheck), cur, maxS, active)
  {
    cur, maxS, active := cur0, maxS0, active0;
    var d := 1;
    assert before + MonthFlags(cal, m, 0) == before;
    while d <= daysToCheck
      invariant 1 <= d && (d <= daysToCheck + 1 || d == 1)
      invariant Tracks(before + MonthFlags(cal, m, d - 1), cur, maxS, active)
    {
      AppendDay(before, cal, m, d);
      cur, maxS, active := ScanDay(Studied(cal, m, d), before + MonthFlags(cal, m, d - 1), cur, maxS, active);
      d := d + 1;
    }
    assert MonthFlags(cal, m, d - 1) == MonthFlags(cal, m, daysToCheck);
  }

  method LongestRunToToday(cal: CalendarData, today: Date) returns (streak: nat)
    ensures streak == DashboardStreak(cal, today)
  {
    var cur: nat, maxS: nat, active := 0, 0, true;
    var m := 0;
    while m <= today.month
      invariant 0 <= m && (m <= today.month + 1 || m == 0)
      invariant Tracks(ScannedFlags(cal, today, m), cur, maxS, active)
    {
      if m in cal {
        var daysToCheck := if m == today.month then today.day else |cal[m].days|;
        cur, maxS, active := ScanMonth(cal, m, daysToCheck, ScannedFlags(cal, today, m), cur, maxS, active);
      }
      m := m + 1;
    }
    streak := Max(maxS, cur);
  }

  datatype Progress = Progress(
    totalDaysStudied: nat,
    totalHours: HalfHours,
    daysInYear: nat,
    averageHoursPerDay: real,
    streak: nat)

  method ComputeProgress(cal: CalendarData, today: Date) returns (p: Progress)
    ensures p.totalDaysStudied == CountStudied(Records(cal))
    ensures p.totalHours == SumHours(Records(cal))
    ensures p.daysInYear == DaysInTrackedYear
    ensures IsAverage(p.averageHoursPerDay, p.totalHours, p.totalDaysStudied)
    ensures p.totalDaysStudied == 0 ==> p.averageHoursPerDay == 0.0
    ensures p.streak == DashboardStreak(cal, today)
  {
    var totalDaysStudied, totalHours, _ := Accumulate(Records(cal));
    var streak := LongestRunToToday(cal, today);
    AverageRecoversTotal(totalHours, totalDaysStudied);
    p := Progress(totalDaysStudied, totalHours, DaysInTrackedYear,
                  AverageHours(totalHours, totalDaysStudied), streak);
  }

  // ---------------------------------------------------------------------------
  // What the streak reads

  /** Two calendars look alike to the scan when the months it visits match in presence and size, and the days it reads match. */
  ghost predicate AgreeUpTo(c1: CalendarData, c2: CalendarData, today: Date) {
    && (forall m :: 0 <= m <= today.month ==> (m in c1 <==> m in c2))
    && (forall m :: 0 <= m < today.month && m in c1 && m in c2 ==> |c1[m].days| == |c2[m].days|)
    && (forall m, d :: OnOrBefore(m, d, today) ==> (Studied(c1, m, d) <==> Studied(c2, m, d)))
  }

  lemma {:induction false} MonthFlagsAgree(c1: CalendarData, c2: CalendarData, m: int, n: int)
    requires forall d :: 1 <= d <= n ==> (Studied(c1, m, d) <==> Studied(c2, m, d))
    ensures MonthFlags(c1, m, n) == MonthFlags(c2, m, n)
    decreases n
  {
    if n > 0 {
      MonthFlagsAgree(c1, c2, m, n - 1);
    }
  }

  lemma {:induction false} ScannedFlagsAgree(c1: CalendarData, c2: CalendarData, today: Date, k: int)
    requires k <= today.month + 1
    requires AgreeUpTo(c1, c2, today)
    ensures ScannedFlags(c1, today, k) == ScannedFlags(c2, today, k)
    decreases k
  {
    if k > 0 {
      ScannedFlagsAgree(c1, c2, today, k - 1);
      var m := k - 1;
      if m in c1 {
        MonthFlagsAgree(c1, c2, m, DaysToCheck(c1, m, today));
      }
    }
  }

  /** The streak reads no day after today and no month after today's month. */
  lemma DashboardReadsOnlyUpToToday(c1: CalendarData, c2: CalendarData, today: Date)
    requires AgreeUpTo(c1, c2, today)
    ensures DashboardStreak(c1, today) == DashboardStreak(c2, today)
  {
    ScannedFlagsAgree(c1, c2, today, today.month + 1);
  }

  /** A missing month adds nothing to the scan and so does not break a run; a missing day reads as unstudied and does. */
  lemma MissingMonthSkippedMissingDayBreaks(cal: CalendarData, today: Date, m: int, d: int)
    requires 0 <= m <= today.month
    ensures m !in cal ==> ScannedFlags(cal, today, m + 1) == ScannedFlags(cal, today, m)
    ensures m in cal && 1 <= d <= DaysToCheck(cal, m, today) && d !in cal[m].days ==>
      !MonthFlags(cal, m, DaysToCheck(cal, m, today))[d - 1]
  {
    if m in cal && 1 <= d <= DaysToCheck(cal, m, today) {
      MonthFlagsIndex(cal, m, DaysToCheck(cal, m, today), d);
    }
  }

  lemma {:induction false} MonthFlagsIndex(cal: CalendarData, m: int, n: int, d: int)
    requires 1 <= d <= n
    ensures MonthFlags(cal, m, n)[d - 1] == Studied(cal, m, d)
    decreases n
  {
    if d < n {
      MonthFlagsIndex(cal, m, n - 1, d);
    }
  }

  // ---------------------------------------------------------------------------
  // The dashboard streak against the kernel's streak

  lemma {:induction false} MonthFlagsTrailingRun(cal: CalendarData, m: int, n: int)
    ensures TrailingRun(MonthFlags(cal, m, n)) == RunBack(cal, m, n)
    decreases n
  {
    if n > 0 {
      var f := MonthFlags(cal, m, n);
      assert f[..|f| - 1] == MonthFlags(cal, m, n - 1);
      MonthFlagsTrailingRun(cal, m, n - 1);
    }
  }

  /** The dashboard streak is at least the run of studied days that ends today in today's month. */
  lemma DashboardAtLeastRunEndingToday(cal: CalendarData, today: Date)
    requires 0 <= today.month
    ensures DashboardStreak(cal, today) >= RunBack(cal, today.month, today.day)
  {
    var m := today.month;
    if m in cal {
      var before := ScannedFlags(cal, today, m);
      var month := MonthFlags(cal, m, today.day);
      MonthFlagsTrailingRun(cal, m, today.day);
      TrailingRunOfSuffix(before, month);
    }
  }

  /**
   * The kernel's streak adds runs that need not touch: on February 3, with
   * January 31, February 2 and February 3 studied and February 1 not, it
   * counts 3, while the dashboard finds no run longer than 2 (it reads
   * January's single record count as "day 1 only").
   */
  lemma KernelStreakExceedsDashboardStreak()
    ensures var s := DayData(Date(2025, 0, 31), true, 2, "", None, None);
      var cal := map[0 := MonthData(0, 2025, map[31 := s]),
                     1 := MonthData(1, 2025, map[1 := s.(studied := false), 2 := s, 3 := s])];
      StreakAsWritten(cal, Date(2025, 1, 3)) == 3 && DashboardStreak(cal, Date(2025, 1, 3)) == 2
  {
    var s := DayData(Date(2025, 0, 31), true, 2, "", None, None);
    var cal := map[0 := MonthData(0, 2025, map[31 := s]),
                   1 := MonthData(1, 2025, map[1 := s.(studied := false), 2 := s, 3 := s])];
    var today := Date(2025, 1, 3);
    assert RunBack(cal, 1, 1) == 0;
    assert RunBack(cal, 1, 3) == 2;
    assert RunBack(cal, 0, 30) == 0;
    assert RunBack(cal, 0, 31) == 1;
    assert DaysInMonth(2025, 0) == 31;
    assert EarlierRun(cal, 2025, 0) == 1;
    assert |cal[0].days| == 1;
    var jan := MonthFlags(cal, 0, 1);
    assert jan == [false];
    var feb := MonthFlags(cal, 1, 3);
    assert MonthFlags(cal, 1, 1) == [false];
    assert MonthFlags(cal, 1, 2) == [false, true];
    assert feb == [false, true, true];
    assert ScannedFlags(cal, today, 1) == jan;
    var f := ScannedFlags(cal, today, 2);
    assert f == [false, false, true, true];
    assert f[..3] == [false, false, true] && f[..3][..2] == [false, false];
    assert f[..3][..2][..1] == [false] && [false][..0] == [];
    assert LongestRun(f[..3][..2]) == 0;
    assert LongestRun(f[..3]) == 1;
    assert LongestRun(f) == 2;
  }

  // ---------------------------------------------------------------------------
  // The motivation message

  datatype Motivation = OnFire | KeepTheStreak | Consistency | SolidProgress | EverySession

  /** The first rule that applies wins: a week's streak, three days, over 30 days, over 50 hours. */
  function MotivationMessage(streak: nat, totalDaysStudied: nat, totalHours: HalfHours): (msg: Motivation)
    ensures msg == OnFire <==> streak >= 7
  {
    if streak >= 7 then OnFire
    else if streak >= 3 then KeepTheStreak
    else if totalDaysStudied > 30 then Consistency
    else if totalHours > 100 then SolidProgress
    else EverySession
  }

  function Priority(msg: Motivation): nat {
    match msg
    case OnFire => 0
    case KeepTheStreak => 1
    case Consistency => 2
    case SolidProgress => 3
    case EverySession => 4
  }

  /** Each message is shown exactly when its rule holds and no earlier rule does. */
  lemma MotivationPriority(streak: nat, days: nat, hours: HalfHours)
    ensures MotivationMessage(streak, days, hours) == KeepTheStreak <==> 3 <= streak < 7
    ensures MotivationMessage(streak, days, hours) == Consistency <==> streak < 3 && days > 30
    ensures MotivationMessage(streak, days, hours) == SolidProgress <==> streak < 3 && days <= 30 && hours > 100
    ensures MotivationMessage(streak, days, hours) == EverySession <==> streak < 3 && days <= 30 && hours <= 100
  {
  }

  /** More progress never gives a lower-priority message. */
  lemma MotivationMonotone(s1: nat, d1: nat, h1: HalfHours, s2: nat, d2: nat, h2: HalfHours)
    requires s1 <= s2 && d1 <= d2 && h1 <= h2
    ensures Priority(MotivationMessage(s2, d2, h2)) <= Priority(MotivationMessage(s1, d1, h1))
  {
  }
}
