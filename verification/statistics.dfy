/**
 * The statistics page: the same totals as the calendar kernel, a count of the
 * unstudied days, and two streaks found by scanning every record in date order.
 */
module Statistics {
  import opened Types
  import opened Sorting
  import opened Runs
  import opened CalendarUtils

  /** What the page keeps of each record. */
  datatype DayRow = DayRow(date: Date, studied: bool, hours: HalfHours)

  function RowKey(r: DayRow): int {
    DateKey(r.date)
  }

  function RowOf(x: DayData): DayRow {
    DayRow(x.date, x.studied, x.hoursStudied)
  }

  function Rows(s: seq<DayData>): (r: seq<DayRow>)
    ensures |r| == |s| && forall i :: 0 <= i < |s| ==> r[i] == RowOf(s[i])
  {
    seq(|s|, i requires 0 <= i < |s| => RowOf(s[i]))
  }

  function Flags(rows: seq<DayRow>): (f: seq<bool>)
    ensures |f| == |rows| && forall i :: 0 <= i < |rows| ==> f[i] == rows[i].studied
  {
    seq(|rows|, i requires 0 <= i < |rows| => rows[i].studied)
  }

  /** Every record of the calendar, sorted by date. */
  function Chronological(cal: CalendarData): seq<DayRow> {
    InsertionSort(Rows(Records(cal)), RowKey)
  }

  /** The sorted rows are the calendar's records, each once, in non-decreasing date order. */
  lemma ChronologicalIsSortedPermutation(cal: CalendarData)
    ensures multiset(Chronological(cal)) == multiset(Rows(Records(cal)))
    ensures forall i, j :: 0 <= i < j < |Chronological(cal)| ==>
      DateKey(Chronological(cal)[i].date) <= DateKey(Chronological(cal)[j].date)
    ensures forall r :: r in Chronological(cal) <==> exists x :: HasRecord(cal, x) && r == RowOf(x)
  {
    var rows := Rows(Records(cal));
    var c := Chronological(cal);
    forall r
      ensures r in c <==> exists x :: HasRecord(cal, x) && r == RowOf(x)
    {
      assert r in c <==> r in multiset(rows);
      if r in rows {
        var i :| 0 <= i < |rows| && rows[i] == r;
        RecordsMembership(cal, Records(cal)[i]);
      }
      if exists x :: HasRecord(cal, x) && r == RowOf(x) {
        var x :| HasRecord(cal, x) && r == RowOf(x);
        RecordsMembership(cal, x);
        var i :| 0 <= i < |Records(cal)| && Records(cal)[i] == x;
        assert rows[i] == r;
      }
    }
  }

  datatype StatisticsData = StatisticsData(
    totalDaysStudied: nat,
    totalDaysNotStudied: nat,
    averageHoursPerDay: real,
    mostProductiveDay: Option<Date>,
    mostProductiveHours: HalfHours,
    longestStreak: nat,
    currentStreak: nat)

  /** The pass over the records that collects the rows and the counts. */
  method CollectRows(all: seq<DayData>)
    returns (rows: seq<DayRow>, studied: nat, notStudied: nat, hours: HalfHours, best: Best)
    ensures rows == Rows(all)
    ensures studied == CountStudied(all) && studied + notStudied == |all|
    ensures hours == SumHours(all)
    ensures best == MostProductive(all)
  {
    rows, studied, notStudied, hours, best := [], 0, 0, 0, Best(0, None);
    for i := 0 to |all|
      invariant rows == Rows(all[..i])
      invariant studied == CountStudied(all[..i]) && studied + notStudied == i
      invariant hours == SumHours(all[..i])
      invariant best == MostProductive(all[..i])
    {
      assert all[..i + 1][..i] == all[..i];
      var day := all[i];
      rows := rows + [RowOf(day)];
      if day.studied {
        studied := studied + 1;
        hours := hours + day.hoursStudied;
        if day.hoursStudied > best.hours {
          best := Best(day.hoursStudied, Some(day.date));
        }
      } else {
        notStudied := notStudied + 1;
      }
    }
    assert all[..|all|] == all;
  }

  /**
   * The forward scan: a studied row extends the running streak and records it as
   * the current one; an unstudied row resets the running streak only.
   */
  method ScanStreaks(rows: seq<DayRow>) returns (longest: nat, current: nat)
    ensures longest == LongestRun(Flags(rows))
    ensures current == LastRun(Flags(rows))
    ensures current <= longest
  {
    var f := Flags(rows);
    var temp: nat := 0;
    longest, current := 0, 0;
    for i := 0 to |rows|
      invariant temp == TrailingRun(f[..i])
      invariant current == LastRun(f[..i])
      invariant longest == LongestRun(f[..i])
      invariant current <= longest
    {
      assert f[..i + 1][..i] == f[..i];
      if rows[i].studied {
        temp := temp + 1;
        current := temp;
        if temp > longest {
          longest := temp;
        }
      } else {
        temp := 0;
      }
    }
    assert f[..|rows|] == f;
  }

  method ComputeStatistics(cal: CalendarData) returns (r: StatisticsData)
    ensures r.totalDaysStudied == CountStudied(Records(cal))
    ensures r.totalDaysStudied + r.totalDaysNotStudied == |Records(cal)|
    ensures IsAverage(r.averageHoursPerDay, SumHours(Records(cal)), r.totalDaysStudied)
    ensures r.totalDaysStudied == 0 ==> r.averageHoursPerDay == 0.0
    ensures r.mostProductiveDay == MostProductive(Records(cal)).day
    ensures r.mostProductiveHours == MostProductive(Records(cal)).hours
    ensures r.longestStreak == LongestRun(Flags(Chronological(cal)))
    ensures r.currentStreak == LastRun(Flags(Chronological(cal)))
    ensures r.currentStreak <= r.longestStreak
  {
    var rows, studied, notStudied, hours, best := CollectRows(Records(cal));
    var allDays := Sort(rows, RowKey);
    var longest, current := ScanStreaks(allDays);
    AverageRecoversTotal(hours, studied);
    r := StatisticsData(studied, notStudied, AverageHours(hours, studied), best.day, best.hours, longest, current);
  }

  /**
   * Studied, studied, unstudied, then three studied and one unstudied: the
   * current streak is the last run, 3, not 0, and so is the longest.
   */
  lemma CurrentStreakIsLastRunExample()
    ensures LastRun([true, true, false, true, true, true, false]) == 3
    ensures LongestRun([true, true, false, true, true, true, false]) == 3
  {
    var p1, p2, p3 := [true], [true, true], [true, true, false];
    var p4, p5 := p3 + [true], p3 + [true, true];
    var p6 := p3 + [true, true, true];
    var p7 := p6 + [false];
    assert p1[..0] == [] && p2[..1] == p1 && p3[..2] == p2 && p4[..3] == p3;
    assert p5[..4] == p4 && p6[..5] == p5 && p7[..6] == p6;
    assert TrailingRun(p1) == 1 && TrailingRun(p2) == 2 && TrailingRun(p3) == 0;
    assert TrailingRun(p4) == 1 && TrailingRun(p5) == 2 && TrailingRun(p6) == 3;
    assert LongestRun(p1) == 1 && LongestRun(p2) == 2 && LongestRun(p3) == 2;
    assert LongestRun(p4) == 2 && LongestRun(p5) == 2 && LongestRun(p6) == 3;
    assert LongestRun(p7) == 3 && LastRun(p7) == 3;
    assert p7 == [true, true, false, true, true, true, false];
  }

  /** The longest streak is attained by a run of studied rows and no run of studied rows is longer. */
  lemma LongestStreakIsMaximumRun(cal: CalendarData, i: int, j: int)
    requires 0 <= i <= j <= |Chronological(cal)|
    requires forall k :: i <= k < j ==> Chronological(cal)[k].studied
    ensures j - i <= LongestRun(Flags(Chronological(cal)))
    ensures exists p :: RunAt(Flags(Chronological(cal)), p, LongestRun(Flags(Chronological(cal))))
  {
    var f := Flags(Chronological(cal));
    LongestRunIsMaximal(f, i, j);
    LongestRunIsAttained(f);
  }
}
