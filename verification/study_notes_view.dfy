/**
 * The study journal: the note of every day that passes the type, date-range and
 * search filters, newest first. A studied day's note is its notes, an unstudied
 * day's note its justification.
 */
module StudyNotesView {
  import opened Types
  import opened Text
  import opened Sorting
  import opened CalendarUtils

  datatype NoteType = AllNotes | StudiedNotes | NotStudiedNotes

  datatype DateRange = AllDates | ThisMonth | LastMonth | Custom

  /** One journal line. */
  datatype NoteEntry = NoteEntry(date: Date, notes: string, studied: bool)

  /** The text a day contributes: notes when studied, else the justification (missing reads as empty). */
  function ActiveText(x: DayData): string {
    if x.studied then x.notes else x.justification.GetOr("")
  }

  /** The month before `m`, with January wrapping to December. */
  function LastMonthOf(m: int): (r: int)
    ensures 0 <= m < 12 ==> 0 <= r < 12 && (r + 1) % 12 == m
  {
    if m == 0 then 11 else m - 1
  }

  predicate TypeKeeps(noteType: NoteType, studied: bool) {
    match noteType
    case AllNotes => true
    case StudiedNotes => studied
    case NotStudiedNotes => !studied
  }

  /** The month filter compares months only, whatever the year. */
  predicate RangeKeeps(dateRange: DateRange, month: int, currentMonth: int) {
    match dateRange
    case ThisMonth => month == currentMonth
    case LastMonth => month == LastMonthOf(currentMonth)
    case _ => true
  }

  /**
   * The search filter: the query occurs in the note once both are passed
   * through `toLowerCase`. JavaScript lower-cases every Unicode letter, some of
   * them to more than one character, so the case mapping is a parameter and
   * the journal's properties hold whatever it is.
   */
  predicate SearchKeeps(query: string, lower: string -> string, text: string) {
    query == "" || Includes(lower(text), lower(query))
  }

  /** A day is listed when it passes every filter and its note is not blank. */
  predicate Emitted(x: DayData, noteType: NoteType, dateRange: DateRange, query: string, lower: string -> string,
                    currentMonth: int) {
    && TypeKeeps(noteType, x.studied)
    && RangeKeeps(dateRange, x.date.month, currentMonth)
    && Trim(ActiveText(x)) != ""
    && SearchKeeps(query, lower, ActiveText(x))
  }

  function EntryOf(x: DayData): NoteEntry {
    NoteEntry(x.date, ActiveText(x), x.studied)
  }

  /** The listed entries in record order. */
  function Collect(s: seq<DayData>, noteType: NoteType, dateRange: DateRange, query: string, lower: string -> string,
                   currentMonth: int)
    : seq<NoteEntry>
  {
    if s == [] then []
    else
      var rest := Collect(s[..|s| - 1], noteType, dateRange, query, lower, currentMonth);
      var x := s[|s| - 1];
      if Emitted(x, noteType, dateRange, query, lower, currentMonth) then rest + [EntryOf(x)] else rest
  }

  /** The sort key that puts the newest date first. */
  function NewestFirst(e: NoteEntry): int {
    -DateKey(e.date)
  }

  /** The journal as the view shows it. */
  function Journal(cal: CalendarData, noteType: NoteType, dateRange: DateRange, query: string, lower: string -> string,
                   today: Date)
    : seq<NoteEntry>
  {
    InsertionSort(Collect(Records(cal), noteType, dateRange, query, lower, today.month), NewestFirst)
  }

  /** The pass over the records, pushing the entries that pass every filter. */
  method CollectNotes(all: seq<DayData>, noteType: NoteType, dateRange: DateRange, query: string,
                      lower: string -> string, currentMonth: int)
    returns (notes: seq<NoteEntry>)
    ensures notes == Collect(all, noteType, dateRange, query, lower, currentMonth)
  {
    notes := [];
    for i := 0 to |all|
      invariant notes == Collect(all[..i], noteType, dateRange, query, lower, currentMonth)
    {
      assert all[..i + 1][..i] == all[..i];
      var day := all[i];
      if noteType == StudiedNotes && !day.studied {
        continue;
      }
      if noteType == NotStudiedNotes && day.studied {
        continue;
      }
      if dateRange == ThisMonth {
        if day.date.month != currentMonth {
          continue;
        }
      } else if dateRange == LastMonth {
        if day.date.month != LastMonthOf(currentMonth) {
          continue;
        }
      }
      var noteText := if day.studied then day.notes else day.justification.GetOr("");
      if Trim(noteText) != "" {
        if query != "" && !Includes(lower(noteText), lower(query)) {
          continue;
        }
        notes := notes + [NoteEntry(day.date, noteText, day.studied)];
      }
    }
    assert all[..|all|] == all;
  }

  method FilteredNotes(cal: CalendarData, noteType: NoteType, dateRange: DateRange, query: string,
                       lower: string -> string, today: Date)
    returns (notes: seq<NoteEntry>)
    ensures notes == Journal(cal, noteType, dateRange, query, lower, today)
  {
    var collected := CollectNotes(Records(cal), noteType, dateRange, query, lower, today.month);
    notes := Sort(collected, NewestFirst);
  }

  lemma {:induction false} CollectMembership(s: seq<DayData>, noteType: NoteType, dateRange: DateRange,
                                            query: string, lower: string -> string, currentMonth: int, e: NoteEntry)
    ensures e in Collect(s, noteType, dateRange, query, lower, currentMonth) <==>
      exists x :: x in s && Emitted(x, noteType, dateRange, query, lower, currentMonth) && e == EntryOf(x)
  {
    if s != [] {
      var init := s[..|s| - 1];
      CollectMembership(init, noteType, dateRange, query, lower, currentMonth, e);
      assert s == init + [s[|s| - 1]];
    }
  }

  /** Every listed entry is the note of a day of the calendar that passes every filter. */
  lemma JournalSound(cal: CalendarData, noteType: NoteType, dateRange: DateRange, query: string,
                     lower: string -> string, today: Date, e: NoteEntry)
    requires e in Journal(cal, noteType, dateRange, query, lower, today)
    ensures exists x ::
      HasRecord(cal, x) && Emitted(x, noteType, dateRange, query, lower, today.month) && e == EntryOf(x)
  {
    var collected := Collect(Records(cal), noteType, dateRange, query, lower, today.month);
    assert e in multiset(collected);
    CollectMembership(Records(cal), noteType, dateRange, query, lower, today.month, e);
    var x :| x in Records(cal) && Emitted(x, noteType, dateRange, query, lower, today.month) && e == EntryOf(x);
    RecordsMembership(cal, x);
  }

  /** Every day of the calendar that passes every filter is listed. */
  lemma JournalComplete(cal: CalendarData, noteType: NoteType, dateRange: DateRange, query: string,
                        lower: string -> string, today: Date, x: DayData)
    requires HasRecord(cal, x) && Emitted(x, noteType, dateRange, query, lower, today.month)
    ensures EntryOf(x) in Journal(cal, noteType, dateRange, query, lower, today)
  {
    RecordsMembership(cal, x);
    CollectMembership(Records(cal), noteType, dateRange, query, lower, today.month, EntryOf(x));
    var collected := Collect(Records(cal), noteType, dateRange, query, lower, today.month);
    assert EntryOf(x) in multiset(collected);
  }

  /** What every listed entry satisfies, filter by filter. */
  lemma JournalEntriesPassFilters(cal: CalendarData, noteType: NoteType, dateRange: DateRange, query: string,
                                  lower: string -> string, today: Date, e: NoteEntry)
    requires e in Journal(cal, noteType, dateRange, query, lower, today)
    ensures Trim(e.notes) != ""
    ensures noteType == StudiedNotes ==> e.studied
    ensures noteType == NotStudiedNotes ==> !e.studied
    ensures dateRange == ThisMonth ==> e.date.month == today.month
    ensures dateRange == LastMonth ==> e.date.month == LastMonthOf(today.month)
    ensures query != "" ==> Includes(lower(e.notes), lower(query))
  {
    JournalSound(cal, noteType, dateRange, query, lower, today, e);
  }

  /** The list runs from the newest date to the oldest. */
  lemma JournalNewestFirst(cal: CalendarData, noteType: NoteType, dateRange: DateRange, query: string,
                           lower: string -> string, today: Date)
    ensures var r := Journal(cal, noteType, dateRange, query, lower, today);
      forall i, j :: 0 <= i < j < |r| ==> DateKey(r[i].date) >= DateKey(r[j].date)
  {
    var r := Journal(cal, noteType, dateRange, query, lower, today);
    assert SortedBy(r, NewestFirst);
  }
}
