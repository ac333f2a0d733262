# Habit garden: a Dafny model of the study tracker's core

The application is a single-page study tracker for one calendar year (2025). Every day has a record:
- whether the user studied;
- how long, entered with a slider from 0 to 12 hours in steps of half an hour;
- notes, an optional justification for a missed day, and an optional mood.

The page keeps the records grouped by month together with:
- a weekly focus text;
- the current streak;
- a confetti flag.

It derives three different streak figures, totals, a most productive day, a three-day reminder, heatmap colours and a filtered journal of notes. A handful of small UI state machines edit it: the day dialogs, month, year and decade navigation, and the weekly focus editor.

This project restates that core in Dafny 4 and proves properties of it. There is one module per source file:

- `CalendarUtils` (calendar_utils.dfy) models src/utils/calendarUtils.ts
- `HeatmapUtils` (heatmap_utils.dfy) models src/utils/heatmapUtils.ts
- `Statistics` (statistics.dfy) models src/components/Statistics.tsx
- `ProgressDashboard` (progress_dashboard.dfy) models src/components/ProgressDashboard.tsx
- `StudyNotesView` (study_notes_view.dfy) models src/components/StudyNotesView.tsx
- `IndexPage` (index_page.dfy) models src/pages/Index.tsx
- `CalendarDay` (calendar_day.dfy) models src/components/CalendarDay.tsx
- `DayEntryModal` (day_entry_modal.dfy) models src/components/DayEntryModal.tsx
- `CalendarView` (calendar_view.dfy) models src/components/CalendarView.tsx
- `MonthlyCalendar` (monthly_calendar.dfy) models src/components/MonthlyCalendar.tsx
- `YearPicker` (year_picker.dfy) models src/components/YearPicker.tsx
- `WeeklyFocus` (weekly_focus.dfy) models src/components/WeeklyFocus.tsx

Five support modules sit beside them:
- `Types` holds the records of src/types/index.ts.
- `Text` holds decimal digits, the `YYYY-MM-DD` date text of ISO 8601 (section 4.1.2.2 of ISO 8601:2004), number text, JavaScript `trim` and `includes`.
- `OrderedKeys` gives the keys of a map in ascending order, the order `Object.values` visits integer keys.
- `Sorting` is a stable insertion sort by an integer key, standing in for `Array.prototype.sort`.
- `Runs` holds reference definitions of runs of `true` in a sequence of flags.

The modelling choices:
- **Dates** are triples `Date(year, month, day)` with a 0-based month, as the `Date` getters report them.
- **Today** is a parameter wherever the code reads the clock.
- **Hours** are whole numbers of half hours. The slider produces nothing else.
- **Averages** are rationals (`real`), stated by the total they multiply back to.
- **Code that changes state step by step** is a `class` with methods whose `ensures` give the new state as a function of the old. This covers the page, the two calendars, the day dialog, the year picker and the focus card. Pure functions beside each class are what the lemmas speak about.
- **Loops** are `method`s proved against reference functions: `initializeCalendarData`, the streak walks, the reminder, the totals, the journal filter, the statistics scan, the year list and the decade page.

Three behaviours of the code are easy to miss. The model follows the code:
- **`calculateStreak` with today unstudied.** It still returns the run ending on the last day of the previous month: the walk over earlier months runs even when the walk over today's month stopped at once, so an unstudied today does not reset the streak to 0 (`CalendarUtils.StreakWhenTodayUnstudied`, `CalendarUtils.StreakCountsLastMonthWhenTodayUnstudied`).
- **The statistics page's current streak.** It is the length of the *last* run of studied days, even when later days were missed (`Statistics.CurrentStreakIsLastRunExample`: 3, not 0).
- **The dashboard streak.** For an earlier month the code reads days `1..n`, where `n` is the number of records the month holds, and it skips a missing month without breaking the run. So the three streak figures can disagree (`ProgressDashboard.KernelStreakExceedsDashboardStreak`).

## Model

| member | source | states |
|---|---|---|
| `Types.Lookup` | src/components/CalendarView.tsx:64 | `calendarData[month]?.days[day]` is present exactly when the month and the day both exist, and is that record |
| `OrderedKeys.Ascending` | src/utils/calendarUtils.ts:110-111 | the keys of a month or calendar visited once each, in strictly increasing order, exactly the map's keys |
| `CalendarUtils.DaysInMonth` | src/utils/calendarUtils.ts:39-41 | day 0 of the next month: 31 for months 0, 2, 4, 6, 7, 9, 11; 30 for 3, 5, 8, 10; 29 or 28 for February by the Gregorian leap rule; month and year are carried first, and years 0..99 read as 1900..1999 |
| `CalendarUtils.DaysInYearTelescopes` | src/utils/calendarUtils.ts:39-41 | the lengths of the first k months add up to the cumulative day count before month k |
| `CalendarUtils.YearLength` | src/utils/calendarUtils.ts:39-41 | the twelve month lengths add up to 366 in a leap year and 365 otherwise |
| `CalendarUtils.DateKeyOrder` | src/components/Statistics.tsx:49 | the integer key used to sort records orders dates by year, month, then day, and is equal only for equal dates |
| `CalendarUtils.InitializeCalendarData` | src/utils/calendarUtils.ts:5-36 | the skeleton has exactly the keys 0..11; month m has `month` m and `year` 2025 and day keys exactly 1..days in month; every record is unstudied with 0 hours, empty notes and empty justification, dated its own valid date |
| `CalendarUtils.SkeletonDateStringIsWrongEastOfUtc` | src/utils/calendarUtils.ts:21-24 | the stored date text as written: east of UTC it differs from the day's ISO date and reads back as the previous day |
| `CalendarUtils.MonthRecords` | src/utils/calendarUtils.ts:111 | `Object.values(month.days)` has one record per day key |
| `CalendarUtils.MonthRecordsMembership` | src/utils/calendarUtils.ts:111 | a record is among a month's values exactly when some day key maps to it |
| `CalendarUtils.ConcatMembership` | src/utils/calendarUtils.ts:110-111 | the nested `forEach` visits exactly the records of the months it visits |
| `CalendarUtils.MonthsOf` | src/utils/calendarUtils.ts:110 | one group of records per month of the calendar |
| `CalendarUtils.RecordsMembership` | src/utils/calendarUtils.ts:110-111 | the records the nested `forEach` visits are exactly the records of the calendar |
| `CalendarUtils.RunBack` | src/utils/calendarUtils.ts:49-58 | the backward walk within a month counts at most the d days it can visit |
| `CalendarUtils.CalculateStreak` | src/utils/calendarUtils.ts:44-76 | the three loops with `break` and early `return` compute the run ending today in today's month plus the walk through earlier months from their last days; the result is at least the run ending today |
| `CalendarUtils.RunBackReadsOnlyEarlierDays` | src/utils/calendarUtils.ts:49-58 | the walk within a month reads only days 1..d |
| `CalendarUtils.EarlierRunReadsOnlyEarlierMonths` | src/utils/calendarUtils.ts:61-73 | the walk through earlier months reads only months 0..m |
| `CalendarUtils.StreakReadsOnlyUpToToday` | src/utils/calendarUtils.ts:44-76 | two calendars that agree on every day from January 1 through today give the same streak |
| `CalendarUtils.StreakWhenTodayUnstudied` | src/utils/calendarUtils.ts:49-73 | with today unstudied the streak is the earlier-months walk alone, at least the run ending on the last day of last month |
| `CalendarUtils.StreakCountsLastMonthWhenTodayUnstudied` | src/utils/calendarUtils.ts:61-73 | on an unstudied February 1 with January 31 studied the streak is 1 |
| `CalendarUtils.RunBackAtMostStudied` | src/utils/calendarUtils.ts:49-58 | the run ending on day d is at most the studied days among 1..d |
| `CalendarUtils.EarlierRunAtMostStudied` | src/utils/calendarUtils.ts:61-73 | the earlier-months walk is at most the studied days of those months |
| `CalendarUtils.StreakAtMostStudiedDays` | src/utils/calendarUtils.ts:44-76 | the streak never exceeds the number of studied days from January 1 through today |
| `CalendarUtils.CheckReminder` | src/utils/calendarUtils.ts:79-100 | the reminder is due exactly when none of today and the two days before it, within today's month, is studied; a lookback day in the previous month is skipped |
| `CalendarUtils.ReminderDueMeansNoRunEndingToday` | src/utils/calendarUtils.ts:79-100 | a due reminder means no run of studied days ends today, and a run ending today rules the reminder out |
| `CalendarUtils.CountStudied` | src/utils/calendarUtils.ts:112-113 | the studied count never exceeds the number of records |
| `CalendarUtils.MostProductiveIsFirstMaximum` | src/utils/calendarUtils.ts:116-119 | the most productive day is the first studied record with the greatest time, no studied record has more, ties keep the first, and there is none when no studied record has positive time |
| `CalendarUtils.AverageRecoversTotal` | src/utils/calendarUtils.ts:125-126 | the average times twice the studied days gives back the total half hours, and it is 0 with no studied day |
| `CalendarUtils.Accumulate` | src/utils/calendarUtils.ts:110-122 | the pass over the records yields the studied count, the studied time and the first maximum |
| `CalendarUtils.GetStatistics` | src/utils/calendarUtils.ts:103-135 | the summary's totals, average and most productive day are those of every record of the calendar |
| `HeatmapUtils.IntensityClass` | src/utils/heatmapUtils.ts:14-20 | only exactly no time is "none", and a negative time falls in "low" |
| `HeatmapUtils.IntensityMonotone` | src/utils/heatmapUtils.ts:14-20 | more time never lands in a lower bucket |
| `HeatmapUtils.IntensityBuckets` | src/utils/heatmapUtils.ts:14-20 | low is up to 2 hours, medium up to 4, high up to 6, very high above 6 |
| `HeatmapUtils.HeatmapColorClass` | src/utils/heatmapUtils.ts:23-26 | every time has a non-empty colour class |
| `HeatmapUtils.ColourIdentifiesBucket` | src/utils/heatmapUtils.ts:5-26 | two times share a colour exactly when they share a bucket |
| `HeatmapUtils.FormatHoursRoundTrip` | src/utils/heatmapUtils.ts:29-33 | the formatted time reads back as the same time |
| `HeatmapUtils.FormatHoursInjective` | src/utils/heatmapUtils.ts:29-33 | different times never read the same |
| `HeatmapUtils.IntensityEmoji` | src/utils/heatmapUtils.ts:36-38 | the emoji is always the empty text |
| `Text.IsoDateRoundTrip` | src/utils/calendarUtils.ts:24 | the intended `YYYY-MM-DD` text of a date reads back as that date |
| `Text.NumberTextRoundTrip` | src/utils/heatmapUtils.ts:32 | the decimal text of a time reads back as the time |
| `Text.TrimEmptyIffWhitespace` | src/components/StudyNotesView.tsx:46 | a text trims to empty exactly when every character is JavaScript white space |
| `Sorting.InsertionSort` | src/components/Statistics.tsx:49 | the sorted sequence is a permutation of the input, ordered by key |
| `Sorting.Sort` | src/components/StudyNotesView.tsx:62 | the in-loop sort computes the insertion sort: sorted and a permutation |
| `Runs.TrailingRun` | src/components/Statistics.tsx:52-62 | the run ending at the last flag is at most the length |
| `Runs.LongestRun` | src/components/Statistics.tsx:52-62 | the longest run is at least the trailing run and at most the length |
| `Runs.AppendFlag` | src/components/Statistics.tsx:52-62 | one more flag extends or resets the trailing run, raises the longest run to it, and sets the last run when it is true |
| `Runs.TrailingRunIsRun` | src/components/Statistics.tsx:52-62 | the trailing run is all true and is preceded by a false flag or the start |
| `Runs.TrailingRunAtLeast` | src/components/Statistics.tsx:52-62 | any all-true suffix is no longer than the trailing run |
| `Runs.LongestRunIsMaximal` | src/components/Statistics.tsx:52-62 | no all-true stretch is longer than the longest run |
| `Runs.LongestRunIsAttained` | src/components/Statistics.tsx:52-62 | some stretch of that length is all true |
| `Runs.LastRunAtMostLongest` | src/components/Statistics.tsx:52-62 | the last run is never longer than the longest |
| `Runs.LastRunIsRunEndingAtLastSetFlag` | src/components/Statistics.tsx:52-62 | the last run is the run ending at the last true flag |
| `Runs.LastRunWithoutSetFlag` | src/components/Statistics.tsx:52-62 | with no true flag the last run is 0 |
| `Runs.TrailingRunOfSuffix` | src/components/ProgressDashboard.tsx:39-64 | flags read earlier never shorten the trailing run of the flags read last |
| `Statistics.Rows` | src/components/Statistics.tsx:24-33 | one row per record, carrying its date, flag and time |
| `Statistics.Flags` | src/components/Statistics.tsx:52-62 | one studied flag per row, in row order |
| `Statistics.ChronologicalIsSortedPermutation` | src/components/Statistics.tsx:24-49 | the sorted rows are exactly the calendar's records, each once, in non-decreasing date order |
| `Statistics.CollectRows` | src/components/Statistics.tsx:26-46 | the pass yields the rows, the studied count, the unstudied count (together every record), the time and the first maximum |
| `Statistics.ScanStreaks` | src/components/Statistics.tsx:52-62 | the forward scan yields the longest run and the last run of studied rows, the last never above the longest |
| `Statistics.ComputeStatistics` | src/components/Statistics.tsx:13-78 | every figure of the page in terms of the calendar's records and their chronological flags |
| `Statistics.CurrentStreakIsLastRunExample` | src/components/Statistics.tsx:52-62 | for studied, studied, missed, studied x3, missed the current streak is 3 and the longest 3 |
| `Statistics.LongestStreakIsMaximumRun` | src/components/Statistics.tsx:52-62 | the longest streak bounds every run of consecutive studied rows and is attained |
| `ProgressDashboard.TrackedYearLength` | src/components/ProgressDashboard.tsx:25 | the hard-coded 365 is the length of 2025 |
| `ProgressDashboard.MonthFlags` | src/components/ProgressDashboard.tsx:45-47 | one flag per day 1..n |
| `ProgressDashboard.AppendDay` | src/components/ProgressDashboard.tsx:45-47 | the flags of days 1..d are those of days 1..d-1 and then day d |
| `ProgressDashboard.ScanDay` | src/components/ProgressDashboard.tsx:46-59 | the per-day update keeps running streak, best streak and activity flag describing the flags read so far |
| `ProgressDashboard.ScanMonth` | src/components/ProgressDashboard.tsx:43-60 | the per-month loop keeps those three values describing the flags read so far, now including the month's flags |
| `ProgressDashboard.LongestRunToToday` | src/components/ProgressDashboard.tsx:39-64 | the scan's result is the longest run in the flags of months 0..today's month |
| `ProgressDashboard.ComputeProgress` | src/components/ProgressDashboard.tsx:13-79 | the dashboard's totals, average, 365-day year and streak |
| `ProgressDashboard.MonthFlagsAgree` | src/components/ProgressDashboard.tsx:45-47 | the month flags depend only on days 1..n |
| `ProgressDashboard.ScannedFlagsAgree` | src/components/ProgressDashboard.tsx:39-61 | the scanned flags depend only on what the scan visits |
| `ProgressDashboard.DashboardReadsOnlyUpToToday` | src/components/ProgressDashboard.tsx:39-64 | no day after today and no month after today's month changes the dashboard streak |
| `ProgressDashboard.MissingMonthSkippedMissingDayBreaks` | src/components/ProgressDashboard.tsx:40-47 | a missing month adds no flags, while a missing day reads as unstudied |
| `ProgressDashboard.MonthFlagsIndex` | src/components/ProgressDashboard.tsx:45-47 | flag d-1 is day d's studied flag |
| `ProgressDashboard.MonthFlagsTrailingRun` | src/components/ProgressDashboard.tsx:45-59 | the trailing run of a month's flags is the kernel's backward run |
| `ProgressDashboard.DashboardAtLeastRunEndingToday` | src/components/ProgressDashboard.tsx:39-64 | the dashboard streak is at least the run ending today within today's month |
| `ProgressDashboard.KernelStreakExceedsDashboardStreak` | src/components/ProgressDashboard.tsx:39-64 | on February 3 with January 31, February 2 and 3 studied, the kernel counts 3 and the dashboard 2 |
| `ProgressDashboard.MotivationMessage` | src/components/ProgressDashboard.tsx:84-90 | "on fire" exactly for a streak of 7 or more |
| `ProgressDashboard.MotivationPriority` | src/components/ProgressDashboard.tsx:84-90 | each message exactly when its rule holds and no earlier one does; 50 hours is 100 half hours |
| `ProgressDashboard.MotivationMonotone` | src/components/ProgressDashboard.tsx:84-90 | more streak, days or hours never give a lower-priority message |
| `StudyNotesView.LastMonthOf` | src/components/StudyNotesView.tsx:27 | the month before, with January wrapping to December |
| `StudyNotesView.CollectNotes` | src/components/StudyNotesView.tsx:29-59 | the loop with early returns keeps, in record order, the entries that pass the type, month, non-blank and search filters, the search comparing both texts after the given `toLowerCase` |
| `StudyNotesView.FilteredNotes` | src/components/StudyNotesView.tsx:23-63 | the journal is those entries sorted newest first, for any case mapping |
| `StudyNotesView.CollectMembership` | src/components/StudyNotesView.tsx:29-59 | an entry is collected exactly when some record passes every filter and gives it |
| `StudyNotesView.JournalSound` | src/components/StudyNotesView.tsx:23-63 | every listed entry comes from a record of the calendar that passes every filter |
| `StudyNotesView.JournalComplete` | src/components/StudyNotesView.tsx:23-63 | every record that passes every filter is listed |
| `StudyNotesView.JournalEntriesPassFilters` | src/components/StudyNotesView.tsx:32-50 | listed text is not blank, matches the type and month filters, and its lower-cased form contains the lower-cased query, whatever `toLowerCase` maps each letter to |
| `StudyNotesView.JournalNewestFirst` | src/components/StudyNotesView.tsx:62 | dates never increase down the list |
| `IndexPage.ApplyPatch` | src/pages/Index.tsx:67-70 | every field the patch carries overwrites the record's, every other field is kept |
| `IndexPage.ApplyPatchIdempotent` | src/pages/Index.tsx:67-70 | applying the same patch twice is applying it once |
| `IndexPage.EmptyPatchIsIdentity` | src/pages/Index.tsx:67-70 | a patch with no field changes nothing |
| `IndexPage.UpdateMissingIsNoOp` | src/pages/Index.tsx:66-94 | updating a day without a record leaves the state as it is |
| `IndexPage.UpdateExisting` | src/pages/Index.tsx:62-95 | updating patches that record only, keeps months, their month and year fields and the focus, stores the recomputed streak, and raises confetti exactly on a new multiple of 7 above the old streak |
| `IndexPage.StudyingTodayClearsReminder` | src/pages/Index.tsx:62-119 | marking today studied gives a streak of at least 1 and turns the reminder off |
| `IndexPage.WithWeeklyFocus` | src/pages/Index.tsx:99-103 | only the focus changes |
| `IndexPage.WithoutConfetti` | src/pages/Index.tsx:111-116 | only the confetti flag changes, to off |
| `IndexPage.LoadedState` | src/pages/Index.tsx:26-52 | parsed saved data is used as it is |
| `IndexPage.FreshStateIsSkeletonAndPersists` | src/pages/Index.tsx:26-59 | without usable saved data the state is the empty 2025 skeleton with no focus, streak or confetti, and it is saved back |
| `IndexPage.DismissedReminderStaysHidden` | src/pages/Index.tsx:119 | a dismissed reminder never shows |
| `IndexPage.Index.constructor` | src/pages/Index.tsx:16-23 | the initial state is empty and is not saved |
| `IndexPage.Index.Load` | src/pages/Index.tsx:26-52 | the first render loads the saved state or builds the skeleton |
| `IndexPage.Index.UpdateDay` | src/pages/Index.tsx:62-95 | the reducer's new state |
| `IndexPage.Index.UpdateWeeklyFocus` | src/pages/Index.tsx:99-103 | the focus is replaced |
| `IndexPage.Index.HideConfetti` | src/pages/Index.tsx:111-116 | confetti is switched off |
| `IndexPage.Index.DismissReminder` | src/pages/Index.tsx:130 | the reminder is dismissed, the state untouched |
| `CalendarDay.CornerIcon` | src/components/CalendarDay.tsx:77-81 | a check exactly on studied days, a cross otherwise |
| `CalendarDay.CalendarDayCell` | src/components/CalendarDay.tsx:21-37 | a cell without a record is the plain numbered cell, a cell with one is the full cell |
| `CalendarDay.ColourSeparatesStudied` | src/components/CalendarDay.tsx:40-44 | studied days take the heatmap colour; an unstudied day is amber exactly with a justification, and never a heatmap colour |
| `CalendarDay.NoteIconAndTooltip` | src/components/CalendarDay.tsx:84-99 | the note icon shows exactly with notes or a justification, and the tooltip prefers the notes |
| `CalendarDay.BadgeAndStatus` | src/components/CalendarDay.tsx:69-94 | the hours badge exactly on studied days, "Not studied" exactly on the others |
| `DayEntryModal.SyncedFrom` | src/components/DayEntryModal.tsx:27-36 | the form copies the record's four fields, a missing justification as empty |
| `DayEntryModal.Toggled` | src/components/DayEntryModal.tsx:38-43 | only the studied flag flips |
| `DayEntryModal.ToggleTwice` | src/components/DayEntryModal.tsx:38-43 | toggling twice restores the form |
| `DayEntryModal.PatchOf` | src/components/DayEntryModal.tsx:66-69 | the saved patch carries all four form fields and nothing else |
| `DayEntryModal.SavedPatchSetsForm` | src/components/DayEntryModal.tsx:66-69 | saving sets the four fields and keeps date and mood |
| `DayEntryModal.UntouchedSaveKeepsRecord` | src/components/DayEntryModal.tsx:27-69 | opening and saving untouched changes nothing but a missing justification, which becomes empty |
| `DayEntryModal.DayEntryModal.constructor` | src/components/DayEntryModal.tsx:20-25 | the initial form is unstudied, 0 hours, empty texts |
| `DayEntryModal.DayEntryModal.SyncFrom` | src/components/DayEntryModal.tsx:27-36 | a given record replaces the form, no record keeps it |
| `DayEntryModal.DayEntryModal.HandleToggleStudied` | src/components/DayEntryModal.tsx:38-43 | the form is toggled |
| `DayEntryModal.DayEntryModal.HandleHoursChange` | src/components/DayEntryModal.tsx:45-50 | only the hours change, to the slider's value in 0..12 hours |
| `DayEntryModal.DayEntryModal.HandleNotesChange` | src/components/DayEntryModal.tsx:52-57 | only the notes change |
| `DayEntryModal.DayEntryModal.HandleJustificationChange` | src/components/DayEntryModal.tsx:59-64 | only the justification changes |
| `DayEntryModal.DayEntryModal.HandleSave` | src/components/DayEntryModal.tsx:66-69 | hands over the patch of the whole form |
| `CalendarView.DayStatusClass` | src/components/CalendarView.tsx:134-138 | unstudied is "future", studied under one hour "partial", otherwise "studied" |
| `CalendarView.StatusMonotone` | src/components/CalendarView.tsx:134-138 | studying, or studying longer, never lowers the status |
| `CalendarView.TodayMarker` | src/components/CalendarView.tsx:141-145 | today's month and day in 2025, (-1, -1) in any other year |
| `CalendarView.TodayMarkedOnlyInTrackedYear` | src/components/CalendarView.tsx:141-145 | outside 2025 no cell is ringed; in 2025 exactly today's |
| `CalendarView.NextMonthBounded` | src/components/CalendarView.tsx:48-53 | stays in 0..11, moving forward by at most one |
| `CalendarView.PrevMonthBounded` | src/components/CalendarView.tsx:55-60 | stays in 0..11, moving back by at most one |
| `CalendarView.MonthNavigation` | src/components/CalendarView.tsx:48-60 | an arrow does nothing exactly where it is disabled, and enabled arrows undo each other |
| `CalendarView.SavePatch` | src/components/CalendarView.tsx:80-84 | the patch is exactly studied, hours and notes |
| `CalendarView.SavePatchEffect` | src/components/CalendarView.tsx:80-84 | saving leaves date, justification and mood alone, and an untouched save changes nothing |
| `CalendarView.CalendarView.constructor` | src/components/CalendarView.tsx:26-29 | today's month in focus, nothing selected |
| `CalendarView.CalendarView.GoToNextMonth` | src/components/CalendarView.tsx:48-53 | the bounded next month, selection kept |
| `CalendarView.CalendarView.GoToPrevMonth` | src/components/CalendarView.tsx:55-60 | the bounded previous month, selection kept |
| `CalendarView.CalendarView.OpenDayDialog` | src/components/CalendarView.tsx:63-69 | selects a copy of an existing record and where it is; a missing record selects nothing |
| `CalendarView.CalendarView.CloseDayDialog` | src/components/CalendarView.tsx:72-75 | clears the selection |
| `CalendarView.CalendarView.SaveDayData` | src/components/CalendarView.tsx:78-101 | with a selection, the update of that day by the three-field patch, then the selection is cleared; without one, nothing |
| `CalendarView.CalendarView.HandleToggleStudied` | src/components/CalendarView.tsx:104-111 | only the selected copy's flag flips |
| `CalendarView.CalendarView.HandleHoursChange` | src/components/CalendarView.tsx:114-121 | only the selected copy's hours change |
| `CalendarView.CalendarView.HandleNotesChange` | src/components/CalendarView.tsx:124-131 | only the selected copy's notes change |
| `MonthlyCalendar.GenerateYearArray` | src/components/MonthlyCalendar.tsx:43-50 | 31 consecutive years from ten before the current year to twenty after |
| `MonthlyCalendar.NextMonth` | src/components/MonthlyCalendar.tsx:79-86 | December goes to January of the next year, any other month to the next month |
| `MonthlyCalendar.PrevMonth` | src/components/MonthlyCalendar.tsx:88-95 | January goes to December of the previous year, any other month to the previous month |
| `MonthlyCalendar.MonthStepsAreInverse` | src/components/MonthlyCalendar.tsx:79-95 | both steps keep the month in 0..11, move the running month count by exactly one, and undo each other |
| `MonthlyCalendar.StepsIndex` | src/components/MonthlyCalendar.tsx:79-86 | n forward steps move the running month count by n |
| `MonthlyCalendar.TwelveStepsIsAYear` | src/components/MonthlyCalendar.tsx:79-86 | twelve forward steps reach the same month of the next year |
| `MonthlyCalendar.PrevYear` | src/components/MonthlyCalendar.tsx:175 | the year goes down by one, the month stays |
| `MonthlyCalendar.NextYear` | src/components/MonthlyCalendar.tsx:176 | the year goes up by one, the month stays |
| `MonthlyCalendar.YearStepIsTwelveMonths` | src/components/MonthlyCalendar.tsx:175-176 | a year step is twelve month steps |
| `MonthlyCalendar.DayStatusClass` | src/components/MonthlyCalendar.tsx:138-145 | unstudied and past is "missed", unstudied otherwise "future", studied under an hour "partial", else "studied" |
| `MonthlyCalendar.StatusExtendsScrollingView` | src/components/MonthlyCalendar.tsx:138-145 | the grid's classes agree with the scrolling view's except that a past unstudied day is "missed" |
| `MonthlyCalendar.DayIcon` | src/components/MonthlyCalendar.tsx:148-155 | a check if studied, a cross if unstudied with a justification, nothing otherwise |
| `MonthlyCalendar.IconAgreesWithCalendarCell` | src/components/MonthlyCalendar.tsx:148-155 | the icon agrees with the calendar cell's except that an unstudied day without a justification has none |
| `MonthlyCalendar.CurrentMonthData` | src/components/MonthlyCalendar.tsx:158 | stored records are shown only for 2025 |
| `MonthlyCalendar.CellRecord` | src/components/MonthlyCalendar.tsx:321-336 | a grid cell shows a record only in 2025, and then the record of that day |
| `MonthlyCalendar.TodayOnlyInItsOwnView` | src/components/MonthlyCalendar.tsx:167-172 | the ringed cell belongs to one month and year only |
| `MonthlyCalendar.MonthlyCalendar.constructor` | src/components/MonthlyCalendar.tsx:57-60 | 2025 at today's month, no dialog |
| `MonthlyCalendar.MonthlyCalendar.GoToNextMonth` | src/components/MonthlyCalendar.tsx:79-86 | the view moves to the next month |
| `MonthlyCalendar.MonthlyCalendar.GoToPrevMonth` | src/components/MonthlyCalendar.tsx:88-95 | the view moves to the previous month |
| `MonthlyCalendar.MonthlyCalendar.GoToPrevYear` | src/components/MonthlyCalendar.tsx:175 | the view moves back a year |
| `MonthlyCalendar.MonthlyCalendar.GoToNextYear` | src/components/MonthlyCalendar.tsx:176 | the view moves forward a year |
| `MonthlyCalendar.MonthlyCalendar.GoToToday` | src/components/MonthlyCalendar.tsx:98-101 | the view jumps to today's month and year |
| `MonthlyCalendar.MonthlyCalendar.HandleMonthChange` | src/components/MonthlyCalendar.tsx:104-106 | the month becomes the selector's decimal value |
| `MonthlyCalendar.MonthlyCalendar.HandleYearChange` | src/components/MonthlyCalendar.tsx:109-111 | the year becomes the picked year |
| `MonthlyCalendar.MonthlyCalendar.OpenDayDialog` | src/components/MonthlyCalendar.tsx:114-122 | opens on an existing record only |
| `MonthlyCalendar.MonthlyCalendar.ClickDay` | src/components/MonthlyCalendar.tsx:321-374 | record cells of 2025 open the dialog; blank cells do nothing |
| `MonthlyCalendar.MonthlyCalendar.CloseDayDialog` | src/components/MonthlyCalendar.tsx:125-128 | closes the dialog and clears the selection |
| `MonthlyCalendar.MonthlyCalendar.HandleSaveDayData` | src/components/MonthlyCalendar.tsx:131-135 | forwards the patch for the selected day, or nothing without one |
| `YearPicker.DecadeStart` | src/components/YearPicker.tsx:19 | the largest multiple of ten not above the year |
| `YearPicker.WindowProperties` | src/components/YearPicker.tsx:22-32 | the loop's years are in range, strictly increasing, at most n, and include every in-range year |
| `YearPicker.YearsInViewExact` | src/components/YearPicker.tsx:22-32 | at most 16 strictly increasing years, exactly those in the decade's sixteen years and in the offered range |
| `YearPicker.PageBelowRangeIsEmpty` | src/components/YearPicker.tsx:22-32 | a page entirely below the range lists nothing |
| `YearPicker.WindowBelowRange` | src/components/YearPicker.tsx:25-29 | years below the range are never kept |
| `YearPicker.PreviousYears` | src/components/YearPicker.tsx:37-39 | sixteen back, but never below the first year |
| `YearPicker.NextYears` | src/components/YearPicker.tsx:41-43 | sixteen forward, but never above the last year minus 15 |
| `YearPicker.EnabledArrowsMove` | src/components/YearPicker.tsx:37-63 | an enabled arrow always moves the view year its own way |
| `YearPicker.YearPicker.constructor` | src/components/YearPicker.tsx:19 | the view starts at the decade of the selected year |
| `YearPicker.YearPicker.GetYearsInView` | src/components/YearPicker.tsx:22-32 | the loop yields the page's years |
| `YearPicker.YearPicker.GoToPreviousYears` | src/components/YearPicker.tsx:37-39 | the view year pages back |
| `YearPicker.YearPicker.GoToNextYears` | src/components/YearPicker.tsx:41-43 | the view year pages forward |
| `YearPicker.YearPicker.PickYear` | src/components/YearPicker.tsx:70-75 | a picked year lies in the offered range and on the page |
| `WeeklyFocus.CurrentWeek` | src/components/WeeklyFocus.tsx:44-51 | the ceiling of the elapsed time over one week |
| `WeeklyFocus.FirstWeeks` | src/components/WeeklyFocus.tsx:44-51 | week 0 exactly at midnight on January 1, week 1 through the next seven days |
| `WeeklyFocus.WeekOfYearBounded` | src/components/WeeklyFocus.tsx:44-51 | every instant of a year is in weeks 0..53 |
| `WeeklyFocus.Mounted` | src/components/WeeklyFocus.tsx:17-19 | the draft starts as the committed text, not editing, not loading |
| `WeeklyFocus.Edit` | src/components/WeeklyFocus.tsx:21-23 | only editing turns on |
| `WeeklyFocus.Cancel` | src/components/WeeklyFocus.tsx:25-28 | the draft goes back to the committed text and editing ends |
| `WeeklyFocus.Change` | src/components/WeeklyFocus.tsx:39-41 | only the draft changes |
| `WeeklyFocus.Save` | src/components/WeeklyFocus.tsx:30-32 | loading starts with the draft captured |
| `WeeklyFocus.Complete` | src/components/WeeklyFocus.tsx:32-36 | editing and loading end |
| `WeeklyFocus.StepsKeepValid` | src/components/WeeklyFocus.tsx:21-79 | with Save and Cancel disabled while loading and Edit shown only outside editing, loading always holds a captured draft and implies editing |
| `WeeklyFocus.SaveCommitsCapturedDraft` | src/components/WeeklyFocus.tsx:30-41 | the text committed is the draft at the moment of Save, whatever is typed during the delay |
| `WeeklyFocus.ChangeAllKeepsPending` | src/components/WeeklyFocus.tsx:39-41 | typing never touches the captured draft or the flags |
| `WeeklyFocus.CancelDiscardsDraft` | src/components/WeeklyFocus.tsx:25-41 | cancel restores the committed text whatever was typed |
| `WeeklyFocus.WeeklyFocus.constructor` | src/components/WeeklyFocus.tsx:17-19 | the card as mounted |
| `WeeklyFocus.WeeklyFocus.HandleEdit` | src/components/WeeklyFocus.tsx:21-23 | the Edit step |
| `WeeklyFocus.WeeklyFocus.HandleCancel` | src/components/WeeklyFocus.tsx:25-28 | the Cancel step |
| `WeeklyFocus.WeeklyFocus.HandleChange` | src/components/WeeklyFocus.tsx:39-41 | the typing step |
| `WeeklyFocus.WeeklyFocus.HandleSave` | src/components/WeeklyFocus.tsx:30-32 | the Save step |
| `WeeklyFocus.WeeklyFocus.CompleteSave` | src/components/WeeklyFocus.tsx:32-36 | the end of the delay: returns the captured draft for commit, then the Complete step |

## Left out

- Local storage and JSON (src/pages/Index.tsx:27-58): the saved slot is an input that is empty, unparsable or a parsed state. A parse that yields something other than a state is not modelled.
- `toLocaleDateString`, `toFixed(1)` and `Math.round` percentages are not modelled. Averages are exact rationals; the daily-hours and share-of-year percentages are display arithmetic.
- Parsing date texts with `new Date(text)` is not modelled. Records carry date triples, so the sort keys and the journal's month filter use the record's own month, whatever the time zone.
- `isDateInPast` and `isToday` (src/utils/heatmapUtils.ts:40-55) are not modelled. The monthly grid takes "in the past" as an input.
- The time zone of `toISOString` is an input of `CalendarUtils.SkeletonDateString` only. Records elsewhere carry their intended date.
- The weekday offset of the first grid cell (`getDay`), the month and weekday names, scrolling, refs, timers' delays, toasts and all other JSX are not modelled. A timer is two steps.
- `Confetti`, `HeroSection`, `MotivationalQuote` and `HeatmapLegend` are animation, random quotes and legend styling, and are not modelled.
- The message texts of the dashboard and statistics page are not modelled. The dashboard message is a five-valued datatype.
- The `Object.keys` order is modelled as ascending for every integer key. JavaScript orders negative keys by insertion; the application never creates them.
- In-place aliasing is not modelled. `updateDay` copies the calendar shallowly and then writes the nested day map in place, which also changes the previous state's month; the model treats every state as a value.
- The disabled state of the dialog's slider and notes box on an unstudied day (src/components/CalendarView.tsx:297, 309) and the dialog's input visibility in src/components/DayEntryModal.tsx:119-160 are predicates without contracts.
- `toLowerCase` is a parameter of the journal's search filter (`StudyNotesView.SearchKeeps`). JavaScript's Unicode case mapping is not modelled, and every journal property holds for any mapping from text to text.
- `WeekOfYearBounded` ignores daylight-saving shifts of local midnight; elapsed time is whole days plus the time of day.
- `Statistics.ComputeStatistics` does not model the "study rate" percentage or the streak message on the page.

## Findings

| source | as written | input that shows it | evidently intended | confidence | as-written member | corrected member |
|---|---|---|---|---|---|---|
| src/utils/calendarUtils.ts:21-24 | the record's date text is `toISOString()` of local midnight cut at `T`, i.e. the UTC date of local midnight | any day of 2025 in a time zone east of UTC, e.g. UTC+01:00: 1 January is stored as `2024-12-31` | the `YYYY-MM-DD` text of the record's own local date | high (not executed) | `CalendarUtils.SkeletonDateStringIsWrongEastOfUtc` | `Text.IsoDateRoundTrip` |
