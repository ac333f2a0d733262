/**
 * One cell of the calendar grid: what it shows for a day with a record (colour,
 * hours badge, corner icon, note icon, tooltip lines) and for a day without one.
 */
module CalendarDay {
  import opened Types
  import opened Text
  import opened HeatmapUtils

  datatype Icon = CheckIcon | XIcon

  datatype Cell =
    | PlainCell(dayNumber: int, isToday: bool)
    | RecordCell(
        dayNumber: int,
        isToday: bool,
        colour: string,
        hoursBadge: Option<string>,
        icon: Icon,
        noteIcon: bool,
        statusLine: string,
        moodLine: Option<string>,
        tooltipNote: Option<string>)

  const Amber := "bg-amber-50 border-amber-200"
  const Red := "bg-red-50 border-red-200"

  /** Studied days take the heatmap colour; other days are amber with a justification, red without. */
  function ColourClass(x: DayData): string {
    if x.studied then HeatmapColorClass(x.hoursStudied)
    else if !Blank(x.justification) then Amber
    else Red
  }

  function CornerIcon(x: DayData): (i: Icon)
    ensures i == CheckIcon <==> x.studied
  {
    if x.studied then CheckIcon else XIcon
  }

  /** `notes || justification`: the notes unless empty, then the justification unless blank. */
  function TooltipNote(x: DayData): Option<string> {
    if x.notes != "" then Some(x.notes)
    else if !Blank(x.justification) then x.justification
    else None
  }

  function HoursBadge(x: DayData): Option<string> {
    if x.studied then Some(NumberText(x.hoursStudied) + "h") else None
  }

  function StatusLine(x: DayData): string {
    if x.studied then NumberText(x.hoursStudied) + " hours studied" else "Not studied"
  }

  function MoodLine(x: DayData): Option<string> {
    if Blank(x.mood) then None else x.mood
  }

  function CalendarDayCell(dayNumber: int, day: Option<DayData>, isTodayCell: bool): (c: Cell)
    ensures c.PlainCell? <==> day == None
    ensures c.dayNumber == dayNumber && c.isToday == isTodayCell
  {
    match day
    case None => PlainCell(dayNumber, isTodayCell)
    case Some(x) =>
      RecordCell(dayNumber, isTodayCell, ColourClass(x), HoursBadge(x), CornerIcon(x),
                 TooltipNote(x).Some?, StatusLine(x), MoodLine(x), TooltipNote(x))
  }

  lemma HeatmapColourEndsInHover(i: Intensity)
    ensures var c := HeatmapColor(i); |c| >= 3 && c[|c| - 3] == '/'
  {
  }

  /**
   * The colour of a cell tells studied from unstudied days: only studied days
   * take a heatmap colour, and an unstudied day is amber exactly when it has a
   * justification.
   */
  lemma ColourSeparatesStudied(x: DayData)
    ensures x.studied ==> ColourClass(x) == HeatmapColorClass(x.hoursStudied)
    ensures !x.studied ==> (ColourClass(x) == Amber <==> !Blank(x.justification))
    ensures !x.studied ==> ColourClass(x) != HeatmapColorClass(x.hoursStudied)
  {
    HeatmapColourEndsInHover(IntensityClass(x.hoursStudied));
    assert Amber[|Amber| - 3] == '2';
    assert Red[|Red| - 3] == '2';
    assert Amber[4] != Red[4];
  }

  /** The note icon shows exactly when notes or justification is non-empty, and the tooltip then prefers the notes, studied or not. */
  lemma NoteIconAndTooltip(x: DayData)
    ensures TooltipNote(x).Some? <==> x.notes != "" || !Blank(x.justification)
    ensures x.notes != "" ==> TooltipNote(x) == Some(x.notes)
    ensures x.notes == "" && !Blank(x.justification) ==> TooltipNote(x) == x.justification
    ensures TooltipNote(x).Some? ==> TooltipNote(x).value != ""
  {
  }

  /** The badge appears only on studied days, and the status line says "Not studied" exactly on the others. */
  lemma BadgeAndStatus(x: DayData)
    ensures HoursBadge(x).Some? <==> x.studied
    ensures StatusLine(x) == "Not studied" <==> !x.studied
  {
    if x.studied {
      var t := NumberText(x.hoursStudied);
      var s := t + " hours studied";
      assert t[0] == '-' || IsDigit(t[0]) by {
        if x.hoursStudied >= 0 {
          UnsignedRoundTrip(x.hoursStudied);
        }
      }
      assert s[0] == t[0];
    }
  }
}
