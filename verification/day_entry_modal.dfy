/**
 * The day-entry dialog: a local copy of the four editable fields of a record,
 * changed one field at a time by the controls and handed over whole on save.
 */
module DayEntryModal {
  import opened Types
  import opened IndexPage

  /** The four fields the dialog edits. */
  datatype LocalDayData = LocalDayData(studied: bool, hoursStudied: HalfHours, notes: string, justification: string)

  const InitialLocal := LocalDayData(false, 0, "", "")

  /** The copy taken from a record: absent text becomes the empty text. */
  function SyncedFrom(x: DayData): (l: LocalDayData)
    ensures l.studied == x.studied && l.hoursStudied == x.hoursStudied && l.notes == x.notes
    ensures l.justification == x.justification.GetOr("")
  {
    LocalDayData(x.studied, x.hoursStudied, x.notes, x.justification.GetOr(""))
  }

  function Toggled(l: LocalDayData): (r: LocalDayData)
    ensures r.studied == !l.studied
    ensures r.hoursStudied == l.hoursStudied && r.notes == l.notes && r.justification == l.justification
  {
    l.(studied := !l.studied)
  }

  /** Toggling twice gives back the same form. */
  lemma ToggleTwice(l: LocalDayData)
    ensures Toggled(Toggled(l)) == l
  {
  }

  /** The partial record handed over on save: all four fields, whichever of the two texts is on screen. */
  function PatchOf(l: LocalDayData): (p: Patch)
    ensures p.studied == Some(l.studied) && p.hoursStudied == Some(l.hoursStudied)
    ensures p.notes == Some(l.notes) && p.justification == Some(l.justification)
    ensures p.date == None && p.mood == None
  {
    Patch(None, Some(l.studied), Some(l.hoursStudied), Some(l.notes), Some(l.justification), None)
  }

  /** Saving sets the four fields of the record to the form's and keeps its date and mood. */
  lemma SavedPatchSetsForm(x: DayData, l: LocalDayData)
    ensures var r := ApplyPatch(x, PatchOf(l));
      && r.studied == l.studied && r.hoursStudied == l.hoursStudied && r.notes == l.notes
      && r.justification == Some(l.justification)
      && r.date == x.date && r.mood == x.mood
  {
  }

  /**
   * Opening a record and saving it untouched changes nothing, except that an
   * absent justification is stored as the empty text.
   */
  lemma UntouchedSaveKeepsRecord(x: DayData)
    ensures ApplyPatch(x, PatchOf(SyncedFrom(x))) == x.(justification := Some(x.justification.GetOr("")))
    ensures x.justification.Some? ==> ApplyPatch(x, PatchOf(SyncedFrom(x))) == x
  {
  }

  /** The slider's values: 0 to 12 hours in steps of half an hour. */
  predicate SliderValue(h: HalfHours) {
    0 <= h <= 24
  }

  class DayEntryModal {
    var studied: bool
    var hoursStudied: HalfHours
    var notes: string
    var justification: string

    function Local(): LocalDayData
      reads this
    {
      LocalDayData(studied, hoursStudied, notes, justification)
    }

    constructor()
      ensures Local() == InitialLocal
    {
      studied, hoursStudied, notes, justification := false, 0, "", "";
    }

    /** Re-copies the record whenever the dialog is given one; without a record the form is kept. */
    method SyncFrom(dayData: Option<DayData>)
      modifies this
      ensures dayData.Some? ==> Local() == SyncedFrom(dayData.value)
      ensures dayData.None? ==> Local() == old(Local())
    {
      if dayData.Some? {
        var x := dayData.value;
        studied := x.studied;
        hoursStudied := x.hoursStudied;
        notes := if x.notes != "" then x.notes else "";
        justification := if !Blank(x.justification) then x.justification.value else "";
      }
    }

    method HandleToggleStudied()
      modifies this
      ensures Local() == Toggled(old(Local()))
    {
      studied := !studied;
    }

    /** The slider reports its value as a one-element list, always within its range. */
    method HandleHoursChange(hours: seq<HalfHours>)
      requires |hours| >= 1 && SliderValue(hours[0])
      modifies this
      ensures Local() == old(Local()).(hoursStudied := hours[0])
      ensures SliderValue(hoursStudied)
    {
      hoursStudied := hours[0];
    }

    method HandleNotesChange(value: string)
      modifies this
      ensures Local() == old(Local()).(notes := value)
    {
      notes := value;
    }

    method HandleJustificationChange(value: string)
      modifies this
      ensures Local() == old(Local()).(justification := value)
    {
      justification := value;
    }

    /** Hands the whole form to the caller, which then closes the dialog. */
    method HandleSave() returns (p: Patch)
      ensures p == PatchOf(Local())
    {
      p := Patch(None, Some(studied), Some(hoursStudied), Some(notes), Some(justification), None);
    }

    /** The hours slider and the notes box are offered on a studied day, the justification box otherwise. */
    predicate HoursInputShown()
      reads this
    {
      studied
    }

    predicate JustificationInputShown()
      reads this
    {
      !studied
    }
  }
}
