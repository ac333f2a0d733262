/**
 * The weekly focus card: a draft of the focus text edited in place, cancelled
 * back to the committed text or saved after a short delay, and the week number
 * shown in its title.
 */
module WeeklyFocus {
  import opened Types
  import opened CalendarUtils

  // ---------------------------------------------------------------------------
  // The week number

  const OneWeekMs := 604800000
  const OneDayMs := 86400000

  /** `Math.ceil(elapsedMs / oneWeek)`, exact on integers of either sign. */
  function CurrentWeek(elapsedMs: int): (w: int)
    ensures (w - 1) * OneWeekMs < elapsedMs <= w * OneWeekMs
  {
    -((-elapsedMs) / OneWeekMs)
  }

  /** Milliseconds from local midnight on 1 January to `msOfDay` into day `d`. */
  function ElapsedMs(d: Date, msOfDay: int): int
    requires 0 <= d.month < 12
  {
    (DaysBeforeMonth(d.year, d.month) + d.day - 1) * OneDayMs + msOfDay
  }

  /** Week 0 at midnight on 1 January, week 1 through the following seven days. */
  lemma FirstWeeks(elapsedMs: int)
    ensures elapsedMs == 0 ==> CurrentWeek(elapsedMs) == 0
    ensures 0 < elapsedMs <= OneWeekMs ==> CurrentWeek(elapsedMs) == 1
    ensures elapsedMs > 0 ==> CurrentWeek(elapsedMs) >= 1
  {
  }

  /** Every instant of a year, leap or not, falls in weeks 0 to 53. */
  lemma WeekOfYearBounded(d: Date, msOfDay: int)
    requires ValidDate(d) && 0 <= msOfDay < OneDayMs
    ensures 0 <= CurrentWeek(ElapsedMs(d, msOfDay)) <= 53
  {
    var days := DaysBeforeMonth(d.year, d.month) + d.day - 1;
    assert days <= 365 by {
      assert DaysBeforeMonth(d.year, d.month + 1) <= 366;
    }
    var e := ElapsedMs(d, msOfDay);
    assert 0 <= e < 366 * OneDayMs;
  }

  // ---------------------------------------------------------------------------
  // The edit, cancel and save steps

  /**
   * The card's state: whether the text box is shown, the draft, whether a save
   * is in flight, and the draft that save captured.
   */
  datatype FocusState = FocusState(isEditing: bool, focus: string, loading: bool, pending: Option<string>)

  /** A save is in flight exactly while it holds a captured draft, and only while editing. */
  predicate ValidState(s: FocusState) {
    (s.loading <==> s.pending.Some?) && (s.loading ==> s.isEditing)
  }

  /** The card as mounted: the draft starts as the committed text, once. */
  function Mounted(weeklyFocus: string): (s: FocusState)
    ensures ValidState(s) && !s.isEditing && !s.loading && s.focus == weeklyFocus
  {
    FocusState(false, weeklyFocus, false, None)
  }

  function Edit(s: FocusState): (t: FocusState)
    ensures t.isEditing && t.focus == s.focus && t.loading == s.loading && t.pending == s.pending
  {
    s.(isEditing := true)
  }

  /** Cancel throws the draft away: it becomes the committed text again. */
  function Cancel(s: FocusState, weeklyFocus: string): (t: FocusState)
    ensures !t.isEditing && t.focus == weeklyFocus && t.loading == s.loading && t.pending == s.pending
  {
    s.(focus := weeklyFocus, isEditing := false)
  }

  function Change(s: FocusState, value: string): (t: FocusState)
    ensures t.focus == value && t.isEditing == s.isEditing && t.loading == s.loading && t.pending == s.pending
  {
    s.(focus := value)
  }

  /** Save starts the delay and captures the draft as it is now. */
  function Save(s: FocusState): (t: FocusState)
    ensures t.loading && t.pending == Some(s.focus) && t.isEditing == s.isEditing && t.focus == s.focus
  {
    s.(loading := true, pending := Some(s.focus))
  }

  /** When the delay ends the captured draft is committed and the card leaves editing. */
  function Complete(s: FocusState): (t: FocusState)
    ensures !t.isEditing && !t.loading && t.pending == None && t.focus == s.focus
  {
    s.(isEditing := false, loading := false, pending := None)
  }

  predicate EditShown(s: FocusState) {
    !s.isEditing
  }

  predicate SaveDisabled(s: FocusState) {
    s.loading
  }

  predicate CancelDisabled(s: FocusState) {
    s.loading
  }

  /**
   * Each step a user can take keeps the state valid: Edit is offered only
   * outside editing, Save and Cancel only while editing and not loading.
   */
  lemma StepsKeepValid(s: FocusState, weeklyFocus: string, value: string)
    requires ValidState(s)
    ensures EditShown(s) ==> ValidState(Edit(s))
    ensures s.isEditing && !CancelDisabled(s) ==> ValidState(Cancel(s, weeklyFocus))
    ensures s.isEditing && !SaveDisabled(s) ==> ValidState(Save(s))
    ensures ValidState(Change(s, value))
    ensures s.pending.Some? ==> ValidState(Complete(s))
  {
  }

  /**
   * Save followed by the end of the delay commits the draft as it was when Save
   * was pressed, even if it was typed over during the delay.
   */
  lemma SaveCommitsCapturedDraft(s: FocusState, typedMeanwhile: seq<string>)
    ensures var t := Save(s);
      var u := ChangeAll(t, typedMeanwhile);
      u.pending == Some(s.focus) && !Complete(u).isEditing && !Complete(u).loading
  {
    ChangeAllKeepsPending(Save(s), typedMeanwhile);
  }

  function ChangeAll(s: FocusState, values: seq<string>): FocusState
    decreases |values|
  {
    if values == [] then s else ChangeAll(Change(s, values[0]), values[1..])
  }

  lemma {:induction false} ChangeAllKeepsPending(s: FocusState, values: seq<string>)
    ensures var t := ChangeAll(s, values);
      t.pending == s.pending && t.isEditing == s.isEditing && t.loading == s.loading
    decreases |values|
  {
    if values != [] {
      ChangeAllKeepsPending(Change(s, values[0]), values[1..]);
    }
  }

  /** Cancel restores the draft to the committed text whatever was typed. */
  lemma CancelDiscardsDraft(s: FocusState, weeklyFocus: string, typed: string)
    ensures Cancel(Change(s, typed), weeklyFocus).focus == weeklyFocus
    ensures Cancel(Change(s, typed), weeklyFocus) == Cancel(s, weeklyFocus)
  {
  }

  // ---------------------------------------------------------------------------
  // The card's state

  class WeeklyFocus {
    var isEditing: bool
    var focus: string
    var loading: bool
    var pending: Option<string>

    function State(): FocusState
      reads this
    {
      FocusState(isEditing, focus, loading, pending)
    }

    constructor(weeklyFocus: string)
      ensures State() == Mounted(weeklyFocus)
    {
      isEditing := false;
      focus := weeklyFocus;
      loading := false;
      pending := None;
    }

    method HandleEdit()
      modifies this
      ensures State() == Edit(old(State()))
    {
      isEditing := true;
    }

    method HandleCancel(weeklyFocus: string)
      modifies this
      ensures State() == Cancel(old(State()), weeklyFocus)
    {
      focus := weeklyFocus;
      isEditing := false;
    }

    method HandleChange(value: string)
      modifies this
      ensures State() == Change(old(State()), value)
    {
      focus := value;
    }

    /** The Save button: shows the spinner and starts the delay with the current draft. */
    method HandleSave()
      modifies this
      ensures State() == Save(old(State()))
    {
      loading := true;
      pending := Some(focus);
    }

    /** The end of the delay: returns the text to commit as the weekly focus. */
    method CompleteSave() returns (committed: string)
      requires pending.Some?
      modifies this
      ensures committed == old(pending).value
      ensures State() == Complete(old(State()))
    {
      committed := pending.value;
      isEditing := false;
      loading := false;
      pending := None;
    }
  }
}
