/**
 * The medication calculator page: its form, result container, progress bar,
 * dark-mode state and local storage, and the handlers that change them.
 *
 * The page is a class whose fields are that state. `State()` reads all of it
 * as one value; each handler is a method whose postcondition gives the new
 * state as a function of the old one, and the lemmas at the end state what
 * the page promises about those functions.
 */
module MedicationTimer {
  import opened Wrappers
  import opened Strings
  import opened MedicationMath
  import opened SyncCodes

  const LastStartTimeKey := "lastStartTime"
  const LastMedicationKey := "lastMedication"
  const LastBreakTimeKey := "lastBreakTime"
  const LastCalculationKey := "lastCalculation"
  const LastUpdatedKey := "lastUpdated"
  const DarkModeKey := "darkMode"

  const InvalidSyncMessage := "Invalid sync code. Please try again."
  const ExpiredSyncMessage := "This sync code has expired. Please request a new one."
  const FailedSyncMessage := "Failed to apply sync code. Please try again."
  const SyncedMessage := "Settings successfully synced!"

  /** The form: selected medication, start-time text, break-time text and the break checkbox. */
  datatype Form = Form(medication: string, startTime: string, breakTime: string, breakToggle: bool)

  /** One block of the result container. */
  datatype Block =
    | CalculationResult(items: seq<OutputItem>)
    | ErrorMessage(message: string)
    | SyncCodeNotice(code: string)
    | SuccessMessage(message: string)

  /** What the progress bar shows: its width, its label (`caption`) and whether it has the expired colour. */
  datatype ProgressBar = ProgressBar(width: Percentage, caption: Label, expired: bool)

  /** `resetProgressBar`: width 0 %, label "0%", the normal colour. */
  const ResetBar := ProgressBar(Pct(0.0), Rounded(0), false)

  /**
   * The whole page state. `window` is the window of the latest progress
   * updater and `ticking` whether its one-second interval is still running.
   */
  datatype PageState = PageState(
    store: Storage,
    form: Form,
    breakContainerShown: bool,
    advancedShown: bool,
    darkMode: bool,
    result: seq<Block>,
    bar: ProgressBar,
    window: Option<ProgressWindow>,
    ticking: bool)

  // ---------------------------------------------------------------- the handlers as functions

  /** `toggleBreakSettings`: show the advanced settings with the checkbox; unchecking zeroes the break. */
  function BreakSettingsToggled(s: PageState): PageState {
    s.(advancedShown := s.form.breakToggle,
       form := if s.form.breakToggle then s.form else s.form.(breakTime := "0"))
  }

  /** `handleMedicationChange`: the break container is shown only for "both"; otherwise the break is switched off. */
  function MedicationChanged(s: PageState): PageState {
    var shown := s.(breakContainerShown := s.form.medication == Both);
    if s.form.medication == Both then shown
    else BreakSettingsToggled(shown.(form := shown.form.(breakToggle := false)))
  }

  /** `updateProgress` at `now`, when an updater exists. */
  function ProgressUpdated(s: PageState, now: int): PageState {
    match s.window
    case None => s
    case Some(w) =>
      var p := ProgressPercentage(w, now);
      s.(bar := ProgressBar(p, LabelOf(p), s.bar.expired || Ended(w, now)),
         ticking := s.ticking && !Ended(w, now))
  }

  /** `saveToLocalStorage` after a successful calculation. */
  function Saved(store: Storage, form: Form, c: Calculation, now: int): Storage {
    store[LastStartTimeKey := Text(form.startTime)]
         [LastMedicationKey := Text(form.medication)]
         [LastBreakTimeKey := Text(IntToString(c.breakTime))]
         [LastCalculationKey := CalculationBase64(c.items)]
         [LastUpdatedKey := Text(IntToString(now))]
  }

  /**
   * `calculateTimes` at `now`, with `dayStartMs` the instant today began:
   * clear the result and the bar; on an error show it and stop; otherwise
   * start a new progress updater, show the result and save the inputs.
   */
  function Calculated(s: PageState, now: int, dayStartMs: int): PageState {
    var cleared := s.(result := [], bar := ResetBar);
    match Calculate(s.form.medication, s.form.startTime, s.form.breakTime)
    case Err(message) => cleared.(result := [ErrorMessage(message)])
    case Ok(c) => CalculationShown(cleared, c, now, dayStartMs)
  }

  /** The end of an accepted `calculateTimes`: a progress updater over the window of `c`, its output shown, the inputs saved. */
  function CalculationShown(s: PageState, c: Calculation, now: int, dayStartMs: int): PageState {
    var started := ProgressUpdated(s.(window := Some(WindowFor(dayStartMs, c)), ticking := true), now);
    started.(result := [CalculationResult(c.items)], store := Saved(s.store, s.form, c, now))
  }

  /** `generateSyncCode` with the random code `raw`: store the record, show the code, sweep. */
  function SyncGenerated(s: PageState, raw: string, now: int): PageState {
    var record := NewSyncRecord(s.form.medication, s.form.startTime, s.form.breakTime, now);
    s.(store := Sweep(s.store[SyncKey(raw) := SyncJson(record)], now),
       result := s.result + [SyncCodeNotice(Upper(raw))])
  }

  /**
   * `applySyncCode`: report an unknown, unreadable or expired code (deleting
   * an expired one); otherwise fill the form from the record, recalculate and
   * add the success message.
   */
  function SyncApplied(s: PageState, code: string, now: int, dayStartMs: int): PageState {
    match LookupSync(s.store, code, now)
    case Unknown => s.(result := [ErrorMessage(InvalidSyncMessage)])
    case Unreadable => s.(result := [ErrorMessage(FailedSyncMessage)])
    case Expired => s.(store := s.store - {SyncKey(code)}, result := [ErrorMessage(ExpiredSyncMessage)])
    case Found(r) => RecordApplied(s, r, now, dayStartMs)
  }

  /** The end of a successful `applySyncCode`: the form filled from `r`, the medication change handled, a recalculation and the success message. */
  function RecordApplied(s: PageState, r: SyncRecord, now: int, dayStartMs: int): PageState {
    var filled := s.(form := s.form.(medication := r.medication, startTime := r.startTime, breakTime := r.breakTime));
    var calculated := Calculated(MedicationChanged(filled), now, dayStartMs);
    calculated.(result := calculated.result + [SuccessMessage(SyncedMessage)])
  }

  /** The text stored under `key` when it is present and not empty. */
  function StoredText(store: Storage, key: string): Option<string> {
    if key in store && store[key].Text? && store[key].text != "" then Some(store[key].text) else None
  }

  /** The form with each saved, non-empty start time, medication and break time put back. */
  function RestoredForm(store: Storage, form: Form): Form {
    var f1 := if StoredText(store, LastStartTimeKey).Some? then form.(startTime := StoredText(store, LastStartTimeKey).value) else form;
    var f2 := if StoredText(store, LastMedicationKey).Some? then f1.(medication := StoredText(store, LastMedicationKey).value) else f1;
    if StoredText(store, LastBreakTimeKey).Some? then f2.(breakTime := StoredText(store, LastBreakTimeKey).value) else f2
  }

  /**
   * `loadPreviousTimings`: restore each saved, non-empty form value and the
   * saved result; a saved result that does not decode abandons the rest.
   */
  function TimingsLoaded(s: PageState): PageState {
    var restored := s.(form := RestoredForm(s.store, s.form));
    if LastCalculationKey in s.store && !IsEmptyText(s.store[LastCalculationKey]) then
      match s.store[LastCalculationKey]
      case CalculationBase64(items) => MedicationChanged(restored.(result := [CalculationResult(items)]))
      case _ => restored
    else
      MedicationChanged(restored)
  }

  /** `toggleDarkMode`: flip the mode and store "enabled" or "disabled". */
  function DarkModeToggled(s: PageState): PageState {
    s.(darkMode := !s.darkMode,
       store := s.store[DarkModeKey := Text(if !s.darkMode then "enabled" else "disabled")])
  }

  /** `loadDarkModeState`: switch dark mode on when "enabled" is stored. */
  function DarkModeLoaded(s: PageState): PageState {
    if DarkModeKey in s.store && s.store[DarkModeKey] == Text("enabled") then s.(darkMode := true) else s
  }

  // ---------------------------------------------------------------- what the handlers promise

  /**
   * A rejected calculation shows its message and a reset bar and changes
   * nothing else: no progress updater is started and nothing is saved.
   */
  lemma RejectedCalculationChangesNothingElse(s: PageState, now: int, dayStartMs: int)
    requires Calculate(s.form.medication, s.form.startTime, s.form.breakTime).Err?
    ensures var message := Calculate(s.form.medication, s.form.startTime, s.form.breakTime).message;
      Calculated(s, now, dayStartMs) == s.(result := [ErrorMessage(message)], bar := ResetBar)
  {
  }

  /**
   * An accepted calculation shows its output, runs a progress updater over
   * its window (stopped and in the expired colour exactly when the window has
   * already ended), saves the inputs under the five fixed keys and leaves
   * every other stored key and the form alone.
   */
  lemma AcceptedCalculationShowsAndSaves(s: PageState, now: int, dayStartMs: int, key: string)
    requires Calculate(s.form.medication, s.form.startTime, s.form.breakTime).Ok?
    ensures var c := Calculate(s.form.medication, s.form.startTime, s.form.breakTime).value;
            var w := WindowFor(dayStartMs, c);
            var t := Calculated(s, now, dayStartMs);
      && t.result == [CalculationResult(c.items)]
      && t.window == Some(w)
      && t.bar == ProgressBar(ProgressPercentage(w, now), LabelOf(ProgressPercentage(w, now)), Ended(w, now))
      && t.ticking == !Ended(w, now)
      && t.form == s.form
      && t.store[LastStartTimeKey] == Text(s.form.startTime)
      && t.store[LastMedicationKey] == Text(s.form.medication)
      && t.store[LastBreakTimeKey] == Text(IntToString(c.breakTime))
      && t.store[LastCalculationKey] == CalculationBase64(c.items)
      && t.store[LastUpdatedKey] == Text(IntToString(now))
      && (key !in {LastStartTimeKey, LastMedicationKey, LastBreakTimeKey, LastCalculationKey, LastUpdatedKey} ==>
            (key in t.store <==> key in s.store) && (key in s.store ==> t.store[key] == s.store[key]))
  {
    var c := Calculate(s.form.medication, s.form.startTime, s.form.breakTime).value;
    var cleared := s.(result := [], bar := ResetBar);
    assert Calculated(s, now, dayStartMs) == CalculationShown(cleared, c, now, dayStartMs);
    ShownCalculationIsSaved(cleared, c, now, dayStartMs, key);
  }

  /** What `CalculationShown` leaves: the output, a running updater over the window, the inputs saved under the five keys and nothing else touched. */
  lemma ShownCalculationIsSaved(s: PageState, c: Calculation, now: int, dayStartMs: int, key: string)
    requires s.bar == ResetBar
    ensures var w := WindowFor(dayStartMs, c);
            var t := CalculationShown(s, c, now, dayStartMs);
      && t.result == [CalculationResult(c.items)]
      && t.window == Some(w)
      && t.bar == ProgressBar(ProgressPercentage(w, now), LabelOf(ProgressPercentage(w, now)), Ended(w, now))
      && t.ticking == !Ended(w, now)
      && t.form == s.form
      && t.store[LastStartTimeKey] == Text(s.form.startTime)
      && t.store[LastMedicationKey] == Text(s.form.medication)
      && t.store[LastBreakTimeKey] == Text(IntToString(c.breakTime))
      && t.store[LastCalculationKey] == CalculationBase64(c.items)
      && t.store[LastUpdatedKey] == Text(IntToString(now))
      && (key !in {LastStartTimeKey, LastMedicationKey, LastBreakTimeKey, LastCalculationKey, LastUpdatedKey} ==>
            (key in t.store <==> key in s.store) && (key in s.store ==> t.store[key] == s.store[key]))
  {
  }

  /**
   * For a known medication (or both) the bar shown right after calculating
   * is between 0 and 100 %, with a label between 0 and 100, and it is full
   * exactly when it shows the expired colour.
   */
  lemma CalculatedBarInRange(s: PageState, now: int, dayStartMs: int)
    requires Calculate(s.form.medication, s.form.startTime, s.form.breakTime).Ok?
    requires s.form.medication == Both || LookupMedication(s.form.medication).Some?
    ensures var bar := Calculated(s, now, dayStartMs).bar;
      && bar.width.Pct? && 0.0 <= bar.width.value <= 100.0
      && 0 <= bar.caption.n <= 100
      && (bar.width.value == 100.0 <==> bar.expired)
  {
    var c := Calculate(s.form.medication, s.form.startTime, s.form.breakTime).value;
    var w := WindowFor(dayStartMs, c);
    KnownMedicationHasWindow(s.form.medication, s.form.startTime, s.form.breakTime, dayStartMs);
    ProgressInRange(w, now);
    ProgressFullIffEnded(w, now);
    LabelInRange(ProgressPercentage(w, now));
  }

  /**
   * Saving and reloading round-trips a calculation: a fresh page load over
   * the saved storage shows the saved output, restores the medication and
   * start time, and recalculating from the restored form gives the same
   * output and duration.
   */
  lemma ReloadRestoresCalculation(s: PageState, now: int, dayStartMs: int, initial: Form)
    requires Calculate(s.form.medication, s.form.startTime, s.form.breakTime).Ok?
    requires s.form.medication != ""
    ensures var c := Calculate(s.form.medication, s.form.startTime, s.form.breakTime).value;
            var saved := Calculated(s, now, dayStartMs).store;
            var loaded := TimingsLoaded(PageState(saved, initial, false, false, false, [], ResetBar, None, false));
            var again := Calculate(loaded.form.medication, loaded.form.startTime, loaded.form.breakTime);
      && (c.items != [] ==> loaded.result == [CalculationResult(c.items)])
      && (c.items == [] ==> loaded.result == [])
      && loaded.form.medication == s.form.medication
      && loaded.form.startTime == s.form.startTime
      && again.Ok?
      && again.value.items == c.items
      && again.value.totalMinutes == c.totalMinutes
  {
    var c := Calculate(s.form.medication, s.form.startTime, s.form.breakTime).value;
    var saved := Calculated(s, now, dayStartMs).store;
    assert saved == Saved(s.store, s.form, c, now);
    var start := ParseStartTime(s.form.startTime).value;
    var breakText := IntToString(c.breakTime);
    var restoredForm := initial.(startTime := s.form.startTime, medication := s.form.medication, breakTime := breakText);
    var loaded := TimingsLoaded(PageState(saved, initial, false, false, false, [], ResetBar, None, false));
    LoadSavedCalculation(s.store, s.form, c, now, initial);
    assert loaded.form.medication == s.form.medication && loaded.form.startTime == s.form.startTime;
    NumberOrZeroOfIntToString(c.breakTime);
    if s.form.medication == Both {
      assert loaded.form.breakTime == breakText;
      assert Calculate(loaded.form.medication, loaded.form.startTime, loaded.form.breakTime)
          == Ok(CalculationFor(s.form.medication, start, c.breakTime));
    } else {
      assert loaded.form.breakTime == "0";
      NumberOrZeroOfIntToString(0);
      assert IntToString(0) == "0";
      assert Calculate(loaded.form.medication, loaded.form.startTime, loaded.form.breakTime)
          == Ok(CalculationFor(s.form.medication, start, 0));
      CalculationForIgnoresBreak(s.form.medication, start, c.breakTime, 0);
    }
  }

  /**
   * Loading a page over saved inputs restores them into the form and shows
   * the saved output; an empty output is saved as the empty text and shows
   * nothing.
   */
  lemma LoadSavedCalculation(store: Storage, form: Form, c: Calculation, now: int, initial: Form)
    requires form.startTime != "" && form.medication != ""
    ensures var saved := Saved(store, form, c, now);
            var restored := initial.(startTime := form.startTime, medication := form.medication, breakTime := IntToString(c.breakTime));
      TimingsLoaded(PageState(saved, initial, false, false, false, [], ResetBar, None, false))
        == MedicationChanged(PageState(saved, restored, false, false, false,
                                       if c.items == [] then [] else [CalculationResult(c.items)], ResetBar, None, false))
  {
    var saved := Saved(store, form, c, now);
    assert StoredText(saved, LastStartTimeKey) == Some(form.startTime);
    assert StoredText(saved, LastMedicationKey) == Some(form.medication);
    assert StoredText(saved, LastBreakTimeKey) == Some(IntToString(c.breakTime));
    assert saved[LastCalculationKey] == CalculationBase64(c.items);
  }

  /** Outside combined mode the break changes neither the output nor the duration. */
  lemma CalculationForIgnoresBreak(medication: string, start: nat, breakTime: int, otherBreak: int)
    requires medication != Both && start < MinutesPerDay
    ensures CalculationFor(medication, start, breakTime).items == CalculationFor(medication, start, otherBreak).items
    ensures CalculationFor(medication, start, breakTime).totalMinutes == CalculationFor(medication, start, otherBreak).totalMinutes
  {
  }

  /** Calculating never changes the form. */
  lemma CalculatedKeepsForm(s: PageState, now: int, dayStartMs: int)
    ensures Calculated(s, now, dayStartMs).form == s.form
  {
    match Calculate(s.form.medication, s.form.startTime, s.form.breakTime)
    case Err(_) =>
    case Ok(c) =>
      assert Calculated(s, now, dayStartMs) == CalculationShown(s.(result := [], bar := ResetBar), c, now, dayStartMs);
  }

  /**
   * A generated code entered in any letter case before it expires puts the
   * saved medication and start time back into the form (and the break, in
   * combined mode) and ends with the success message.
   */
  lemma SyncRoundTripRestoresInputs(s: PageState, raw: string, entered: string, now: int, later: int, dayStartMs: int)
    requires Upper(entered) == Upper(raw)
    requires later <= now + SyncExpiryMs
    ensures var applied := SyncApplied(SyncGenerated(s, raw, now), entered, later, dayStartMs);
      && applied.form.medication == s.form.medication
      && applied.form.startTime == s.form.startTime
      && applied.form.breakTime == (if s.form.medication == Both then s.form.breakTime else "0")
      && applied.result[|applied.result| - 1] == SuccessMessage(SyncedMessage)
  {
    var g := SyncGenerated(s, raw, now);
    var record := NewSyncRecord(s.form.medication, s.form.startTime, s.form.breakTime, now);
    FreshRecordSurvivesSweep(s.store, raw, s.form.medication, s.form.startTime, s.form.breakTime, now);
    SyncKeyCaseInsensitive(entered, raw);
    assert LookupSync(g.store, entered, later) == Found(record);
    assert SyncApplied(g, entered, later, dayStartMs) == RecordApplied(g, record, later, dayStartMs);
    RecordAppliedFillsForm(g, record, later, dayStartMs);
  }

  /** Applying a found record fills the form from it (the break only for "both") and ends with the success message. */
  lemma RecordAppliedFillsForm(s: PageState, r: SyncRecord, now: int, dayStartMs: int)
    ensures var applied := RecordApplied(s, r, now, dayStartMs);
      && applied.form.medication == r.medication
      && applied.form.startTime == r.startTime
      && applied.form.breakTime == (if r.medication == Both then r.breakTime else "0")
      && applied.result[|applied.result| - 1] == SuccessMessage(SyncedMessage)
  {
    var filled := s.(form := s.form.(medication := r.medication, startTime := r.startTime, breakTime := r.breakTime));
    var changed := MedicationChanged(filled);
    MedicationChangeResetsBreak(filled);
    CalculatedKeepsForm(changed, now, dayStartMs);
  }

  /**
   * An entered code that has expired is deleted and reported, and the form
   * and everything else but the result are left as they were.
   */
  lemma ExpiredSyncCodeIsDeleted(s: PageState, raw: string, entered: string, now: int, later: int, dayStartMs: int)
    requires Upper(entered) == Upper(raw)
    requires later > now + SyncExpiryMs
    ensures var g := SyncGenerated(s, raw, now);
      SyncApplied(g, entered, later, dayStartMs)
        == g.(store := g.store - {SyncKey(raw)}, result := [ErrorMessage(ExpiredSyncMessage)])
  {
    var g := SyncGenerated(s, raw, now);
    var record := NewSyncRecord(s.form.medication, s.form.startTime, s.form.breakTime, now);
    FreshRecordSurvivesSweep(s.store, raw, s.form.medication, s.form.startTime, s.form.breakTime, now);
    SyncKeyCaseInsensitive(entered, raw);
    assert LookupSync(g.store, entered, later) == Expired;
  }

  /**
   * An unknown or unreadable code changes nothing but the result, which
   * shows the invalid-code or the failed-sync message.
   */
  lemma FailedSyncLookupChangesOnlyResult(s: PageState, code: string, now: int, dayStartMs: int)
    requires LookupSync(s.store, code, now).Unknown? || LookupSync(s.store, code, now).Unreadable?
    ensures SyncApplied(s, code, now, dayStartMs).(result := s.result) == s
    ensures LookupSync(s.store, code, now).Unknown? ==>
      SyncApplied(s, code, now, dayStartMs).result == [ErrorMessage(InvalidSyncMessage)]
    ensures LookupSync(s.store, code, now).Unreadable? ==>
      SyncApplied(s, code, now, dayStartMs).result == [ErrorMessage(FailedSyncMessage)]
  {
  }

  /**
   * Choosing anything but "both" hides the break settings, unticks the
   * break and zeroes the break time; choosing "both" only shows the break
   * container.
   */
  lemma MedicationChangeResetsBreak(s: PageState)
    ensures var t := MedicationChanged(s);
      && t.breakContainerShown == (s.form.medication == Both)
      && (s.form.medication == Both ==> t == s.(breakContainerShown := true))
      && (s.form.medication != Both ==>
            t.form == s.form.(breakToggle := false, breakTime := "0") && !t.advancedShown)
  {
  }

  /**
   * Toggling dark mode twice restores it, and a new page load over the
   * stored value shows the mode the last toggle chose.
   */
  lemma DarkModePersists(s: PageState)
    ensures DarkModeToggled(DarkModeToggled(s)).darkMode == s.darkMode
    ensures var t := DarkModeToggled(s);
      DarkModeLoaded(t.(darkMode := false)).darkMode == t.darkMode
  {
  }

  // ---------------------------------------------------------------- the page

  class MedicationPage {
    var store: Storage
    var form: Form
    var breakContainerShown: bool
    var advancedShown: bool
    var darkMode: bool
    var result: seq<Block>
    var bar: ProgressBar
    var window: Option<ProgressWindow>
    var ticking: bool

    function State(): PageState
      reads this
    {
      PageState(store, form, breakContainerShown, advancedShown, darkMode, result, bar, window, ticking)
    }

    /** The page as loaded, before `initializePage`: the stored data and the form's initial values. */
    constructor (store: Storage, form: Form)
      ensures State() == PageState(store, form, false, false, false, [], ResetBar, None, false)
    {
      this.store := store;
      this.form := form;
      breakContainerShown, advancedShown, darkMode := false, false, false;
      result, bar, window, ticking := [], ResetBar, None, false;
    }

    /** `initializePage`: the dark-mode state, then the previous timings. */
    method Initialize()
      modifies this
      ensures State() == TimingsLoaded(DarkModeLoaded(old(State())))
    {
      LoadDarkModeState();
      LoadPreviousTimings();
    }

    /** `insertCurrentTime` with the current time of day in minutes. */
    method InsertCurrentTime(clock: nat)
      requires clock < MinutesPerDay
      modifies this`form
      ensures form == old(form).(startTime := FormatClock(clock))
    {
      form := form.(startTime := FormatClock(clock));
    }

    method ToggleBreakSettings()
      modifies this
      ensures State() == BreakSettingsToggled(old(State()))
    {
      advancedShown := form.breakToggle;
      if !form.breakToggle {
        form := form.(breakTime := "0");
      }
    }

    method HandleMedicationChange()
      modifies this
      ensures State() == MedicationChanged(old(State()))
    {
      var medication := form.medication;
      breakContainerShown := medication == Both;
      if medication != Both {
        form := form.(breakToggle := false);
        ToggleBreakSettings();
      }
    }

    method ShowError(message: string)
      modifies this`result
      ensures result == [ErrorMessage(message)]
    {
      result := [ErrorMessage(message)];
    }

    method ShowSuccess(message: string)
      modifies this`result
      ensures result == old(result) + [SuccessMessage(message)]
    {
      result := result + [SuccessMessage(message)];
    }

    method ResetProgressBar()
      modifies this`bar
      ensures bar == ResetBar
    {
      bar := ResetBar;
    }

    /** `updateProgress`, as run by the interval, the timeout and the page becoming visible. */
    method UpdateProgress(now: int)
      modifies this
      ensures State() == ProgressUpdated(old(State()), now)
    {
      if window.Some? {
        var w := window.value;
        var p := ProgressPercentage(w, now);
        bar := ProgressBar(p, LabelOf(p), bar.expired || Ended(w, now));
        if Ended(w, now) {
          ticking := false;
        }
      }
    }

    /** One tick of the one-second interval: an update while the interval runs. */
    method IntervalTick(now: int)
      modifies this
      ensures State() == if old(ticking) then ProgressUpdated(old(State()), now) else old(State())
    {
      if ticking {
        UpdateProgress(now);
      }
    }

    /** The timeout at the end of the duration: a last update, and the interval stops. */
    method ProgressTimeout(now: int)
      modifies this
      ensures State() == ProgressUpdated(old(State()), now).(ticking := false)
    {
      UpdateProgress(now);
      ticking := false;
    }

    /** `updateProgressBar`: replace the updater by one for `w` and run it once. */
    method UpdateProgressBar(w: ProgressWindow, now: int)
      modifies this
      ensures State() == ProgressUpdated(old(State()).(window := Some(w), ticking := true), now)
    {
      window := Some(w);
      ticking := true;
      UpdateProgress(now);
    }

    method SaveToLocalStorage(c: Calculation, now: int)
      modifies this`store
      ensures store == Saved(old(store), form, c, now)
    {
      store := store[LastStartTimeKey := Text(form.startTime)];
      store := store[LastMedicationKey := Text(form.medication)];
      store := store[LastBreakTimeKey := Text(IntToString(c.breakTime))];
      store := store[LastCalculationKey := CalculationBase64(c.items)];
      store := store[LastUpdatedKey := Text(IntToString(now))];
    }

    /** `calculateTimes`, building the output and the total duration step by step. */
    method CalculateTimes(now: int, dayStartMs: int)
      modifies this
      ensures State() == Calculated(old(State()), now, dayStartMs)
    {
      result := [];
      ResetProgressBar();
      ghost var cleared := State();
      assert cleared == old(State()).(result := [], bar := ResetBar);

      var medication, startText := form.medication, form.startTime;
      var breakTime := NumberOrZero(form.breakTime);
      var parsed := ParseStartTime(startText);
      if parsed.None? {
        ShowError(InvalidStartMessage);
        return;
      }
      var start := parsed.value;
      if medication == Both && breakTime > BreakLimit {
        ShowError(BreakTooLongMessage);
        return;
      }
      var output, total := AccumulateOutput(medication, start, breakTime);

      var c := Calculation(start, breakTime, output, total);
      CalculateAccepted(medication, startText, form.breakTime);
      ShowCalculation(c, now, dayStartMs);
    }

    /** The end of `calculateTimes`: `updateProgressBar`, the output into the result container, `saveToLocalStorage`. */
    method ShowCalculation(c: Calculation, now: int, dayStartMs: int)
      modifies this
      ensures State() == CalculationShown(old(State()), c, now, dayStartMs)
    {
      ghost var before := State();
      UpdateProgressBar(WindowFor(dayStartMs, c), now);
      result := [CalculationResult(c.items)];
      SaveToLocalStorage(c, now);
      assert form == before.form;
    }

    /**
     * The body of `calculateTimes` once the inputs are accepted: append each
     * medication's times (and the break) to the output and add up the
     * duration.
     */
    static method AccumulateOutput(medication: string, start: nat, breakTime: int)
      returns (output: seq<OutputItem>, total: int)
      requires start < MinutesPerDay
      requires medication == Both ==> breakTime <= BreakLimit
      ensures Calculation(start, breakTime, output, total) == CalculationFor(medication, start, breakTime)
    {
      output, total := [], 0;
      if medication == Both {
        output := output + [Timing(DoseTimes(Elvanse, start, 0))];
        total := total + Elvanse.durationMinutes;
        if breakTime > 0 {
          output := output + [BreakNote(breakTime)];
          total := total + breakTime;
        }
        output := output + [Timing(DoseTimes(Amfexa, start, SecondDoseExtraOnset(breakTime)))];
        total := total + Amfexa.durationMinutes;
      } else if LookupMedication(medication).Some? {
        var med := LookupMedication(medication).value;
        output := output + [Timing(DoseTimes(med, start, 0))];
        total := med.durationMinutes;
      }
    }

    /** `cleanupOldSyncCodes`: visit every key and delete the stale sync entries. */
    method CleanupOldSyncCodes(now: int)
      modifies this`store
      ensures store == Sweep(old(store), now)
    {
      ghost var original := store;
      var keys := store.Keys;
      while keys != {}
        invariant keys <= original.Keys
        invariant forall k :: k in store <==> k in original && (k in keys || !Stale(k, original[k], now))
        invariant forall k :: k in store ==> store[k] == original[k]
        decreases keys
      {
        var key :| key in keys;
        if IsSyncKey(key) {
          match ParseSync(store[key])
          case None =>
            store := store - {key};
          case Some(record) =>
            if now > record.expires {
              store := store - {key};
            }
        }
        keys := keys - {key};
      }
      assert store.Keys == Sweep(original, now).Keys;
    }

    /** `generateSyncCode` with the random code `raw`. */
    method GenerateSyncCode(raw: string, now: int)
      modifies this
      ensures State() == SyncGenerated(old(State()), raw, now)
    {
      var record := NewSyncRecord(form.medication, form.startTime, form.breakTime, now);
      var code := Upper(raw);
      store := store[SyncPrefix + code := SyncJson(record)];
      result := result + [SyncCodeNotice(code)];
      CleanupOldSyncCodes(now);
    }

    /** `applySyncCode` with the code the user entered. */
    method ApplySyncCode(code: string, now: int, dayStartMs: int)
      modifies this
      ensures State() == SyncApplied(old(State()), code, now, dayStartMs)
    {
      var key := SyncPrefix + Upper(code);
      if key !in store || IsEmptyText(store[key]) {
        ShowError(InvalidSyncMessage);
        return;
      }
      var parsed := ParseSync(store[key]);
      if parsed.None? {
        ShowError(FailedSyncMessage);
        return;
      }
      var record := parsed.value;
      if now > record.expires {
        store := store - {key};
        ShowError(ExpiredSyncMessage);
        return;
      }
      ApplyRecord(record, now, dayStartMs);
    }

    /** The end of `applySyncCode` once the record is found and fresh. */
    method ApplyRecord(record: SyncRecord, now: int, dayStartMs: int)
      modifies this
      ensures State() == RecordApplied(old(State()), record, now, dayStartMs)
    {
      form := form.(medication := record.medication, startTime := record.startTime, breakTime := record.breakTime);
      HandleMedicationChange();
      CalculateTimes(now, dayStartMs);
      ShowSuccess(SyncedMessage);
    }

    /** The first half of `loadPreviousTimings`: each saved, non-empty form value put back. */
    method RestoreForm()
      modifies this`form
      ensures form == RestoredForm(store, old(form))
    {
      var lastStartTime := StoredText(store, LastStartTimeKey);
      var lastMedication := StoredText(store, LastMedicationKey);
      var lastBreakTime := StoredText(store, LastBreakTimeKey);
      if lastStartTime.Some? {
        form := form.(startTime := lastStartTime.value);
      }
      if lastMedication.Some? {
        form := form.(medication := lastMedication.value);
      }
      if lastBreakTime.Some? {
        form := form.(breakTime := lastBreakTime.value);
      }
    }

    method LoadPreviousTimings()
      modifies this
      ensures State() == TimingsLoaded(old(State()))
    {
      RestoreForm();
      if LastCalculationKey in store && !IsEmptyText(store[LastCalculationKey]) {
        match store[LastCalculationKey]
        case CalculationBase64(items) =>
          result := [CalculationResult(items)];
        case _ =>
          return;
      }
      HandleMedicationChange();
    }

    method ToggleDarkMode()
      modifies this
      ensures State() == DarkModeToggled(old(State()))
    {
      darkMode := !darkMode;
      store := store[DarkModeKey := Text(if darkMode then "enabled" else "disabled")];
    }

    method LoadDarkModeState()
      modifies this
      ensures State() == DarkModeLoaded(old(State()))
    {
      if DarkModeKey in store && store[DarkModeKey] == Text("enabled") {
        darkMode := true;
      }
    }
  }
}
