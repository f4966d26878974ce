/**
 * The arithmetic of the medication timing calculator: the start-time check,
 * the medication table, the dose times each medication is shown with, the
 * calculation as a whole (its error cases, its output and the duration that
 * drives the progress bar) and the progress percentage.
 *
 * Times of day are whole minutes after midnight (0 to 1439); instants are
 * integer milliseconds since the epoch.
 */
module MedicationMath {
  import opened Wrappers
  import opened Strings

  // ---------------------------------------------------------------- medication table

  /** One entry of the medication table; onset, duration and peak in minutes. */
  datatype Medication = Medication(name: string, onset: int, durationMinutes: int, peakTime: int)

  /** Onset 60 min, duration 6 h, peak 180 min. */
  const Elvanse := Medication("Elvanse\U{00AE} 60mg", 60, 360, 180)
  /** Onset 30 min, duration 3.25 h, peak 90 min. */
  const Amfexa := Medication("Amfexa\U{00AE} 10mg", 30, 195, 90)

  /** The selector value that asks for both medications with a break between. */
  const Both := "both"

  const MinutesPerDay := 1440
  const MillisPerMinute := 60000
  /** Longest break accepted in combined mode, in minutes. */
  const BreakLimit := 240

  const InvalidStartMessage := "Please enter a valid start time in HH:MM format."
  const BreakTooLongMessage := "Break time should not exceed 4 hours"

  /** `medication in MEDICATIONS` followed by `MEDICATIONS[medication]`. */
  function LookupMedication(key: string): (r: Option<Medication>)
    ensures r.Some? <==> key == "elvanse" || key == "amfexa"
    ensures r.Some? ==> r.value.onset > 0 && r.value.durationMinutes > 0 && r.value.peakTime > r.value.onset
    ensures key == "elvanse" ==> r == Some(Elvanse)
    ensures key == "amfexa" ==> r == Some(Amfexa)
  {
    if key == "elvanse" then Some(Elvanse)
    else if key == "amfexa" then Some(Amfexa)
    else None
  }

  // ---------------------------------------------------------------- start time

  /** Two decimal digits, as the two-digit hour and minute fields show them. */
  function Pad2(n: nat): (s: string)
    requires n < 100
    ensures |s| == 2 && AllDigits(s)
    ensures DigitValue(s[0]) * 10 + DigitValue(s[1]) == n
  {
    [DigitChar(n / 10), DigitChar(n % 10)]
  }

  /** A minute of the day as 24-hour "HH:MM" with two-digit fields. */
  function FormatClock(t: nat): (s: string)
    requires t < MinutesPerDay
    ensures |s| == 5 && s[2] == ':'
  {
    Pad2(t / 60) + ":" + Pad2(t % 60)
  }

  /** The hour alternatives `[0-1][0-9]` and `2[0-3]` of the start-time pattern. */
  predicate TwoDigitHour(a: char, b: char) {
    ('0' <= a <= '1' && IsDigit(b)) || (a == '2' && '0' <= b <= '3')
  }

  /** The minute part `[0-5][0-9]` of the start-time pattern. */
  predicate MinuteDigits(a: char, b: char) {
    '0' <= a <= '5' && IsDigit(b)
  }

  /**
   * The start-time check `^([0-1]?[0-9]|2[0-3]):[0-5][0-9]$`: a one-digit
   * hour or a two-digit hour up to 23, a colon and a two-digit minute up to
   * 59. An accepted text gives its minute of the day.
   */
  function ParseStartTime(s: string): (r: Option<nat>)
    ensures r.Some? ==> r.value < MinutesPerDay
  {
    if |s| == 4 && IsDigit(s[0]) && s[1] == ':' && MinuteDigits(s[2], s[3]) then
      Some(DigitValue(s[0]) * 60 + DigitValue(s[2]) * 10 + DigitValue(s[3]))
    else if |s| == 5 && TwoDigitHour(s[0], s[1]) && s[2] == ':' && MinuteDigits(s[3], s[4]) then
      Some((DigitValue(s[0]) * 10 + DigitValue(s[1])) * 60 + DigitValue(s[3]) * 10 + DigitValue(s[4]))
    else
      None
  }

  lemma DivModOfClock(h: nat, m: nat)
    requires m < 60
    ensures (h * 60 + m) / 60 == h && (h * 60 + m) % 60 == m
  {
  }

  lemma DigitCharOfValue(c: char)
    requires IsDigit(c)
    ensures DigitChar(DigitValue(c)) == c
  {
  }

  /**
   * Every accepted start time is written `H:MM` with a one-digit hour or
   * `HH:MM` with a two-digit hour, and holds the minute of the day it is
   * parsed to.
   */
  lemma ParseStartTimeSound(s: string)
    requires ParseStartTime(s).Some?
    ensures var t := ParseStartTime(s).value;
      || (|s| == 4 && t / 60 < 10 && s == [DigitChar(t / 60)] + ":" + Pad2(t % 60))
      || (|s| == 5 && s == FormatClock(t))
  {
    if |s| == 4 {
      ShortStartTimeSound(s);
    } else {
      LongStartTimeSound(s);
    }
  }

  /** An accepted `H:MM` text is the one-digit hour and the two-digit minute it is read as. */
  lemma ShortStartTimeSound(s: string)
    requires |s| == 4 && IsDigit(s[0]) && s[1] == ':' && MinuteDigits(s[2], s[3])
    ensures var t := DigitValue(s[0]) * 60 + DigitValue(s[2]) * 10 + DigitValue(s[3]);
      ParseStartTime(s) == Some(t) && t / 60 < 10 && s == [DigitChar(t / 60)] + ":" + Pad2(t % 60)
  {
    var h, m := DigitValue(s[0]), DigitValue(s[2]) * 10 + DigitValue(s[3]);
    DivModOfClock(h, m);
    DigitCharOfValue(s[0]);
    DigitCharOfValue(s[2]);
    DigitCharOfValue(s[3]);
    assert Pad2(m) == [s[2], s[3]];
  }

  /** An accepted `HH:MM` text is what `FormatClock` writes for the minute it is read as. */
  lemma LongStartTimeSound(s: string)
    requires |s| == 5 && TwoDigitHour(s[0], s[1]) && s[2] == ':' && MinuteDigits(s[3], s[4])
    ensures var t := (DigitValue(s[0]) * 10 + DigitValue(s[1])) * 60 + DigitValue(s[3]) * 10 + DigitValue(s[4]);
      ParseStartTime(s) == Some(t) && s == FormatClock(t)
  {
    var h, m := DigitValue(s[0]) * 10 + DigitValue(s[1]), DigitValue(s[3]) * 10 + DigitValue(s[4]);
    DivModOfClock(h, m);
    DigitCharOfValue(s[0]);
    DigitCharOfValue(s[1]);
    DigitCharOfValue(s[3]);
    DigitCharOfValue(s[4]);
    assert Pad2(h) == [s[0], s[1]];
    assert Pad2(m) == [s[3], s[4]];
  }

  /**
   * Every hour 0 to 23 and minute 0 to 59 is accepted written `HH:MM`, and
   * also written `H:MM` when the hour has one digit.
   */
  lemma ParseStartTimeComplete(h: nat, m: nat)
    requires h < 24 && m < 60
    ensures ParseStartTime(Pad2(h) + ":" + Pad2(m)) == Some(h * 60 + m)
    ensures h < 10 ==> ParseStartTime([DigitChar(h)] + ":" + Pad2(m)) == Some(h * 60 + m)
  {
    var s := Pad2(h) + ":" + Pad2(m);
    assert s[0] == DigitChar(h / 10) && s[1] == DigitChar(h % 10);
    assert s[3] == DigitChar(m / 10) && s[4] == DigitChar(m % 10);
    assert TwoDigitHour(s[0], s[1]);
  }

  /** A time written by `FormatClock` passes the start-time check unchanged. */
  lemma FormatClockRoundTrip(t: nat)
    requires t < MinutesPerDay
    ensures ParseStartTime(FormatClock(t)) == Some(t)
  {
    ParseStartTimeComplete(t / 60, t % 60);
  }

  // ---------------------------------------------------------------- dose times

  /** The times one medication is shown with, as minutes of the day. */
  datatype MedTiming = MedTiming(name: string, start: int, onset: int, peak: int, end: int)

  /**
   * `calculateForMed`: the onset and peak come the table's offsets plus
   * `extraOnset` minutes after the start, the end the duration after the
   * onset; each is shown as a time of day, wrapping past midnight.
   */
  function DoseTimes(med: Medication, start: nat, extraOnset: int): (r: MedTiming)
    requires start < MinutesPerDay
    ensures r.name == med.name && r.start == start
    ensures 0 <= r.onset < MinutesPerDay && 0 <= r.peak < MinutesPerDay && 0 <= r.end < MinutesPerDay
  {
    var onset := start + med.onset + extraOnset;
    var peak := start + med.peakTime + extraOnset;
    var end := onset + med.durationMinutes;
    MedTiming(med.name, start, onset % MinutesPerDay, peak % MinutesPerDay, end % MinutesPerDay)
  }
  /**
   * The dose times on the 24-hour clock: onset and peak are the medication's
   * offsets plus the extra onset after the start, and the end is the duration
   * after the onset, each up to whole days.
   */
  lemma {:induction false} DoseTimesOnClock(med: Medication, start: nat, extraOnset: int)
    requires start < MinutesPerDay
    ensures var r := DoseTimes(med, start, extraOnset);
      && (r.onset - r.start - (med.onset + extraOnset)) % MinutesPerDay == 0
      && (r.peak - r.start - (med.peakTime + extraOnset)) % MinutesPerDay == 0
      && (r.end - r.onset - med.durationMinutes) % MinutesPerDay == 0
  {
    var onset := start + med.onset + extraOnset;
    var peak := start + med.peakTime + extraOnset;
    ShiftOnClock(onset, med.durationMinutes);
  }


  /**
   * How far the second medication's onset and peak are pushed back in
   * combined mode, as line 122 computes it: its own onset plus the break.
   * `DoseTimes` adds its own onset again, so the onset is counted twice.
   */
  function SecondDoseExtraOnsetAsWritten(breakTime: int): int {
    Amfexa.onset + breakTime
  }

  /** The same push-back as intended: the break alone. */
  function SecondDoseExtraOnset(breakTime: int): int {
    breakTime
  }

  /**
   * As written, combined mode shows the second medication's onset 30 minutes
   * plus the break after its stand-alone onset; from 08:00 with no break the
   * stand-alone onset is 08:30 but combined mode shows 09:00.
   */
  lemma SecondDoseAsWrittenCountsOnsetTwice(start: nat, breakTime: int)
    requires start < MinutesPerDay
    ensures DoseTimes(Amfexa, start, SecondDoseExtraOnsetAsWritten(breakTime)).onset
         == (DoseTimes(Amfexa, start, 0).onset + Amfexa.onset + breakTime) % MinutesPerDay
    ensures DoseTimes(Amfexa, 480, SecondDoseExtraOnsetAsWritten(0)).onset == 540
    ensures DoseTimes(Amfexa, 480, 0).onset == 510
  {
  }

  /**
   * With the push-back corrected, the combined-mode onset, peak and end of
   * the second medication are its stand-alone times moved by exactly the
   * break, and its shown start stays the entered start.
   */
  lemma SecondDoseShiftedByBreak(start: nat, breakTime: int)
    requires start < MinutesPerDay
    ensures var shifted := DoseTimes(Amfexa, start, SecondDoseExtraOnset(breakTime));
            var alone := DoseTimes(Amfexa, start, 0);
      && shifted.start == alone.start == start
      && shifted.onset == (alone.onset + breakTime) % MinutesPerDay
      && shifted.peak == (alone.peak + breakTime) % MinutesPerDay
      && shifted.end == (alone.end + breakTime) % MinutesPerDay
  {
    ShiftOnClock(start + Amfexa.onset, breakTime);
    ShiftOnClock(start + Amfexa.peakTime, breakTime);
    ShiftOnClock(start + Amfexa.onset + Amfexa.durationMinutes, breakTime);
  }

  /** Moving a time by `d` minutes and then reading it on the clock is moving its clock reading by `d`. */
  lemma ShiftOnClock(t: int, d: int)
    ensures (t + d) % MinutesPerDay == (t % MinutesPerDay + d) % MinutesPerDay
  {
    var q := t / MinutesPerDay;
    assert t == MinutesPerDay * q + t % MinutesPerDay;
    ModOfMultipleShift(t % MinutesPerDay + d, q);
  }

  lemma ModOfMultipleShift(y: int, q: int)
    ensures (MinutesPerDay * q + y) % MinutesPerDay == y % MinutesPerDay
  {
    var r := y % MinutesPerDay;
    assert y == MinutesPerDay * (y / MinutesPerDay) + r;
    assert MinutesPerDay * q + y == MinutesPerDay * (q + y / MinutesPerDay) + r;
  }

  // ---------------------------------------------------------------- the calculation

  /** One piece of the rendered result: a medication's times or the break. */
  datatype OutputItem = Timing(timing: MedTiming) | BreakNote(minutes: int)

  /**
   * A successful calculation: the entered start (minute of the day), the
   * break as read from the form, what is rendered, and the total duration in
   * minutes that drives the progress bar.
   */
  datatype Calculation = Calculation(startMinutes: nat, breakTime: int, items: seq<OutputItem>, totalMinutes: int)

  /**
   * The outcome of `calculateTimes` for the form's medication, start-time and
   * break-time values: a rejected start time, a break over the limit in
   * combined mode, or the rendered items and total duration.
   */
  function Calculate(medication: string, startText: string, breakText: string): (r: Result<Calculation>)
    ensures r.Ok? ==> r.value.startMinutes < MinutesPerDay && r.value.totalMinutes >= 0
  {
    var breakTime := NumberOrZero(breakText);
    match ParseStartTime(startText)
    case None => Err(InvalidStartMessage)
    case Some(start) =>
      if medication == Both && breakTime > BreakLimit then Err(BreakTooLongMessage)
      else Ok(CalculationFor(medication, start, breakTime))
  }

  /** The output and total duration of an accepted calculation. */
  function CalculationFor(medication: string, start: nat, breakTime: int): (c: Calculation)
    requires start < MinutesPerDay
    requires medication == Both ==> breakTime <= BreakLimit
    ensures c.startMinutes == start && c.breakTime == breakTime && c.totalMinutes >= 0
  {
    if medication == Both then
      var first := [Timing(DoseTimes(Elvanse, start, 0))];
      var pause := if breakTime > 0 then [BreakNote(breakTime)] else [];
      var second := [Timing(DoseTimes(Amfexa, start, SecondDoseExtraOnset(breakTime)))];
      var total := Elvanse.durationMinutes + (if breakTime > 0 then breakTime else 0) + Amfexa.durationMinutes;
      Calculation(start, breakTime, first + pause + second, total)
    else
      match LookupMedication(medication)
      case Some(med) => Calculation(start, breakTime, [Timing(DoseTimes(med, start, 0))], med.durationMinutes)
      case None => Calculation(start, breakTime, [], 0)
  }

  /**
   * A calculation fails exactly when the start time is rejected, or in
   * combined mode when the break exceeds 240 minutes; the start-time message
   * takes precedence.
   */
  lemma CalculateRejects(medication: string, startText: string, breakText: string)
    ensures Calculate(medication, startText, breakText).Err?
        <==> ParseStartTime(startText).None?
             || (medication == Both && NumberOrZero(breakText) > BreakLimit)
    ensures ParseStartTime(startText).None? ==>
              Calculate(medication, startText, breakText) == Err(InvalidStartMessage)
    ensures ParseStartTime(startText).Some? && medication == Both && NumberOrZero(breakText) > BreakLimit ==>
              Calculate(medication, startText, breakText) == Err(BreakTooLongMessage)
  {
  }

  /**
   * For a single medication from the table, the result shows that medication
   * only: onset and peak its table offsets after the start, the end its
   * duration after the onset, all on the 24-hour clock, and the progress
   * duration is its duration. The break field plays no part.
   */
  lemma SingleMedicationTimes(medication: string, t: nat, b: int, otherBreak: int)
    requires LookupMedication(medication).Some? && t < MinutesPerDay
    ensures var med := LookupMedication(medication).value;
            var c := CalculationFor(medication, t, b);
      && c.items == [Timing(MedTiming(med.name, t, (t + med.onset) % MinutesPerDay,
                                       (t + med.peakTime) % MinutesPerDay,
                                       (t + med.onset + med.durationMinutes) % MinutesPerDay))]
      && c.totalMinutes == med.durationMinutes
      && CalculationFor(medication, t, otherBreak).items == c.items
  {
    KnownMedicationIsNotBoth(medication);
  }

  /** The two table keys differ from the combined choice. */
  lemma KnownMedicationIsNotBoth(medication: string)
    requires LookupMedication(medication).Some?
    ensures medication != Both
  {
    assert Both[0] == 'b';
    if medication == "elvanse" {
      assert medication[0] == 'e';
    } else {
      assert medication[0] == 'a';
    }
  }

  /** For a single medication any start time is accepted, and whatever the break field holds the output is the same. */
  lemma SingleMedicationIgnoresBreak(medication: string, startText: string, breakText: string, otherBreak: string)
    requires LookupMedication(medication).Some? && ParseStartTime(startText).Some?
    ensures Calculate(medication, startText, breakText).Ok? && Calculate(medication, startText, otherBreak).Ok?
    ensures Calculate(medication, startText, otherBreak).value.items == Calculate(medication, startText, breakText).value.items
  {
    KnownMedicationIsNotBoth(medication);
    CalculateAccepted(medication, startText, breakText);
    CalculateAccepted(medication, startText, otherBreak);
    SingleMedicationTimes(medication, ParseStartTime(startText).value, NumberOrZero(breakText), NumberOrZero(otherBreak));
  }

  /** An accepted calculation is the one for the entered start and the break as read. */
  lemma CalculateAccepted(medication: string, startText: string, breakText: string)
    requires ParseStartTime(startText).Some?
    requires medication == Both ==> NumberOrZero(breakText) <= BreakLimit
    ensures Calculate(medication, startText, breakText)
         == Ok(CalculationFor(medication, ParseStartTime(startText).value, NumberOrZero(breakText)))
  {
  }

  /**
   * The combined calculation for a start and an accepted break: Elvanse as on
   * its own, a break line exactly when the break is positive, Amfexa moved by
   * the break, and 6 h + 3.25 h plus the positive part of the break.
   */
  lemma CombinedCalculation(t: nat, b: int)
    requires t < MinutesPerDay && b <= BreakLimit
    ensures var c := CalculationFor(Both, t, b);
            var alone := DoseTimes(Amfexa, t, 0);
            var second := DoseTimes(Amfexa, t, SecondDoseExtraOnset(b));
      && c.items == [CalculationFor("elvanse", t, b).items[0]] + (if b > 0 then [BreakNote(b)] else []) + [Timing(second)]
      && second.start == t
      && second.onset == (alone.onset + b) % MinutesPerDay
      && second.peak == (alone.peak + b) % MinutesPerDay
      && second.end == (alone.end + b) % MinutesPerDay
      && c.totalMinutes == 360 + 195 + (if b > 0 then b else 0)
  {
    assert CalculationFor("elvanse", t, b).items == [Timing(DoseTimes(Elvanse, t, 0))];
    SecondDoseShiftedByBreak(t, b);
  }

  // ---------------------------------------------------------------- progress

  /** The instants, in epoch milliseconds, the progress bar runs between. */
  datatype ProgressWindow = ProgressWindow(start: int, end: int)

  /** A JavaScript number as the progress arithmetic can produce it. */
  datatype Percentage = Pct(value: real) | NaN

  /** The window of a calculation: from the entered start today, for its total duration. */
  function WindowFor(dayStartMs: int, c: Calculation): (w: ProgressWindow)
    ensures w.start == dayStartMs + c.startMinutes * MillisPerMinute
    ensures w.end - w.start == c.totalMinutes * MillisPerMinute
  {
    var start := dayStartMs + c.startMinutes * MillisPerMinute;
    ProgressWindow(start, start + c.totalMinutes * MillisPerMinute)
  }

  /**
   * `updateProgress`: `min(max(0, now - start) / (end - start) * 100, 100)`
   * with JavaScript's division, so an empty window gives NaN while the start
   * has not passed and 100 after.
   */
  function ProgressPercentage(w: ProgressWindow, now: int): (p: Percentage)
    ensures p.NaN? <==> w.start == w.end && now <= w.start
    ensures p.Pct? ==> p.value <= 100.0
    ensures w.start < w.end && now <= w.start ==> p == Pct(0.0)
    ensures w.start < w.end <= now ==> p == Pct(100.0)
    ensures w.start < now < w.end ==> p == Pct((now - w.start) as real / (w.end - w.start) as real * 100.0)
  {
    var elapsed := if now - w.start > 0 then now - w.start else 0;
    var total := w.end - w.start;
    if total == 0 then
      if elapsed == 0 then NaN else Pct(100.0)
    else
      var raw := elapsed as real / total as real * 100.0;
      assert 0 < total <= elapsed ==> elapsed as real / total as real >= 1.0;
      assert 0 <= elapsed < total ==> elapsed as real / total as real < 1.0;
      Pct(if raw < 100.0 then raw else 100.0)
  }

  /** The expired state: the bar turns to its expired colour once `now >= end`. */
  predicate Ended(w: ProgressWindow, now: int) {
    now >= w.end
  }

  lemma DivideMonotone(a: real, b: real, t: real)
    requires 0.0 <= a <= b && t > 0.0
    ensures 0.0 <= a / t <= b / t
  {
  }

  /** On a non-empty window the percentage is a number between 0 and 100. */
  lemma ProgressInRange(w: ProgressWindow, now: int)
    requires w.start < w.end
    ensures ProgressPercentage(w, now).Pct?
    ensures 0.0 <= ProgressPercentage(w, now).value <= 100.0
  {
    var elapsed := if now - w.start > 0 then now - w.start else 0;
    DivideMonotone(0.0, elapsed as real, (w.end - w.start) as real);
  }

  /** On a non-empty window the percentage never decreases as time passes. */
  lemma ProgressMonotone(w: ProgressWindow, earlier: int, later: int)
    requires w.start < w.end && earlier <= later
    ensures ProgressPercentage(w, earlier).value <= ProgressPercentage(w, later).value
  {
    var e1 := if earlier - w.start > 0 then earlier - w.start else 0;
    var e2 := if later - w.start > 0 then later - w.start else 0;
    DivideMonotone(e1 as real, e2 as real, (w.end - w.start) as real);
  }

  /** On a non-empty window the bar is full exactly when the window has ended. */
  lemma ProgressFullIffEnded(w: ProgressWindow, now: int)
    requires w.start < w.end
    ensures ProgressPercentage(w, now) == Pct(100.0) <==> Ended(w, now)
  {
    var elapsed := if now - w.start > 0 then now - w.start else 0;
    var total := (w.end - w.start) as real;
    if Ended(w, now) {
      DivideMonotone(total, elapsed as real, total);
    } else {
      assert elapsed as real < total;
      assert elapsed as real / total < 1.0;
    }
  }

  /** An empty window (unknown medication) shows NaN until its start has passed, then 100. */
  lemma ProgressOfEmptyWindow(w: ProgressWindow, now: int)
    requires w.start == w.end
    ensures ProgressPercentage(w, now) == if now <= w.start then NaN else Pct(100.0)
    ensures Ended(w, now) <==> now >= w.start
  {
  }

  /** The text of the progress label. */
  datatype Label = Rounded(n: int) | NaNLabel

  /** `Math.round`: to the nearest integer, halves upwards. */
  function LabelOf(p: Percentage): (l: Label)
    ensures p.Pct? <==> l.Rounded?
    ensures p.Pct? ==> l.n as real - 0.5 <= p.value < l.n as real + 0.5
  {
    match p
    case NaN => NaNLabel
    case Pct(v) => Rounded((v + 0.5).Floor)
  }

  /** The label of an in-range percentage is an integer between 0 and 100. */
  lemma LabelInRange(p: Percentage)
    requires p.Pct? && 0.0 <= p.value <= 100.0
    ensures 0 <= LabelOf(p).n <= 100
  {
  }

  /**
   * Every calculation for a known medication, and every combined one, has a
   * non-empty progress window, so its percentage stays in range.
   */
  lemma KnownMedicationHasWindow(medication: string, startText: string, breakText: string, dayStartMs: int)
    requires Calculate(medication, startText, breakText).Ok?
    requires medication == Both || LookupMedication(medication).Some?
    ensures var w := WindowFor(dayStartMs, Calculate(medication, startText, breakText).value);
      w.start < w.end
  {
  }
}
