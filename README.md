# Medication timer and retro terminal, in Dafny

This project models two browser scripts.

**The medication timing calculator** (`meds/js/medication-timer.js`) takes a
medication (Elvanse, Amfexa, or "both" with a break between), a start time
and a break. It shows each medication's start, onset, peak and end times, and
runs a progress bar over the total duration. It saves its inputs in local
storage and restores them on the next visit. It can also share the inputs
through a six-character sync code that expires after 24 hours.

**The retro terminal** (`retro-terminal/js/retro-terminal.js`) is a tiny
command shell. It types a boot sequence, then reads lines, tokenises them and
runs `help`, `cls`, `about`, `theme <color>` and `neofetch`. It keeps a
phosphor theme from a fixed set of three, and the theme buttons follow it.

Layout:

- `wrappers.dfy`: `Option` and `Result`.
- `strings.dfy`: the JavaScript string operations the scripts rely on.
  - `trim`, and `split(/\s+/)` on the full white-space set.
  - `join`, ASCII `toLowerCase`/`toUpperCase`, `padEnd`, `repeat`.
  - Decimal integers and `Number(x) || 0`.
- `medication_math.dfy`: the pure part of the calculator.
  - The start-time pattern and the medication table.
  - The dose times and the calculation with its error cases.
  - The progress percentage and its label.
- `sync_codes.dfy`: local storage as a map, with the sync records, their lookup and the sweep of stale codes.
- `medication_timer.dfy`: the calculator page.
  - Each handler is a step function on a `PageState`.
  - The lemmas state what the handlers promise.
  - `MedicationPage` is a class holding that state in fields. Each method is proved to perform its step.
- `terminal_commands.dfy`: the terminal's command language, its fixed texts, the `neofetch` layout and its step functions on a `TerminalState`, with their lemmas.
- `retro_terminal.dfy`: the class `Terminal`.
  - Its output log, theme and input field are fields, and its theme buttons are an array updated in place.
  - Its methods (the typing and boot loops, `setTheme`'s loop over the buttons, the printers and the dispatcher) are proved to perform the step functions.
  - `TypeInput` stands for the user typing into the input field.

Times of day are whole minutes after midnight. Instants are integer epoch
milliseconds, passed in as `now`; `dayStartMs` is the instant today began.
The random sync code is a parameter too.

## Model

| member | source | states |
|---|---|---|
| Strings.Trim | retro-terminal/js/retro-terminal.js:195 | `trim()`: the result is a contiguous slice of the input with only white space cut from either end, has no white space at either end, is empty exactly when the input is all white space, and is the input itself when it has none |
| Strings.Words | retro-terminal/js/retro-terminal.js:164 | `trim().split(/\s+/)`: every token is non-empty and free of white space |
| Strings.WordsEmptyIffBlank | retro-terminal/js/retro-terminal.js:164 | there are no tokens exactly when the input is blank |
| Strings.WordsJoinRoundTrip | retro-terminal/js/retro-terminal.js:164-166 | splitting the single-space join of non-empty, space-free tokens gives back exactly those tokens |
| Strings.JoinOfSeveralHasSpace | retro-terminal/js/retro-terminal.js:166 | joining two or more tokens with a space yields text containing white space |
| Strings.Join | retro-terminal/js/retro-terminal.js:166 | `join`: no words give the empty text; the text starts with the first word, followed by the separator when there are more |
| Strings.WordsOfBlankPrefix | retro-terminal/js/retro-terminal.js:164 | leading white space does not change the tokens |
| Strings.WordsOfWordThen | retro-terminal/js/retro-terminal.js:164 | a space-free word followed by the end or by white space is the first token, and the rest are the tokens of what follows |
| Strings.WordsOfSpacedLine | retro-terminal/js/retro-terminal.js:164 | words with any blank gaps around them and non-empty blank gaps between them split back into exactly those words |
| Strings.Lower | retro-terminal/js/retro-terminal.js:165 | `toLowerCase` on ASCII: same length, every upper-case letter becomes the letter 32 code points later, every other character unchanged, so no upper-case letter is left |
| Strings.LowerOfLowercase | retro-terminal/js/retro-terminal.js:152 | lower-casing text without upper-case letters leaves it unchanged |
| Strings.LowercaseWord | retro-terminal/js/retro-terminal.js:152 | a word of lower-case letters has no white space and lower-cases to itself |
| Strings.Upper | meds/js/medication-timer.js:361 | `toUpperCase` on ASCII: same length, every lower-case letter becomes the letter 32 code points earlier, every other character unchanged, so no lower-case letter is left |
| Strings.UpperIdempotent | meds/js/medication-timer.js:361 | upper-casing an upper-cased code changes nothing more |
| Strings.Spaces | retro-terminal/js/retro-terminal.js:142 | `' '.repeat(n)` is n spaces |
| Strings.PadEnd | retro-terminal/js/retro-terminal.js:138 | `padEnd(n)` keeps the text as a prefix, never truncates it, and fills up to n with spaces |
| Strings.NatToString | meds/js/medication-timer.js:254 | the decimal text of a number is digits without a leading zero and parses back to the number |
| Strings.IntToString | meds/js/medication-timer.js:254 | the stored text of the break is non-empty and free of white space |
| Strings.NumberOrZero | meds/js/medication-timer.js:96 | `Number(x) \|\| 0`: blank text and text without any digit give 0, and digits with optional surrounding white space give their value |
| Strings.NumberOrZeroOfIntToString | meds/js/medication-timer.js:96 | `Number(text) \|\| 0` of the text stored for an integer break gives that integer back |
| MedicationMath.LookupMedication | meds/js/medication-timer.js:2-15 | only "elvanse" and "amfexa" are in the table, and each gives its own entry (Elvanse 60/360/180, Amfexa 30/195/90 minutes of onset, duration and peak); each has a positive onset and duration and peaks after its onset |
| MedicationMath.Pad2 | meds/js/medication-timer.js:172-178 | a two-digit field is two digits whose value is the number |
| MedicationMath.FormatClock | meds/js/medication-timer.js:52-59 | the 24-hour "HH:MM" text has five characters with the colon in the middle |
| MedicationMath.ParseStartTime | meds/js/medication-timer.js:98 | an accepted start time is a minute of the day below 1440 |
| MedicationMath.ParseStartTimeSound | meds/js/medication-timer.js:98-101 | every accepted text is `H:MM` with a one-digit hour or `HH:MM` with hour 00-23, holding the minute it is read as |
| MedicationMath.ParseStartTimeComplete | meds/js/medication-timer.js:98-101 | every hour 0-23 and minute 00-59 is accepted as `HH:MM`, and as `H:MM` when the hour has one digit |
| MedicationMath.FormatClockRoundTrip | meds/js/medication-timer.js:52-59 | the time the current-time button writes is accepted and read back unchanged |
| MedicationMath.DoseTimes | meds/js/medication-timer.js:145-159 | the timing keeps the medication's name and the start, and onset, peak and end are each a minute of the day |
| MedicationMath.DoseTimesOnClock | meds/js/medication-timer.js:145-159 | onset and peak are the table offsets plus the extra onset after the start, the end the duration after the onset, each on the 24-hour clock |
| MedicationMath.SecondDoseAsWrittenCountsOnsetTwice | meds/js/medication-timer.js:119-123 | as written, the second medication's combined-mode onset is its stand-alone onset plus 30 minutes plus the break; at 08:00 with no break this is 09:00 instead of 08:30 |
| MedicationMath.SecondDoseShiftedByBreak | meds/js/medication-timer.js:119-123 | corrected, the second medication's onset, peak and end are its stand-alone times shifted by exactly the break, and its start stays the entered start |
| MedicationMath.Calculate | meds/js/medication-timer.js:89-128 | an accepted calculation has a start below 1440 and a non-negative total duration |
| MedicationMath.CalculationFor | meds/js/medication-timer.js:103-128 | the calculation keeps the start and break it was given, with a non-negative duration |
| MedicationMath.CalculateRejects | meds/js/medication-timer.js:98-110 | a calculation fails exactly when the start time is rejected, or the break exceeds 240 minutes in combined mode; the start-time message takes precedence |
| MedicationMath.SingleMedicationTimes | meds/js/medication-timer.js:125-127 | a single medication shows only its own times; the duration is its own, and the break plays no part |
| MedicationMath.SingleMedicationIgnoresBreak | meds/js/medication-timer.js:96-127 | for a single medication any accepted start gives a result, and the output is the same whatever the break field holds |
| MedicationMath.CombinedCalculation | meds/js/medication-timer.js:107-124 | "both" shows Elvanse as alone, a break line exactly when the break is positive, and Amfexa shifted by the break; the duration is 360 + 195 minutes plus any positive break |
| MedicationMath.WindowFor | meds/js/medication-timer.js:204-207 | the progress window starts at the entered start time on the current day and lasts the total duration |
| MedicationMath.ProgressPercentage | meds/js/medication-timer.js:214-218 | inside a non-empty window the percentage is the elapsed share of the window times 100; it is NaN exactly for an empty window before its start has passed, never above 100, 0 before a non-empty window starts and 100 once it has ended |
| MedicationMath.ProgressInRange | meds/js/medication-timer.js:214-218 | on a non-empty window the percentage is a number between 0 and 100 |
| MedicationMath.ProgressMonotone | meds/js/medication-timer.js:216-218 | the percentage never decreases as time passes |
| MedicationMath.ProgressFullIffEnded | meds/js/medication-timer.js:218-224 | the bar is at 100 % exactly when `now >= end`, the expired state |
| MedicationMath.ProgressOfEmptyWindow | meds/js/medication-timer.js:216-218 | an empty window gives NaN until its start has passed and 100 after |
| MedicationMath.LabelOf | meds/js/medication-timer.js:221 | `Math.round` gives the integer within half a unit of the percentage, and "NaN" for NaN |
| MedicationMath.LabelInRange | meds/js/medication-timer.js:221 | the label of an in-range percentage is 0 to 100 |
| MedicationMath.KnownMedicationHasWindow | meds/js/medication-timer.js:111-127 | a calculation for a medication of the table, or both, has a non-empty window |
| SyncCodes.SyncKey | meds/js/medication-timer.js:361 | the storage key is `sync_` followed by the upper-cased code |
| SyncCodes.ParseSync | meds/js/medication-timer.js:369-372 | a stored value parses exactly when it is the JSON text of a sync record, and gives that record |
| SyncCodes.LookupSync | meds/js/medication-timer.js:360-376 | a missing or empty entry is unknown, one that is not a sync record is unreadable, one past its expiry is expired, and otherwise the lookup gives the stored, unexpired record |
| SyncCodes.SyncKeyCaseInsensitive | meds/js/medication-timer.js:361 | two codes reach the same record exactly when they agree up to letter case |
| SyncCodes.NewSyncRecord | meds/js/medication-timer.js:326-333 | a record expires 86 400 000 ms after it is written |
| SyncCodes.Sweep | meds/js/medication-timer.js:394-410 | the sweep only deletes, keeps values unchanged, and leaves no stale sync entry |
| SyncCodes.SweepRemovesExactlyStale | meds/js/medication-timer.js:397-409 | a key is deleted exactly when it is a `sync_` key whose value is corrupt or past its expiry; other keys keep their values |
| SyncCodes.SweepLaterSubsumesEarlier | meds/js/medication-timer.js:394-410 | sweeping, then sweeping later, is sweeping once later |
| SyncCodes.SyncRoundTrip | meds/js/medication-timer.js:360-376 | a stored code entered in any case gives back its record up to and including the expiry instant, and is expired after |
| SyncCodes.FreshRecordSurvivesSweep | meds/js/medication-timer.js:340-353 | the record just written survives the sweep that follows it |
| SyncCodes.SweptStoreHasNoStaleCodes | meds/js/medication-timer.js:353 | after a sweep no code finds an expired or unreadable record |
| MedicationTimer.RejectedCalculationChangesNothingElse | meds/js/medication-timer.js:89-110 | a rejected calculation shows its message on a reset bar; nothing is saved and no updater starts |
| MedicationTimer.AcceptedCalculationShowsAndSaves | meds/js/medication-timer.js:130-138 | an accepted calculation shows its output and runs the bar over its window, expired exactly when ended; it saves start time, medication, the break as decimal text, the output and the current instant as text under the five fixed keys and touches no other key |
| MedicationTimer.ShownCalculationIsSaved | meds/js/medication-timer.js:130-138 | the end of an accepted calculation shows the output, runs the bar over the window and saves start time, medication, break, output and the current instant under the five fixed keys, leaving the form and other keys alone |
| MedicationTimer.CalculatedBarInRange | meds/js/medication-timer.js:199-241 | after calculating for a known medication the bar and label are within 0-100 and full exactly when expired |
| MedicationTimer.ReloadRestoresCalculation | meds/js/medication-timer.js:278-298 | a page load over the saved storage shows the saved output when it is non-empty and nothing when it is empty, and restores medication and start; recalculating gives the same output and duration |
| MedicationTimer.LoadSavedCalculation | meds/js/medication-timer.js:278-298 | loading restores each saved non-empty value into the form and a non-empty saved output into the result; an empty output is stored as the empty text and not shown |
| MedicationTimer.CalculationForIgnoresBreak | meds/js/medication-timer.js:125-127 | outside combined mode the break changes neither output nor duration |
| MedicationTimer.CalculatedKeepsForm | meds/js/medication-timer.js:89-142 | calculating never changes the form |
| MedicationTimer.SyncRoundTripRestoresInputs | meds/js/medication-timer.js:378-387 | applying a generated code, in any case and before it expires, restores medication and start (and the break in combined mode) and ends with the success message |
| MedicationTimer.RecordAppliedFillsForm | meds/js/medication-timer.js:378-387 | applying a found record fills medication and start from it, the break only for "both" (otherwise "0"), and ends with the success message |
| MedicationTimer.ExpiredSyncCodeIsDeleted | meds/js/medication-timer.js:372-376 | an expired code is removed and reported, and the form and everything else stay as they were |
| MedicationTimer.FailedSyncLookupChangesOnlyResult | meds/js/medication-timer.js:360-392 | an unknown code shows only the invalid-code message, an unreadable one only the failed-sync message; nothing else changes |
| MedicationTimer.MedicationChangeResetsBreak | meds/js/medication-timer.js:71-79 | the break container is shown exactly for "both"; any other choice unticks the break and zeroes it |
| MedicationTimer.DarkModePersists | meds/js/medication-timer.js:263-275 | toggling twice restores the mode, and a reload shows the mode the last toggle stored |
| MedicationTimer.MedicationPage.Initialize | meds/js/medication-timer.js:27-30 | page start-up loads the dark mode and then the previous timings |
| MedicationTimer.MedicationPage.InsertCurrentTime | meds/js/medication-timer.js:52-59 | the start field gets the current time as "HH:MM" |
| MedicationTimer.MedicationPage.ToggleBreakSettings | meds/js/medication-timer.js:61-69 | performs `BreakSettingsToggled` |
| MedicationTimer.MedicationPage.HandleMedicationChange | meds/js/medication-timer.js:71-79 | performs `MedicationChanged` |
| MedicationTimer.MedicationPage.ShowError | meds/js/medication-timer.js:180-183 | the result becomes the one error |
| MedicationTimer.MedicationPage.ShowSuccess | meds/js/medication-timer.js:412-415 | the success message is appended to the result |
| MedicationTimer.MedicationPage.ResetProgressBar | meds/js/medication-timer.js:186-197 | the bar shows 0 % in the normal colour |
| MedicationTimer.MedicationPage.UpdateProgress | meds/js/medication-timer.js:214-227 | performs `ProgressUpdated`: width and label from the percentage, expired colour and stop once ended |
| MedicationTimer.MedicationPage.IntervalTick | meds/js/medication-timer.js:229 | a tick updates the bar only while the interval runs |
| MedicationTimer.MedicationPage.ProgressTimeout | meds/js/medication-timer.js:230-233 | the timeout updates once and stops the interval |
| MedicationTimer.MedicationPage.UpdateProgressBar | meds/js/medication-timer.js:199-241 | replaces the updater by one for the new window and runs it once |
| MedicationTimer.MedicationPage.SaveToLocalStorage | meds/js/medication-timer.js:249-260 | writes the five keys and nothing else |
| MedicationTimer.MedicationPage.CalculateTimes | meds/js/medication-timer.js:89-142 | performs `Calculated`, whose properties are the lemmas above |
| MedicationTimer.MedicationPage.ShowCalculation | meds/js/medication-timer.js:130-138 | performs `CalculationShown`: the updater, then the output, then the save |
| MedicationTimer.MedicationPage.AccumulateOutput | meds/js/medication-timer.js:103-128 | the output and duration built item by item are those of `CalculationFor` |
| MedicationTimer.MedicationPage.CleanupOldSyncCodes | meds/js/medication-timer.js:394-410 | the loop over the keys leaves exactly `Sweep` of the old storage |
| MedicationTimer.MedicationPage.GenerateSyncCode | meds/js/medication-timer.js:325-358 | stores the record under the upper-cased code, shows the code and sweeps |
| MedicationTimer.MedicationPage.ApplySyncCode | meds/js/medication-timer.js:360-392 | performs `SyncApplied`, whose properties are the lemmas above |
| MedicationTimer.MedicationPage.ApplyRecord | meds/js/medication-timer.js:378-387 | performs `RecordApplied`: fill the form, handle the medication change, recalculate, report success |
| MedicationTimer.MedicationPage.LoadPreviousTimings | meds/js/medication-timer.js:278-302 | performs `TimingsLoaded`; a saved result that cannot be decoded abandons the rest |
| MedicationTimer.MedicationPage.RestoreForm | meds/js/medication-timer.js:280-290 | each saved, non-empty start time, medication and break time is put back into the form |
| MedicationTimer.MedicationPage.ToggleDarkMode | meds/js/medication-timer.js:263-269 | flips the mode and stores "enabled" or "disabled" |
| MedicationTimer.MedicationPage.LoadDarkModeState | meds/js/medication-timer.js:271-275 | switches dark mode on exactly when "enabled" is stored |
| TerminalCommands.Info | retro-terminal/js/retro-terminal.js:121-134 | the information column has twelve lines |
| TerminalCommands.Plain | retro-terminal/js/retro-terminal.js:100 | one untagged line per text, in order |
| TerminalCommands.Tokenize | retro-terminal/js/retro-terminal.js:164-166 | the command is the raw first token lower-cased; the raw token is empty exactly for blank input, has no white space, and with the argument splits back into the words of the line; blank input has no argument |
| TerminalCommands.TokenizeFirstWord | retro-terminal/js/retro-terminal.js:164-165 | the raw command word, when there is one, is the first word of the line |
| TerminalCommands.TokenizeOfWords | retro-terminal/js/retro-terminal.js:164-166 | words separated by single spaces tokenise to the first word and the rest, re-joined |
| TerminalCommands.TokenizeIgnoresSpacing | retro-terminal/js/retro-terminal.js:164-166 | words with any white space around and between them tokenise exactly like the same words separated by single spaces |
| TerminalCommands.ParseCommand | retro-terminal/js/retro-terminal.js:168-188 | `help`, `cls`, `about`, `neofetch` and `theme` (lower-cased first word) each select exactly their own command, and `theme` carries the rest of the line; the empty case is taken exactly for blank input; an unknown command carries the non-empty typed first word, which is no command word in any case |
| TerminalCommands.PromptPrefix | retro-terminal/js/retro-terminal.js:19 | the default prompt without a path element, otherwise its text with white space cut from both ends |
| TerminalCommands.ThemeChoice | retro-terminal/js/retro-terminal.js:151-154 | a theme is chosen exactly when the lower-cased argument is green, amber or blue, and it is that name |
| TerminalCommands.ThemeChoiceOfTheme | retro-terminal/js/retro-terminal.js:152-154 | each theme name selects itself |
| TerminalCommands.SpacedArgumentNamesNoTheme | retro-terminal/js/retro-terminal.js:152-155 | an argument containing white space names no theme |
| TerminalCommands.MultiWordThemeRejected | retro-terminal/js/retro-terminal.js:163-179 | "theme" followed by two or more words is rejected |
| TerminalCommands.ThemeCommandWith | retro-terminal/js/retro-terminal.js:164-179 | "theme X" for one word X is the theme command with argument X |
| TerminalCommands.NeofetchLines | retro-terminal/js/retro-terminal.js:136-143 | the output has as many lines as the longer column |
| TerminalCommands.NeofetchPrefixAt | retro-terminal/js/retro-terminal.js:136-143 | line i of what the loops have printed so far is line i of the layout |
| TerminalCommands.NeofetchLayout | retro-terminal/js/retro-terminal.js:136-143 | a logo line is kept whole and padded to at least 24 columns, then the info text; below the logo, 24 spaces and the info text |
| TerminalCommands.NeofetchOutputSize | retro-terminal/js/retro-terminal.js:109-143 | the terminal's own neofetch prints twelve lines, the last four without logo |
| TerminalCommands.Pressed | retro-terminal/js/retro-terminal.js:84-87 | a button is pressed ("true") exactly when its theme is the new one, otherwise "false" |
| TerminalCommands.ThemeSetPressesExactlyItsButtons | retro-terminal/js/retro-terminal.js:77-88 | a known theme becomes the theme and exactly its buttons are pressed; an unknown name changes nothing |
| TerminalCommands.ThemeSetIdempotent | retro-terminal/js/retro-terminal.js:77-88 | selecting a theme twice is selecting it once |
| TerminalCommands.CommandKeepsOrClearsLog | retro-terminal/js/retro-terminal.js:163-189 | only cls removes lines, leaving just the pulsing hint; any other non-blank command adds at least one line |
| TerminalCommands.ThemeChangesOnlyByThemeCommand | retro-terminal/js/retro-terminal.js:151-189 | the theme changes only through a theme command naming a theme, and never leaves the theme set |
| TerminalCommands.CommandAnswers | retro-terminal/js/retro-terminal.js:90-188 | help adds its six lines, about its three, neofetch its layout, theme the confirmation or usage line, an unknown word "Unknown command: " and the raw word |
| TerminalCommands.UnknownCommandReportsRawWord | retro-terminal/js/retro-terminal.js:186-187 | an unknown command is reported as the first word in its typed case, and is no command word in any case |
| TerminalCommands.SubmitEchoesThenRuns | retro-terminal/js/retro-terminal.js:191-203 | blank input changes nothing; otherwise the echo comes first, then the command's output, and the field is cleared |
| TerminalCommands.SubmitKeepsThemeValid | retro-terminal/js/retro-terminal.js:191-203 | submitting never leaves the theme set |
| TerminalCommands.SubmitAcceptedTheme | retro-terminal/js/retro-terminal.js:151-161 | a theme command naming a theme echoes, selects it and confirms it |
| TerminalCommands.SubmitRejectedTheme | retro-terminal/js/retro-terminal.js:154-157 | a theme command naming no theme echoes and prints usage, and nothing else changes |
| TerminalCommands.ThemeThenRejectedTheme | retro-terminal/js/retro-terminal.js:151-161 | a theme, then a word naming none: the first theme stays, and usage is printed |
| TerminalCommands.AmberThenRed | retro-terminal/js/retro-terminal.js:151-161 | "theme amber" then "theme red" leaves amber |
| TerminalCommands.StartShowsBootSequence | retro-terminal/js/retro-terminal.js:220-223 | start-up appends the seven boot lines and the hint, and selects green when the markup names no theme |
| RetroTerminal.Terminal.constructor | retro-terminal/js/retro-terminal.js:19 | the prompt is the path element's trimmed text, or `C:\retro>` |
| RetroTerminal.Terminal.AppendLine | retro-terminal/js/retro-terminal.js:32-45 | one line is added at the end |
| RetroTerminal.Terminal.TypeLine | retro-terminal/js/retro-terminal.js:47-61 | the line shows the prefixes of the text for 0 to its length, over length + 1 ticks, and ends as the whole text |
| RetroTerminal.Terminal.BootSequence | retro-terminal/js/retro-terminal.js:63-70 | the boot lines in order, then the pulsing hint |
| RetroTerminal.Terminal.SetTheme | retro-terminal/js/retro-terminal.js:77-88 | the loop over the buttons performs `ThemeSet` |
| RetroTerminal.Terminal.ClickThemeButton | retro-terminal/js/retro-terminal.js:205-210 | a click selects the button's own theme |
| RetroTerminal.Terminal.Start | retro-terminal/js/retro-terminal.js:220-223 | performs `Started` |
| RetroTerminal.Terminal.PrintHelp | retro-terminal/js/retro-terminal.js:90-101 | the six help lines in order |
| RetroTerminal.Terminal.PrintAbout | retro-terminal/js/retro-terminal.js:103-107 | the three about lines in order |
| RetroTerminal.Terminal.PrintNeofetch | retro-terminal/js/retro-terminal.js:109-144 | the two loops produce exactly `NeofetchLines` for the current theme |
| RetroTerminal.Terminal.AppendColumns | retro-terminal/js/retro-terminal.js:136-143 | the two loops together append exactly `NeofetchLines` |
| RetroTerminal.Terminal.AppendLogoColumn | retro-terminal/js/retro-terminal.js:136-139 | the first loop appends the layout's lines for the logo's length |
| RetroTerminal.Terminal.AppendBesideLogo | retro-terminal/js/retro-terminal.js:137-138 | a logo line padded to 24 columns followed by its info line, or nothing, is layout line i |
| RetroTerminal.Terminal.AppendInfoBelowLogo | retro-terminal/js/retro-terminal.js:141-143 | the second loop completes the layout with the info lines past the logo |
| RetroTerminal.Terminal.ClearScreen | retro-terminal/js/retro-terminal.js:146-149 | the log becomes the pulsing hint alone |
| RetroTerminal.Terminal.HandleThemeCommand | retro-terminal/js/retro-terminal.js:151-161 | performs `ThemeCommandHandled` |
| RetroTerminal.Terminal.HandleCommand | retro-terminal/js/retro-terminal.js:163-189 | the switch performs `CommandHandled` |
| RetroTerminal.IsBlankInput | retro-terminal/js/retro-terminal.js:195-197 | `!value.trim()` holds exactly when the value is white space only |
| RetroTerminal.Terminal.Submit | retro-terminal/js/retro-terminal.js:191-203 | performs `Submitted` |

## Left out

- `meds/js/retro-terminal.js` is not part of this model. It is a timed boot animation with random flicker, and its typing duplicates the terminal's own `typeLine`.
- HTML: result blocks and lines are values, not markup. Scrolling, focus, `role`, styles and event wiring are left out.
- Timers: the typing interval (28/42 ms), the 220 ms boot pause, the 1 s progress interval and the timeout are explicit method calls.
  - The boot sequence runs to the end before any command.
  - Commands typed while it is still running are not interleaved with it.
  - Clearing an interval the page no longer tracks is not modelled, and neither are the `visibilitychange` listeners each calculation adds. Every call of `UpdateProgress` stands for one of them.
- Randomness: the sync code is the parameter `raw`; the flicker (floating point, `Math.random`) is left out.
- `Date` and locale: the clock is a minute of the day, `now` an epoch instant and `dayStartMs` the instant today began. Time zones, DST and `toLocaleString` formats are left out.
- `resetForm` (line 81) restores the markup's form defaults, which are not part of the script. `loadLocalStorageData` and the `beforeunload` handler only display and store access dates.
- `btoa`/`atob` and `JSON.parse`/`stringify`: stored values are tagged by what wrote them (`StoredValue`).
  - A sync record always round-trips, and any other text under a `sync_` key counts as corrupt.
  - JSON that parses but lacks `expires` is not modelled: in the source `now > undefined` is false, so `cleanupOldSyncCodes` keeps such an entry and `applySyncCode` applies it, whereas the model counts every stored text that is not a sync record as corrupt (the sweep deletes it and the lookup reports it unreadable).
  - A saved calculation decodes only when it was written by the page.
  - The Base64 text of an empty output is the empty text, so it reads as false like any empty stored string (`SyncCodes.IsEmptyText`).
  - A value under a form key that is not plain text is treated as absent.
- Storage quota failures and the "LocalStorage might be full" error are left out.
- Strings.NumberOrZero: `Number(x) || 0` is modelled for optional-sign decimal integers with surrounding white space; fractions, exponents, hexadecimal and `Infinity` give 0 instead of their value.
- MedicationMath.Calculate: the break is therefore an integer, and the total duration is whole minutes. The source adds `breakTime / 60` hours as a floating-point number.
- Strings.Lower: only ASCII letters change case; the rest of Unicode case mapping is left out (also for `Strings.Upper`).
- `medication in MEDICATIONS` would also accept inherited property names such as `toString`; only the two table keys are modelled.
- An unknown medication value yields empty output and a zero duration, whose progress is NaN, then 100 %, as in the source arithmetic.

## Findings

| source | as written | input that shows it | evidently intended | confidence | as-written member | corrected member |
|---|---|---|---|---|---|---|
| meds/js/medication-timer.js:122 | passes `MEDICATIONS.amfexa.onset + breakTime` as the additional onset, which `calculateForMed` adds to Amfexa's own 30-minute onset again | "both", start 08:00, break 0: Amfexa's onset is shown as 09:00 and its peak as 10:00 | the second medication's onset and peak shifted by the break alone: 08:30 and 09:30 with no break | not executed | MedicationMath.SecondDoseAsWrittenCountsOnsetTwice | MedicationMath.SecondDoseShiftedByBreak |

The rest of the model (`CalculationFor`, `CombinedCalculation`, the page) uses
the corrected push-back, `SecondDoseExtraOnset`.
