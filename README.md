# Field-service notes and monthly reports — a Dafny model

This project models the logic core of a React Native app that congregation
members use to log field-service time. A user writes a **note** per outing:
date, hours, the actions taken (tags), an optional return visit
("revisita") and an optional Bible study ("estudo"). At the end of the month
the notes are aggregated into a **report**. The report is stored per user and
month, and rendered as a PDF.

The model covers these parts of the app:

| Dafny module | File | What it models |
|---|---|---|
| `Text` | text.dfy | The JavaScript built-ins the core relies on: `String(n)`, `padStart(2, "0")`, `Math.round`, `%`, `trim`, `split`, `Number(text)`. |
| `TimeFunctions` | time_functions.dfy | `Functions/index.ts`: the ISO/display dates, hours ↔ `HH:mm`, the hours label, and the milliseconds helpers. |
| `NoteActions` | note_actions.dfy | `constants/noteActions.ts`: the action vocabulary. |
| `NoteTypes` | note_types.dfy | The `Note` record of `context/NotesContext.tsx`. |
| `NotesStore` | notes_store.dfy | `context/NotesContext.tsx` as a class whose `notes` list and storage map change in place. |
| `NoteForm` | note_form.dfy | `components/NoteForm.tsx`, described below. |
| `Reports` | reports.dfy | `context/ReportsContext.tsx`: month keys, the generation pipeline, and the report store as a map from id to report. |
| `ReportPdf` | report_pdf.dfy | `utils/reportPdf.ts`: what `buildHtml` places in the page, and the PDF file name. |
| `DatePicker` | date_picker.dfy | The string helpers of `components/ui/DatePicker.tsx`. |
| `Confirm` | confirm.dfy | `context/ConfirmProvider.tsx`: the dialog state and which promise settles with what. |
| `Auth` | auth.dfy | `context/AuthContext.tsx`: the mock sign-in and the stored profile. |

`NoteForm` models four parts of the form:
- the three React effects that keep the tags, the revisit switch and the automatic study flag consistent;
- `toggleAction`;
- the yup schema returned by `getSchema`;
- `toErrorMap` and the note that `handleSave` builds.

Where the code and its documentation differ, the model follows the code:

- `hoursToHHmm` rounds the minutes without a carry, so 1.999 h is shown as
  "01:60". `hhmmToHours` rejects that text. See
  `TimeFunctions.HoursToHHmmShowsSixty`. `hoursAndMinutesInLabels` does
  carry.
- The report month key is `yyyy-MM`, with a dash and the year unpadded.
  The report id is therefore `{userId}-{yyyy-MM}`.
- The aggregator's entries have no `estudo` field. A rendered report
  therefore never shows the "Estudo" tag (`ReportPdf.GeneratedReportRows`).
- `constants/noteActions.ts` does not export the two third-revisit tags.
  `components/NoteForm.tsx` imports them anyway, so at run time they are
  `undefined` and the automatic promotion to a study never fires. The
  model gives the two tags their own values (`NoteActions.A_REV_3_ESTUDO`,
  `NoteActions.A_REV_3_ESTUDO_SF`), outside the exported vocabulary, so
  that the intended rules can be stated and proved.
- React state updates are modelled as commits. In one commit all three
  effects run on the same rendered state (`NoteForm.Round`). The state
  settles after two commits (`NoteForm.Settled`).
- yup reports every failing test of a field, in schema order.
  `toErrorMap` keeps the first non-empty message per path.
- Firestore and AsyncStorage are modelled as maps.
- The clock, the device's locale formatting and storage failures become
  parameters. One report generation reads the clock three times: for the
  month key, inside `monthLabel` and inside `isClosedMonth`. The model
  takes the three readings as one `Reports.Clock` value, so a generation
  that straddles midnight at the end of a month stores its month as closed
  (`Reports.StraddlingGenerationIsClosed`).

## Model

| member | source | states |
|---|---|---|
| TimeFunctions.ToDisplayDate | Functions/index.ts:1-5 | Text that is not `dddd-dd-dd` comes back unchanged; ISO text becomes `dd/mm/yyyy` with the day, month and year pieces moved. |
| TimeFunctions.ToIsoDate | Functions/index.ts:7-21 | `dd/mm/yyyy` with month 1..12 and day 1..31 gives the ISO text (year unpadded, month and day on two digits); anything else gives none. |
| TimeFunctions.DisplayIsoRoundTrip | Functions/index.ts:1-21 | A valid display date survives display → ISO → display exactly when its year is at least 1000. |
| TimeFunctions.IsoDisplayRoundTrip | Functions/index.ts:1-21 | A well-formed ISO date with month 1..12, day 1..31 and year ≥ 1000 survives ISO → display → ISO. |
| TimeFunctions.Clamp24 | Functions/index.ts:25 | The result lies in [0, 24]; inputs inside are kept and inputs outside go to the nearer bound. |
| TimeFunctions.ClockParts | Functions/index.ts:23-32 | The hours are the floor of the clamped value; the minutes are the fraction times 60 rounded (at most 60, 0 at 24 h, within half a minute). |
| TimeFunctions.HoursToHHmm | Functions/index.ts:23-32 | "" exactly for a non-finite input; otherwise `hh:mm` with `hh` the whole hours and a value within half a minute of the clamped input. |
| TimeFunctions.HhmmToHours | Functions/index.ts:57-65 | Accepts exactly trimmed `h:mm`/`hh:mm` text with minutes 00..59, hours ≤ 24 and 24 only with 00; the value is hours + minutes/60, within [0, 24]. |
| TimeFunctions.HhmmRoundTrip | Functions/index.ts:23-65 | Every text `hhmmToHours` accepts is written back by `hoursToHHmm` as the same clock, hours padded to two digits. |
| TimeFunctions.HoursToHHmmText | Functions/index.ts:23-32 | For a finite input the text is the padded hours, a colon and the padded minutes of `ClockParts`. |
| TimeFunctions.PaddedClockMatches | Functions/index.ts:57-65 | Two padded numbers below 100 and 60 joined by a colon match the `HH:mm` pattern and read back as those numbers. |
| TimeFunctions.PaddedClockAccepted | Functions/index.ts:57-65 | A padded in-range clock is accepted by `hhmmToHours` with value h + m/60. |
| TimeFunctions.HHmmReadBack | Functions/index.ts:23-65 | When the minutes shown are below 60, reading the `hoursToHHmm` text back gives the clamped input within half a minute. |
| TimeFunctions.HoursToHHmmShowsSixty | Functions/index.ts:23-32 | 1.999 h is shown as "01:60", and `hhmmToHours` rejects that text. |
| TimeFunctions.LabelParts | Functions/index.ts:34-46 | Hours and minutes of the rounded total minutes of the clamped value: the minutes are below 60 and the total is at most 24 h. |
| TimeFunctions.HoursAndMinutesInLabels | Functions/index.ts:34-54 | "" exactly for a non-finite input. |
| TimeFunctions.LabelReadBack | Functions/index.ts:34-54 | The label of a finite value reads back, split on spaces, as the two-digit hours and minutes of `LabelParts` joined by "e"; "hora" and "minuto" are singular exactly for the value 1. |
| TimeFunctions.Pad | Functions/index.ts:69-71 | For 0..99 two digits whose value is `n`; for larger values the plain decimal digits. |
| TimeFunctions.SplitHHMMSS | Functions/index.ts:72-78 | For a non-negative duration: minutes and seconds below 60, and hours·3600 + minutes·60 + seconds equals the whole seconds. |
| TimeFunctions.Hundredths | Functions/index.ts:81 | A whole number of hundredths within half a hundredth of the input, of the same sign. |
| TimeFunctions.ToFixed2 | Functions/index.ts:81 | A whole number of hundredths within 0.005 of the input, of the same sign, and at least 24 when the input is. |
| TimeFunctions.MsToHoursDecimal | Functions/index.ts:79-82 | A hundredth-rounded value in [0, 24]: 0 for non-positive input, 24 from `LIMIT_MS` on, within 0.005 of the exact hours between. |
| NoteActions.ActionsAllDistinct | constants/noteActions.ts:17-27 | The vocabulary has nine actions, all different. |
| NoteActions.RevisitaActionsWithinVocabulary | constants/noteActions.ts:17-29 | The four revisit tags belong to the vocabulary; "Abriu estudo" does too but is not a revisit tag. |
| NoteActions.ThirdRevisitTagsAreExtra | constants/noteActions.ts:36-44 | The two third-revisit tags differ and are not part of the exported vocabulary. |
| NoteForm.Without | components/NoteForm.tsx:229-230 | Removes every copy of the tag and keeps every other tag. |
| NoteForm.WithoutAppend | components/NoteForm.tsx:229-230 | Filtering distributes over appending one tag. |
| NoteForm.AbriuIsNeutral | components/NoteForm.tsx:200-219 | Adding or removing "Abriu estudo" changes neither whether a revisit tag nor whether a third-revisit tag is selected. |
| NoteForm.Round | components/NoteForm.tsx:210-235 | One commit of the three effects: the switch is never turned off and is turned on by a revisit tag or "Abriu estudo"; a third-revisit tag puts "Abriu estudo" in; the automatic flag is set only while a third-revisit tag is selected. See also `RoundKeepsSelection`. |
| NoteForm.Settled | components/NoteForm.tsx:210-235 | The state after two commits: the switch is on when it was on, a revisit tag or "Abriu estudo" is selected, or a third-revisit tag is selected. Its full behaviour is in `SettledIsFixpoint`, `SettledWithThird`, `SettledWithoutThird`, `SettledRevisita` and `SettledKeepsOtherTags`. |
| NoteForm.RoundKeepsSelection | components/NoteForm.tsx:210-235 | One commit of the effects keeps the third-revisit and revisit selections and every tag other than "Abriu estudo". |
| NoteForm.SettledIsFixpoint | components/NoteForm.tsx:210-235 | After two commits no effect changes the state any more. |
| NoteForm.SettledWithThird | components/NoteForm.tsx:221-226 | With a third-revisit tag selected, the settled state holds "Abriu estudo", has the revisit switch on, and marks the study automatic exactly when the effect added it. |
| NoteForm.SettledWithoutThird | components/NoteForm.tsx:227-234 | Without one, the automatic flag ends false and an automatically added "Abriu estudo" is removed; a user-selected one stays. |
| NoteForm.SettledRevisita | components/NoteForm.tsx:210-219 | The settled switch is on exactly when it was on, a revisit tag is selected, or "Abriu estudo" is selected before or after the effects (a third-revisit tag adds it). |
| NoteForm.SettledKeepsOtherTags | components/NoteForm.tsx:210-235 | The effects only ever add or remove "Abriu estudo". |
| NoteForm.ToggleStep | components/NoteForm.tsx:237-246 | After a toggle the tag is selected exactly when it was not; every other tag keeps its selection; the switch is unchanged; the automatic flag is never set. Order and copies are in `ToggleStepSpec`. |
| NoteForm.ToggleStepSpec | components/NoteForm.tsx:237-246 | Toggling appends an absent tag, removes a present one, touches no other tag and leaves the switch alone. |
| NoteForm.ThirdToggleRoundTrip | components/NoteForm.tsx:221-246 | From a settled state without study tags, toggling a third-revisit tag on and off again restores the tags. |
| NoteForm.UserStudySurvivesThirdToggle | components/NoteForm.tsx:221-246 | A user-selected "Abriu estudo" survives toggling a third-revisit tag on and off. |
| NoteForm.NoteFormModel.constructor | components/NoteForm.tsx:150-208 | The form starts from the settled state of the edited note's tags and revisit switch, and remembers whether that note was a study. |
| NoteForm.NoteFormModel.Settle | components/NoteForm.tsx:210-235 | Re-rendering until the effects stop leaves the settled state, a fixpoint of one commit. |
| NoteForm.NoteFormModel.ToggleAction | components/NoteForm.tsx:237-246 | A tap on a tag toggles it, then the effects settle. |
| NoteForm.NoteFormModel.SetRevisitaEnabled | components/NoteForm.tsx:462-473 | The revisit checkbox sets the switch, then the effects settle. |
| NoteForm.NoteFormModel.Save | components/NoteForm.tsx:305-364 | Succeeds exactly when the schema reports nothing, with the built note; otherwise returns a map with exactly the failing paths, each holding its first message. |
| NoteForm.Check | components/NoteForm.tsx:35-106 | One test adds its path to the reported paths exactly when it fails, and keeps every issue named and non-empty. |
| NoteForm.BaseChecks | components/NoteForm.tsx:37-46 | The date is reported when empty; the hours when empty, malformed or out of range. |
| NoteForm.RevisitaChecks | components/NoteForm.tsx:53-75 | When the revisit applies: name and house number when blank, the date when empty, the time when empty or malformed. |
| NoteForm.EstudoChecks | components/NoteForm.tsx:79-101 | When the study applies: the same four tests on the study fields. |
| NoteForm.IssuesOf | components/NoteForm.tsx:35-106 | Every issue of the schema names its field and carries a non-empty message. |
| NoteForm.IssuesOfFields | components/NoteForm.tsx:35-106 | The reported fields are exactly those `FieldFails` names: date and hours always, revisit fields only for a non-study revisit, study fields only for a study, optional fields never. |
| NoteForm.ValidateFields | components/NoteForm.tsx:35-106 | The same, stated on the form's text: which text makes each field fail. |
| NoteForm.ValidHoursParse | components/NoteForm.tsx:305-311 | A form the schema accepts has hours that `hhmmToHours` reads. |
| NoteForm.FirstNonEmptyAppend | components/NoteForm.tsx:284-286 | The first non-empty message is unchanged by a later message, unless there was none. |
| NoteForm.MessagesForIffPath | components/NoteForm.tsx:281-289 | A path has messages exactly when it occurs among the issues. |
| NoteForm.FirstMessageOfPath | components/NoteForm.tsx:281-289 | When all messages are non-empty, the first non-empty message of a path is its first message. |
| NoteForm.RecordedStep | components/NoteForm.tsx:283-287 | Recording one more issue keeps exactly the paths seen so far, each with its first non-empty message. |
| NoteForm.ErrorMapOfRecords | components/NoteForm.tsx:281-289 | The error map has exactly the paths that occur, each with its first non-empty message. |
| NoteForm.ToErrorMap | components/NoteForm.tsx:281-289 | The loop builds the error map of the issues, or of the top-level error when there are none. |
| NoteForm.OptionalTrimmed | components/NoteForm.tsx:321-356 | An optional text is kept, trimmed, exactly when its trimmed value is non-empty. |
| NoteForm.BuildNote | components/NoteForm.tsx:311-359 | Revisit on exactly for a non-study with the switch on; study on exactly for a study; never both. The id, date, hours, tags and trimmed fields are carried over. |
| NoteForm.SavedStudyIsNotRevisit | components/NoteForm.tsx:313-347 | A saved study never carries an enabled revisit. |
| NotesStore.Replaced | context/NotesContext.tsx:63-66 | Same length; every note with the id becomes the new note, the others stay in place. |
| NotesStore.Removed | context/NotesContext.tsx:68-71 | Exactly the notes without the id remain. |
| NotesStore.FindNote | context/NotesContext.tsx:73-75 | Finds the first note with the id, or none exactly when no note has it. |
| NotesStore.RemovedAppend | context/NotesContext.tsx:68-71 | Removal distributes over concatenation, so relative order is kept. |
| NotesStore.RemovedAbsent | context/NotesContext.tsx:68-71 | Removing an absent id changes nothing. |
| NotesStore.RemovedIdempotent | context/NotesContext.tsx:68-71 | Removing twice is removing once. |
| NotesStore.ReplacedAbsent | context/NotesContext.tsx:63-66 | Updating with an absent id changes nothing. |
| NotesStore.FindAfterAdd | context/NotesContext.tsx:59-75 | A note just added is the one found under its id. |
| NotesStore.FindAfterReplace | context/NotesContext.tsx:63-75 | After an update that hit, the id finds the new note. |
| NotesStore.FindAfterRemove | context/NotesContext.tsx:68-75 | After a delete nothing is found under the id. |
| NotesStore.RemovedAfterReplaced | context/NotesContext.tsx:63-71 | Updating then deleting the same id is deleting it. |
| NotesStore.NotesProvider.constructor | context/NotesContext.tsx:43-52 | The list starts as the stored list, or empty. |
| NotesStore.NotesProvider.Persist | context/NotesContext.tsx:54-57 | The new list becomes the state and is stored under `hs.notes`; other keys are kept. |
| NotesStore.NotesProvider.AddNote | context/NotesContext.tsx:59-61 | The note goes in front and is then found under its id. |
| NotesStore.NotesProvider.UpdateNote | context/NotesContext.tsx:63-66 | The list becomes the replaced list; the id then finds the new note if it was present, and nothing changes otherwise. |
| NotesStore.NotesProvider.DeleteNote | context/NotesContext.tsx:68-71 | The list becomes the filtered list and nothing is found under the id. |
| NotesStore.NotesProvider.ClearAll | context/NotesContext.tsx:77-79 | The list and the stored list become empty. |
| NotesStore.NotesProvider.GetNote | context/NotesContext.tsx:73-75 | The first note of the current list with that id (no earlier note has it), or none exactly when there is none. |
| Reports.CurrentKey | context/ReportsContext.tsx:170-173 | For a non-negative year, the key splits on '-' into two pieces: the year's digits and the month on two digits, which read back as the year and the month. |
| Reports.IsClosedMonth | context/ReportsContext.tsx:90-96 | The clock's own key is open, and an open key labels the clock's month. The converse is `ClosedIffOtherMonth`. |
| Reports.ClosedIffOtherMonth | context/ReportsContext.tsx:90-96 | For non-negative years, one reading's month is closed at another reading exactly when the two readings differ. |
| Reports.MonthFromDateIso | context/ReportsContext.tsx:65-68 | The first seven characters, or the whole text when shorter. |
| Reports.MonthLabel | context/ReportsContext.tsx:70-88 | The year is the key's year when it reads as a number, else the clock's; the month index is the key's month − 1 when in 1..12, else the clock's. |
| Reports.MonthLabelOfCurrentKey | context/ReportsContext.tsx:70-97 | The clock's own month key labels the clock's month. |
| Reports.MonthNotes | context/ReportsContext.tsx:176-178 | Keeps exactly the notes whose date starts with the month key. |
| Reports.MonthNotesMultiplicity | context/ReportsContext.tsx:176-178 | Each note of the month occurs as often as in the list; other notes never occur. |
| Reports.MonthNotesAppend | context/ReportsContext.tsx:176-178 | Filtering distributes over concatenation, so the month's notes keep their relative order. |
| Reports.MonthNotesCount | context/ReportsContext.tsx:176-178 | The month's notes are as many as the notes of the list dated in the month, counted one by one from the front. |
| Reports.InsertSorted | context/ReportsContext.tsx:181-182 | Inserting into a date-sorted list keeps it sorted. |
| Reports.InsertStable | context/ReportsContext.tsx:181-182 | Inserting puts a note after the notes of the same date. |
| Reports.SortByDate | context/ReportsContext.tsx:181-182 | Sorted by date, a permutation of the input, and stable. |
| Reports.SumSortByDate | context/ReportsContext.tsx:181-191 | Sorting does not change the sum of the hours. |
| Reports.EntryOf | context/ReportsContext.tsx:183-187 | An entry copies the note's date and hours; its revisit flag is on exactly when the note's revisit is on. |
| Reports.BuildReport | context/ReportsContext.tsx:164-202 | The report's month is the key of the first clock reading, and every entry is dated in that month. The rest is in `BuildReportHeader`, `BuildReportOpen`, `BuildReportEntries`, `BuildReportTotal` and `ReportEntryCount`. |
| Reports.SortedMonthNotesInMonth | context/ReportsContext.tsx:176-182 | Every note the sort returns is dated in the month. |
| Reports.BuildReportHeader | context/ReportsContext.tsx:193-202 | The month is the first reading's key, the id is `{userId}-{key}`, and the owner is the user. |
| Reports.BuildReportOpen | context/ReportsContext.tsx:90-96 | The report is closed exactly when the `isClosedMonth` reading gives another month key than the first reading; within one month it is open. |
| Reports.StraddlingGenerationIsClosed | context/ReportsContext.tsx:90-96 | A month key read in December 2024 with `isClosedMonth` reading January 2025 gives a report for "2024-12" stored as closed. |
| Reports.BuildReportEntries | context/ReportsContext.tsx:181-187 | The entries follow the month's notes sorted by date. |
| Reports.ReportEntryCount | context/ReportsContext.tsx:176-187 | The report has exactly one entry per note of the list dated in the month. |
| Reports.BuildReportTotal | context/ReportsContext.tsx:189-191 | The total is the month's hours rounded to the hundredth. |
| Reports.EntryForNoteIffInMonth | context/ReportsContext.tsx:176-187 | A note is reported exactly when its date lies in the clock's month. |
| Reports.EmptyMonth | context/ReportsContext.tsx:176-191 | A month without notes gives no entries and total 0. |
| Reports.GenerateAndSave | context/ReportsContext.tsx:164-216 | Without a user id it fails with "not logged in" before writing. With one, it returns the built report when the write succeeds and a write error when it fails. A failure keeps the store; a success stores the report under its id. |
| Reports.GenerateAddsOneKey | context/ReportsContext.tsx:193-214 | A successful generation adds only the key `{userId}-{yyyy-MM}`. |
| Reports.GenerateTwiceSameStore | context/ReportsContext.tsx:204-214 | Generating twice in a month with the same notes leaves the store as one generation does. |
| Reports.ReportIdInjective | context/ReportsContext.tsx:194 | Different users without '-' in their ids, or different months, never share a report id. |
| Reports.DeleteReport | context/ReportsContext.tsx:153-162 | A delete removes exactly that id; a failed delete keeps the store. |
| Reports.GenerateThenDelete | context/ReportsContext.tsx:153-216 | Deleting a freshly generated report restores a store that did not hold it. |
| Reports.FindByMonth | context/ReportsContext.tsx:149-151 | The first report of that month, or none exactly when no report has it. |
| ReportPdf.Tag | utils/reportPdf.ts:16-21 | "Estudo" exactly for a study entry, "Revisita" exactly for a non-study revisit, "" otherwise. |
| ReportPdf.Rows | utils/reportPdf.ts:14-70 | One row per entry in order, or the single fallback row when there are none. |
| ReportPdf.Meta | utils/reportPdf.ts:56 | The author is appended only when given and non-empty. |
| ReportPdf.BuildPage | utils/reportPdf.ts:8-80 | Title, meta line, badge ("Mês fechado" exactly for a closed report), rows, total and footer come from the report. |
| ReportPdf.FileName | utils/reportPdf.ts:85 | `relatorio-`, the month, `.pdf`. |
| ReportPdf.FileNameInjective | utils/reportPdf.ts:85 | Different months give different file names. |
| ReportPdf.AsRendered | context/ReportsContext.tsx:181-202 | A generated report as the renderer reads it: same header, each entry with `estudo` false. |
| ReportPdf.RowsOfGenerated | utils/reportPdf.ts:14-31 | Rows of aggregated entries are never tagged "Estudo", and are tagged "Revisita" exactly for a revisit. |
| ReportPdf.EntryRowOf | utils/reportPdf.ts:23-29 | An entry's row shows its date as `dd/mm/yyyy` and is tagged "Estudo" exactly for a study entry, "Revisita" exactly for a non-study revisit. |
| ReportPdf.GeneratedReportBadge | utils/reportPdf.ts:8-80 | A generated report's badge is "Em aberto" exactly when the two clock readings give the same month key, so always within one month. |
| ReportPdf.GeneratedReportRows | utils/reportPdf.ts:8-80 | A generated report renders with one row per month note in date order, showing its date as `dd/mm/yyyy`, tagged "Revisita" exactly when the revisit is on, and never "Estudo". |
| DatePicker.OrOne | components/ui/DatePicker.tsx:11 | `x \|\| 1`: the number when truthy, else 1. |
| DatePicker.IsoToDate | components/ui/DatePicker.tsx:8-12 | "Now" exactly for an absent or empty value; otherwise the split pieces, with a missing, zero or NaN month or day read as 1. |
| DatePicker.DateToIso | components/ui/DatePicker.tsx:13-18 | The year as `String` writes it, a dash, the 1-based month on two digits, a dash, the day on two digits. |
| DatePicker.PieceText | components/ui/DatePicker.tsx:21-22 | A missing piece shows as "undefined". |
| DatePicker.ToDisplay | components/ui/DatePicker.tsx:19-23 | "" for an absent or empty value. Otherwise the display, split on "/", gives three pieces: the ISO pieces in reverse, unchecked, with "undefined" for a missing one. |
| DatePicker.ToDisplayReorders | components/ui/DatePicker.tsx:19-23 | Three dash-free pieces are shown day/month/year. |
| DatePicker.ToDisplayAgreesWithToDisplayDate | components/ui/DatePicker.tsx:19-23 | On well-formed ISO text the picker's display equals `toDisplayDate`. |
| DatePicker.IsoToDateOfDigits | components/ui/DatePicker.tsx:8-12 | Three digit runs joined by dashes are read back as their values. |
| DatePicker.IsoRoundTrip | components/ui/DatePicker.tsx:8-18 | A valid date with a non-negative year comes back from its ISO text as the same year, month index and day. |
| Confirm.CancelAnswer | context/ConfirmProvider.tsx:86-102 | The cancel answer is false for a confirmation and all-off, not answered yes, for a ressalva; there is none without a dialog. |
| Confirm.ConfirmAnswerOf | context/ConfirmProvider.tsx:104-121 | The confirm answer is true for a confirmation; for a ressalva it is the boxes as ticked, answered yes, with hours included exactly when "pioneiro" or "missionário" is ticked. |
| Confirm.TestemunhoDoesNotIncludeHours | context/ConfirmProvider.tsx:111 | "Testemunho público" never decides whether hours are included. |
| Confirm.ButtonsDiffer | context/ConfirmProvider.tsx:86-121 | The two buttons never give the same answer to an open dialog. |
| Confirm.ConfirmProvider.constructor | context/ConfirmProvider.tsx:51-59 | The dialog starts closed with nothing pending. |
| Confirm.ConfirmProvider.Close | context/ConfirmProvider.tsx:61-68 | Hides the dialog, clears the mode and boxes, and drops the pending promise. |
| Confirm.ConfirmProvider.RequestConfirm | context/ConfirmProvider.tsx:70-76 | A new pending promise replaces any earlier one, and the confirmation is shown. |
| Confirm.ConfirmProvider.AskRessalva | context/ConfirmProvider.tsx:78-84 | A new pending promise replaces any earlier one, and the ressalva question is shown. |
| Confirm.ConfirmProvider.SetPioneiro | context/ConfirmProvider.tsx:163-166 | Sets only that box. |
| Confirm.ConfirmProvider.SetMissionario | context/ConfirmProvider.tsx:174-177 | Sets only that box. |
| Confirm.ConfirmProvider.SetTestemunhoPublico | context/ConfirmProvider.tsx:185-188 | Sets only that box. |
| Confirm.ConfirmProvider.OnCancel | context/ConfirmProvider.tsx:86-102 | With a dialog open, settles the pending promise with the cancel answer and closes; with none, changes nothing. |
| Confirm.ConfirmProvider.OnConfirm | context/ConfirmProvider.tsx:104-121 | With a dialog open, settles the pending promise with the confirm answer read from the boxes, and closes; with none, changes nothing. |
| Confirm.RessalvaScenario | context/ConfirmProvider.tsx:78-121 | Ticking "pioneiro" and confirming settles the ressalva's own promise with hours included and answered yes. |
| Auth.SignInProfile | context/AuthContext.tsx:46-62 | Signs in with the stored profile when the e-mail matches, the stored profile under the new e-mail when it does not, and an e-mail-only profile when nothing is stored. |
| Auth.SignInProfileStable | context/AuthContext.tsx:46-62 | Signing in twice with the same e-mail is signing in once. |
| Auth.SignInAfterSave | context/AuthContext.tsx:46-71 | Signing in after a save returns the saved profile, under the given e-mail. |
| Auth.AuthProvider.Stored | context/AuthContext.tsx:48 | The profile under `hs.profile`, if any. |
| Auth.AuthProvider.constructor | context/AuthContext.tsx:37-44 | The stored profile is signed in at start-up unless nothing is stored or the read fails. |
| Auth.AuthProvider.SignIn | context/AuthContext.tsx:46-62 | Reads storage without writing it and ignores the password. |
| Auth.AuthProvider.SignOut | context/AuthContext.tsx:64-66 | No one is signed in; storage is untouched. |
| Auth.AuthProvider.SaveProfile | context/AuthContext.tsx:68-71 | Stores the profile under `hs.profile` and signs in with it. |
| Auth.SaveSignOutSignIn | context/AuthContext.tsx:46-71 | Save, sign out, then sign in with the same e-mail restores the profile, whatever the password. |

## Left out

- Time: the clock (`new Date()`), time zones and locale formatting are parameters. `monthLabel`'s localized text, `todayIso`, `formatCreatedAt` and the `toLocaleString("pt-BR")` meta time are not modelled.
- Storage and I/O: AsyncStorage and Firestore are modelled as in-memory maps. JSON (de)serialisation, the asynchronous promises and the real-time `onSnapshot` listener are not modelled. Firestore's `createdAt`/`updatedAt` server timestamps and `merge` semantics are not modelled either; every report field is written anyway.
- PDF export: the HTML markup and styling, `expo-print`, the file-system moves and sharing are left out. Only the values placed in the page and the file name are modelled.
- The stopwatch screen and its timer engine are not part of this model. `LIMIT_MS` is used only through `msToHoursDecimal`.
- Numbers: JavaScript doubles are modelled as exact reals. `toFixed(2)` is modelled as exact half-away-from-zero rounding, without binary floating-point artefacts.
- `Number(text)` is modelled for decimal digits with surrounding white space. Signs, decimals, exponents and hexadecimal literals are read as NaN.
- NoteForm: only the tags, the revisit switch and the study flag are initialised from the edited note. The other text fields are plain inputs to `Save`. The form's own `touched` state (a plain React state map), per-field validation on blur and all rendering are left out.
- DatePicker.IsoToDate: models the arguments passed to `new Date(year, monthIndex, day)`. The `Date` constructor's normalisation (overflowing days or months, two-digit years) is not modelled.
- DatePicker.IsoRoundTrip: holds for non-negative years only. A negative year's ISO text starts with "-" and does not survive the split.
- Reports.MonthLabelOfCurrentKey: stated for non-negative years only, for the same reason.
- Reports.ReportIdInjective: requires user ids without '-'. With a dash in a user id, two users' ids can collide.
- Auth.AuthProvider.SignIn: a storage read that throws inside `signIn` is not modelled. The start-up read's failure is the constructor's `loadFails` parameter.
- NotesStore.NotesProvider.constructor: unreadable stored JSON is not modelled; the stored map holds parsed lists only.
- Reports.SortByDate: `localeCompare` is modelled as character order. Locale collation agrees with it on well-formed ISO dates. It differs on other text: letter case, accents and ignorable characters. Note dates are not validated before sorting.
- DatePicker.ToDisplay: its contract says nothing about a value that itself contains "/", because the pieces then no longer read back on "/".
- Text: a `char` is a Unicode scalar value, while JavaScript's `length`, `slice` and comparison count UTF-16 code units. The two differ only for characters outside the Basic Multilingual Plane, which the model counts as one where JavaScript counts two.
