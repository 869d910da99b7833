# Medication tracker: a verified model of its domain layer

This project models the domain layer of a small client-side medication
tracker and proves properties about it. The layer has four parts:

- **Controller** (`App.tsx`). It holds two collections, the medications and
  the history of recorded doses. They change in exactly three ways:
  - add appends a medication with a fresh id;
  - delete filters out a medication by id and leaves history alone;
  - take appends a history entry with a medication id and a timestamp.
- **Today's schedule** (`components/TodaysSchedule.tsx`). Each medication
  gets one row. The row shows how many of the medication's doses were
  recorded today, whether the daily target is reached, and whether the
  Take action is offered.
- **History log** (`components/HistoryLog.tsx`).
  - Entries are grouped by local calendar day.
  - Days are shown by the timestamp of their first recorded entry, newest
    first.
  - Within a day, entries are shown newest first.
  - An entry whose medication no longer exists is skipped.
- **Add-medication form** (`components/AddMedicationForm.tsx`). It holds
  the form's fields, the submit check and the guarded "Get Info"
  enrichment request with its loading and error state.

Modules: `Types` (types.dfy), `Sequences` (sequences.dfy: subsequence,
distinctness and permutation facts), `App` (app.dfy), `Schedule`
(todays_schedule.dfy), `History` (history_log.dfy) and `MedicationForm`
(add_medication_form.dfy).

The model follows the flavour of the code:
- The controller's state and the form's state are classes whose methods
  update fields.
- The two views are functions of their inputs.
- The `reduce` that groups the history is a method with a loop, proved
  against the function `GroupMap`.
- Each in-place `Array.prototype.sort` is a verified in-place sort of an
  array.

Environment inputs are parameters:
- `crypto.randomUUID()` is a `freshId` argument. It must not already be
  in use.
- `Date.now()` is a `now: nat` argument.
- The local calendar is a function `dayOf: nat -> int`. It maps a
  timestamp to the number of its local day, and stands for both
  `isToday`'s day/month/year comparison and the `toLocaleDateString` key.
  Where a property depends on the calendar running forwards, it requires
  `Monotone(dayOf)`.

Points where the code's behaviour is easy to misread:
- `handleAddMedication` (App.tsx:34-40) accepts any draft. Validation sits
  in the form, not in the controller: in `handleSubmit`'s guard
  (components/AddMedicationForm.tsx:40-43) and in the inputs' `required`
  and `min="1"` attributes (components/AddMedicationForm.tsx:62,92,102,105).
  So `App.AppState.AddMedication` does not validate; the guard is
  `MedicationForm.AddMedicationForm.Submit`, and `App.AppState.SubmitAddForm`
  wires the two together.
- A row shows the raw count (components/TodaysSchedule.tsx:35,47), with no
  cap. Once a row is completed it shows "Done!" instead of Take
  (components/TodaysSchedule.tsx:51-63), so the schedule itself cannot
  record a third dose of a two-a-day medication. A third same-day entry
  can only come some other way, for example from stored data, and the row
  then reads 3 / 2. `Schedule.ThreeDosesOfTwo` proves the count is 3 while
  the row stays completed and offers no Take action.
- A date heading is rendered for every day in the history, even when every
  entry of that day is an orphan (components/HistoryLog.tsx:40-48). The
  model's `DayGroup` keeps such a day with an empty `rows`.

## Model

| member | source | states |
|---|---|---|
| App.RemoveById | App.tsx:43 | a medication is kept iff it was in the list and its id differs from the deleted id |
| App.RemoveByIdKeepsOrder | App.tsx:43 | the kept medications appear in their original relative order (a subsequence of the list) |
| App.RemoveByIdCounts | App.tsx:43 | every medication with the id occurs 0 times afterwards; every other medication occurs as often as before |
| App.RemoveAbsentId | App.tsx:43 | deleting an id no medication carries returns a list equal to the original |
| App.RemovePreservesUniqueIds | App.tsx:43 | deleting keeps medication ids unique |
| App.AddAppendsOne | App.tsx:34-40 | the list grows by one; earlier positions are unchanged; the last element has the fresh id and the submitted name, dosage, timesPerDay and info; a fresh id keeps ids unique |
| App.TakeAppendsOne | App.tsx:48-55 | history grows by one; earlier entries are unchanged; the new entry has the fresh id, the given medication id and the supplied timestamp; a fresh id keeps entry ids unique |
| App.AppState.constructor | App.tsx:29-30 | the collections start as whatever the store loaded |
| App.AppState.AddMedication | App.tsx:34-40 | medications become the old list plus the draft with the fresh id; history is unchanged; unique ids are preserved |
| App.AppState.DeleteMedication | App.tsx:42-46 | medications become the old list filtered by id; history is unchanged, so orphaned entries remain; unique ids are preserved |
| App.AppState.TakeMedication | App.tsx:48-55 | history becomes the old history plus one entry; the medication id is not checked; medications are unchanged |
| App.AppState.SubmitAddForm | App.tsx:100-104 | the modal closes iff the form's submit check passes; then exactly the form's fields are added under the fresh id and the form's error is unchanged; otherwise both collections are unchanged and the form shows the fill-all-fields error |
| Schedule.IsToday | components/TodaysSchedule.tsx:13-19 | an instant is today iff its calendar day is the day of `now`; `TodayIsAnInterval` proves today's instants form an interval under a monotone calendar |
| Schedule.TimesTakenToday | components/TodaysSchedule.tsx:35 | the count is at most the history's length; `TimesTakenTodayCountsEntries` proves it equals the number of matching entries that fall today |
| Schedule.TimesTakenTodayCountsEntries | components/TodaysSchedule.tsx:35 | the count equals the number of history positions holding an entry with the medication's id whose day is today's |
| Schedule.IsCompleted | components/TodaysSchedule.tsx:36 | completed iff today's count reaches `timesPerDay`; `CompletedStaysCompleted` proves later doses never undo it |
| Schedule.RowFor | components/TodaysSchedule.tsx:34-63 | a row carries the medication, today's count, the completed flag and the Take flag as its negation; `TodaysSchedule` states these per position |
| Schedule.TodaysSchedule | components/TodaysSchedule.tsx:21-64 | empty state iff there are no medications; otherwise one row per medication in collection order; each row gets today's count, completed iff the count reaches timesPerDay, and Take offered iff not completed |
| Schedule.AppendedEntryCount | components/TodaysSchedule.tsx:35 | a new entry raises its own medication's count by one when it falls today; it changes no count for another medication or another day |
| Schedule.CompletedStaysCompleted | components/TodaysSchedule.tsx:36 | recording more doses never un-completes a medication |
| Schedule.TodayIsAnInterval | components/TodaysSchedule.tsx:13-19 | under a monotone calendar, every instant between two instants of today is today |
| Schedule.ThreeDosesOfTwo | components/TodaysSchedule.tsx:35-63 | with two doses a day: after one dose, 1 taken and Take offered; after two, completed; after a third, the row shows 3 taken, completed, no Take; history holds 3 entries |
| History.DayEntries | components/HistoryLog.tsx:22-31 | a day's group holds exactly the history entries that fall on that day, and no more entries than the history |
| History.DayEntriesKeepHistoryOrder | components/HistoryLog.tsx:26-29 | the pushes keep a group in recording order (a subsequence of the history) |
| History.DayOrder | components/HistoryLog.tsx:26-33 | the dictionary's keys, in insertion order, have no repeats; they are exactly the days with at least one entry |
| History.FirstTimestampsDiffer | components/HistoryLog.tsx:33-35 | two different days never share the timestamp of their first entry |
| History.FirstTimestamp | components/HistoryLog.tsx:34 | the timestamp of a day's first recorded entry; `FirstTimestampsDiffer` proves two days present never share it |
| History.ConcatOfLongerHistory | components/HistoryLog.tsx:26-29 | one more entry adds itself once to the concatenated groups of a key list iff its day is a key |
| History.PartitionKnownDay | components/HistoryLog.tsx:26-29 | an entry on a day already present keeps the groups a rearrangement of the history |
| History.PartitionNewDay | components/HistoryLog.tsx:26-29 | an entry on a new day keeps the groups a rearrangement of the history |
| History.GroupsPartitionHistory | components/HistoryLog.tsx:22-31 | concatenating the groups in key order gives a permutation of the history |
| History.EntryInOneGroup | components/HistoryLog.tsx:23-29 | an entry lies in the group of a day iff that day is its own |
| History.GroupMap | components/HistoryLog.tsx:22-31 | the dictionary the reduce builds; `GroupMapHoldsDayEntries` proves its keys are the days present and each value is that day's group |
| History.GroupMapHoldsDayEntries | components/HistoryLog.tsx:22-31 | the dictionary has a key exactly for the days that occur; under each key is that day's group |
| History.GroupByDay | components/HistoryLog.tsx:22-33 | the reduce loop builds that dictionary, and its key order is the insertion order |
| History.SortDescendingBy | components/HistoryLog.tsx:44-45 | the array ends sorted by non-increasing key and is a permutation of its old contents |
| History.FindMedication | components/HistoryLog.tsx:47 | a medication found carries the id; nothing is found iff no medication carries it |
| History.FindIsFirstMatch | components/HistoryLog.tsx:47 | the medication found is the first one with the id |
| History.FindWithUniqueIds | components/HistoryLog.tsx:47 | with unique ids, every medication is found by its own id |
| History.Resolve | components/HistoryLog.tsx:46-48 | every displayed row pairs an entry of the day with the medication `find` returns for it |
| History.ResolveCount | components/HistoryLog.tsx:46-48 | a row is displayed as often as its entry occurs if the entry resolves to that medication, else never |
| History.ResolveSkipsOrphans | components/HistoryLog.tsx:47-48 | an entry is displayed iff some medication carries its medication id |
| History.ResolvePermutation | components/HistoryLog.tsx:44-48 | rearranging a day's entries rearranges its displayed rows in the same way |
| History.ResolveKeepsOrder | components/HistoryLog.tsx:44-48 | skipping orphans keeps a newest-first order |
| History.SortedDatesAreStrict | components/HistoryLog.tsx:33-35 | days sorted by first timestamp are strictly ordered, with no ties |
| History.LaterFirstEntryLaterDay | components/HistoryLog.tsx:33-35 | under a monotone calendar, a later first entry means a later day |
| History.NewestDayFirst | components/HistoryLog.tsx:33-35 | under a monotone calendar, ordering days by first entry is newest day first |
| History.SortDates | components/HistoryLog.tsx:33-35 | the sorted keys are a permutation of the keys, by non-increasing first timestamp |
| History.RenderDay | components/HistoryLog.tsx:44-48 | a day's rows are newest first and a permutation of the day's resolved group |
| History.RenderDays | components/HistoryLog.tsx:40-48 | one day per sorted key, in that order, each with its rows as above |
| History.RenderHistoryLog | components/HistoryLog.tsx:11-48 | empty state iff history is empty; the days shown are a permutation of the days present, strictly by first timestamp, newest day first under a monotone calendar; each day's rows are newest first and are its resolved entries |
| MedicationForm.TrimStart | components/AddMedicationForm.tsx:22 | the result is a suffix of the input that starts with no white space, and everything removed is white space |
| MedicationForm.TrimEnd | components/AddMedicationForm.tsx:22 | the result is a prefix of the input that ends with no white space, and everything removed is white space |
| MedicationForm.Trim | components/AddMedicationForm.tsx:22 | `name.trim()`; `TrimEmptyIffBlank` proves it is empty iff the name is all white space |
| MedicationForm.TrimStartEmptyIffBlank | components/AddMedicationForm.tsx:22 | trimming the start leaves nothing iff the name is all white space |
| MedicationForm.TrimEndKeepsNonBlank | components/AddMedicationForm.tsx:22 | trimming the end never empties a string that starts with a non-white-space character |
| MedicationForm.TrimEmptyIffBlank | components/AddMedicationForm.tsx:22 | `name.trim()` is empty iff the name is empty or all white space |
| MedicationForm.SubmitAccepted | components/AddMedicationForm.tsx:40 | the submit check passes iff name and dosage are non-empty and there is at least one dose a day; `Submit` proves it decides accept or reject |
| MedicationForm.ErrorText | components/AddMedicationForm.tsx:32 | an Error's own message, otherwise the unknown-error text; `FinishGetInfo` proves a failed fetch sets exactly this error |
| MedicationForm.BlankNamePassesSubmit | components/AddMedicationForm.tsx:40 | every non-empty name made only of white space passes the submit check (with a dosage and at least one dose a day), yet trims to empty |
| MedicationForm.AddMedicationForm.constructor | components/AddMedicationForm.tsx:13-19 | the form starts with empty name and dosage, one dose a day, no info, not loading, no error |
| MedicationForm.AddMedicationForm.SetName | components/AddMedicationForm.tsx:59 | the name field takes the typed value |
| MedicationForm.AddMedicationForm.SetDosage | components/AddMedicationForm.tsx:89 | the dosage field takes the typed value |
| MedicationForm.AddMedicationForm.SetTimesPerDay | components/AddMedicationForm.tsx:103 | the doses-per-day field takes the parsed value |
| MedicationForm.AddMedicationForm.Submit | components/AddMedicationForm.tsx:38-46 | an empty name, an empty dosage or fewer than one dose a day rejects and sets the fill-all-fields error; otherwise the four fields go out unchanged for add-then-close, and the error is untouched |
| MedicationForm.AddMedicationForm.StartGetInfo | components/AddMedicationForm.tsx:21-27 | a fetch starts iff the trimmed name is non-empty; a blank name sets the enter-a-name error and leaves loading unchanged; a start clears the error and sets loading |
| MedicationForm.AddMedicationForm.FinishGetInfo | components/AddMedicationForm.tsx:28-35 | success replaces info and keeps the error; failure keeps info and sets the error message (or the unknown-error text for a non-Error value); loading is off either way |

## Left out

- The `useLocalStorage` persistence hook is not part of this model. It is browser I/O. `App.AppState.constructor` takes the loaded collections as parameters and does not assume their ids are unique.
- services/geminiService.ts is a network call and a `JSON.parse` of remote text. Its outcome is the `FetchOutcome` parameter of `FinishGetInfo`.
- components/MedicationList.tsx has no domain logic: rendering, and a UI-only toggle for showing info. The delete it triggers is `App.AppState.DeleteMedication`.
- Presentation is not modelled: JSX and CSS, the tab switch (App.tsx:57-68), the modal's open flag, and the time-of-day text.
- The progress bar's width is a floating-point ratio (components/TodaysSchedule.tsx:45), so it is not modelled.
- The real calendar and locale (`new Date`, `getDate`/`getMonth`/`getFullYear`, `toLocaleDateString`) are replaced by the `dayOf` parameter. A day number stands for a date key, which assumes the locale text names each day uniquely.
- `isToday` builds `new Date()` on every call (components/TodaysSchedule.tsx:15), so a render that straddles midnight can judge entries against two different days. The model reads one `now` per render.
- Asynchrony is left out. A fetch that overlaps another fetch, or a submit made while a fetch is in flight, is not modelled. `StartGetInfo` and `FinishGetInfo` are the two halves of one `handleGetInfo` call. The button's `disabled={isLoadingInfo}` is not a precondition.
- MedicationForm.AddMedicationForm.SetTimesPerDay: `timesPerDay` is an `int`, so the `NaN` that `parseInt` returns for a cleared field is not represented. In the code `NaN < 1` is false, so such a value would pass `handleSubmit`'s guard; the browser's `required` check on that input (components/AddMedicationForm.tsx:105) blocks an empty doses field before the guard runs.
- MedicationForm.AddMedicationForm.Submit: the browser's constraint validation of the form (`required` at components/AddMedicationForm.tsx:62,92,105 and `min="1"` at line 102) is not modelled; the reject branch models the JavaScript guard as written. A blank name such as " " satisfies `required` too, so `BlankNamePassesSubmit` still describes what happens.
- History.SortDescendingBy: states sortedness and permutation, not stability, so its ensures is weaker than a stable `Array.prototype.sort`. History.RenderDay and History.RenderHistoryLog inherit the gap: in the code, entries of one day with equal timestamps keep their recording order, while their contracts allow any order for such entries.
- The `Number(timesPerDay)` conversion at components/AddMedicationForm.tsx:44 is the identity on a number and is not modelled separately.
