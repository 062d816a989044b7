# Shift planner: a Dafny model of its non-rendering logic

The shift planner is a browser app that keeps two flat lists, staff members
`{id, name, role}` and shifts `{id, staffId, date, startTime, endTime}`, in the
browser's local storage, shows the shifts of one week on a seven-column grid and
exports that week as JSON or CSV. This project models everything in it that is
not rendering:

- `storage.dfy` (module `Storage`): `getData`/`setData` over a key-to-array store.
  The store is a class whose `entries` map is overwritten by `SetData`; a read of a
  missing key or of an empty string yields `[]`, and so does any read outside a
  browser.
- `staff_hook.dfy`, `shift_hook.dfy` (`StaffHook`, `ShiftHook`): the two list
  repositories. Each is a class holding the in-memory list and the store. `add`
  appends without looking at ids, `remove` filters out every record with the id,
  and both write the whole new list under `"staff"` or `"shifts"`.
- `calendar.dfy` (`Calendar`): the seven week days, the per-day columns, the name on
  a shift card, and the `ShiftCalendar` class with the dialog state, `handleSave`,
  `handleDelete`, the dialog openers and resets, and week navigation.
- `export.dfy` (`Export`): the week's dates, the week's shifts, the file name, the
  CSV text, and the JSON payload.
- `shift_form.dfy` (`ShiftForm`), `staff_card.dfy` (`Cards`), `home_page.dfy`
  (`Home`): the three forms, with their submit guards and the records they build.
- `lists.dfy`, `text.dfy`, `records.dfy`: `filter`, `join` with its inverse
  `Split`, the two record types, and `find` by id.

Dates are integer day numbers counted from Thursday 1 January 1970, so weekday 0
(Monday) is `(day + 3) % 7 == 0`. The day-to-`"YYYY-MM-DD"` conversion is a
parameter `iso`. It is assumed injective only where a lemma says so. The fresh ids
that `uuid()` produces are a parameter `freshId`. The clock's readings are the
parameters `today` and `exportedAt`. JSON serialisation is the identity on the
stored records.

Several things the code does are easy to misread; the model follows the code:

- Editing a staff member calls the appending `addStaff`, so the list then holds
  the old record and a second record with the same id, and every lookup still
  finds the old one (`Cards.UpdateAppendsSecondRecord`).
- The calendar's shift edit and delete write the store directly and leave the
  in-memory list as it was (`Calendar.ShiftCalendar.HandleSave`,
  `Calendar.ShiftCalendar.HandleDelete`). A later add then writes the stale list
  plus the new shift, and the edit is gone from the store
  (`Calendar.ShiftCalendar.LaterAddRevertsEdit`).
- `setData` has no `window` check. Outside a browser it throws rather than
  doing nothing, so `Storage.Store.SetData` requires `inBrowser`.
- The grid names an unmatched or unnamed staff member `"Unknown"` (`||`), but the
  CSV export uses `??`. A matched record with an empty name is therefore exported
  as `""` (`Calendar.DisplayNameVersusExport`).
- The grid has one column per day and no time slots. `weekDates` counts seven
  days from the stored week start, whatever weekday that start is.

## Model

| member | source | states |
|---|---|---|
| `Storage.Get` | lib/localStorage.ts:1-5 | the result is `[]` outside a browser, for a missing key and for an empty string; in a browser, a key holding an array (written in this session or an earlier one) reads back exactly that array |
| `Storage.Put` | lib/localStorage.ts:7-9 | after a write, a read of the key gives exactly the written array, whatever was there before; every other key keeps its value |
| `Storage.PutOtherKey` | lib/localStorage.ts:8 | a write leaves the read of every other key unchanged |
| `Storage.PutReplaces` | lib/localStorage.ts:8 | a second write to a key erases every trace of the first (replace, not merge) |
| `Storage.Store.constructor` | lib/localStorage.ts:1-5 | the store starts with whatever entries earlier sessions left, in or out of a browser |
| `Storage.Store.SetData` | lib/localStorage.ts:7-9 | the store's entries become `Put` of the old entries; a read of the key gives `data` and every other key reads as before |
| `Lists.Filter` | hooks/useStaff.ts:21 | the result is no longer than the input and holds only elements the predicate keeps |
| `Lists.FilterMultiplicity` | hooks/useStaff.ts:21 | each kept element occurs exactly as often as in the input, and each dropped one not at all |
| `Lists.FilterConcat` | hooks/useStaff.ts:21 | filtering distributes over concatenation, so the kept elements keep their order |
| `Lists.FilterKeepsAll` | hooks/useStaff.ts:21 | a filter that keeps every element returns the input unchanged |
| `Lists.FilterKeepsNone` | hooks/useStaff.ts:21 | a filter that keeps no element returns `[]` |
| `Records.FindStaff` | components/ShiftCalendar.tsx:174 | `None` exactly when no record has the id; otherwise the FIRST record with the id |
| `StaffHook.WithoutStaff` | hooks/useStaff.ts:21 | no record in the result has the id, and every record with another id occurs exactly as often as before |
| `StaffHook.RemoveKeepsOrder` | hooks/useStaff.ts:21 | removal works piecewise over any split of the list, so the other records keep their order |
| `StaffHook.RemoveAbsent` | hooks/useStaff.ts:21 | removing an id no record has leaves the list unchanged |
| `StaffHook.RemoveUndoesAdd` | hooks/useStaff.ts:14-23 | removing the id of a record just appended with a fresh id restores the list from before the append |
| `StaffHook.AddDuplicatesId` | hooks/useStaff.ts:15 | appending adds one record to the count of its id, so an id already present ends up on two records |
| `StaffHook.RemoveStaffClearsId` | hooks/useStaff.ts:21 | after removal no record has the id, duplicates included |
| `StaffHook.FindIgnoresAppended` | hooks/useStaff.ts:15 | once some record has the id, appending another with that id changes no lookup by it |
| `StaffHook.StaffRepository.constructor` | hooks/useStaff.ts:8 | the list starts empty |
| `StaffHook.StaffRepository.Load` | hooks/useStaff.ts:10-12 | the list becomes what the store holds under `"staff"` |
| `StaffHook.StaffRepository.AddStaff` | hooks/useStaff.ts:14-18 | the list becomes the old list plus the record, and the value under `"staff"` becomes that list |
| `StaffHook.StaffRepository.RemoveStaff` | hooks/useStaff.ts:20-24 | the list becomes the old list without the id, and the value under `"staff"` becomes that list |
| `ShiftHook.WithoutShift` | hooks/useShifts.ts:21 | no shift in the result has the id, and every shift with another id occurs exactly as often as before |
| `ShiftHook.RemoveShiftKeepsOrder` | hooks/useShifts.ts:21 | removal works piecewise over any split of the list, so the other shifts keep their order |
| `ShiftHook.RemoveShiftAbsent` | hooks/useShifts.ts:21 | removing an absent id leaves the list unchanged |
| `ShiftHook.RemoveShiftUndoesAdd` | hooks/useShifts.ts:14-23 | removing the id of a shift just appended with a fresh id restores the earlier list |
| `ShiftHook.AddShiftCountsId` | hooks/useShifts.ts:15 | appending adds one shift to the count of its id; ids are not checked |
| `ShiftHook.RemoveShiftClearsId` | hooks/useShifts.ts:21 | after removal no shift has the id |
| `ShiftHook.ShiftRepository.constructor` | hooks/useShifts.ts:8 | the list starts empty |
| `ShiftHook.ShiftRepository.Load` | hooks/useShifts.ts:10-12 | the list becomes what the store holds under `"shifts"` |
| `ShiftHook.ShiftRepository.AddShift` | hooks/useShifts.ts:14-18 | the list becomes the old list plus the shift, and the value under `"shifts"` becomes that list |
| `ShiftHook.ShiftRepository.RemoveShift` | hooks/useShifts.ts:20-24 | the list becomes the old list without the id, and the value under `"shifts"` becomes that list |
| `Calendar.StartOfWeek` | components/ShiftCalendar.tsx:127-131 | the result is a Monday, at most six days before the given day |
| `Calendar.NextWeek` | components/ShiftCalendar.tsx:149 | the result falls on the same weekday and is the day after the last day of the current week |
| `Calendar.PrevWeek` | components/ShiftCalendar.tsx:135 | the result falls on the same weekday and its week ends the day before the current week starts |
| `Calendar.WeekNavigation` | components/ShiftCalendar.tsx:133-152 | Prev and Next undo each other, and the next week begins the day after this week ends |
| `Calendar.WeekDays` | components/ShiftCalendar.tsx:54-56 | seven consecutive days, the first being the week start |
| `Calendar.DayShifts` | components/ShiftCalendar.tsx:160-161 | exactly the shifts dated that day, each as often as in the list |
| `Calendar.DayShiftsKeepOrder` | components/ShiftCalendar.tsx:161 | a column keeps the list order of its shifts |
| `Calendar.Grid` | components/ShiftCalendar.tsx:159-161 | seven columns, column i holding the shifts dated on week start plus i days |
| `Calendar.ColumnsCoverDates` | components/ShiftCalendar.tsx:159-161 | over distinct dates, the columns together hold exactly the shifts on those dates, each in one column |
| `Calendar.ColumnsSplit` | components/ShiftCalendar.tsx:161 | the shifts on one date plus those on other distinct dates are the shifts on all of them |
| `Calendar.GridMatchesExport` | components/ShiftCalendar.tsx:159-161 | when dates are distinct per day, the grid holds exactly the shifts the export of the same week holds |
| `Calendar.DisplayName` | components/ShiftCalendar.tsx:174-185 | never empty; `"Unknown"` with no matching record or when the first match's name is empty, otherwise that name |
| `Calendar.DisplayNameVersusExport` | components/ShiftCalendar.tsx:185 | the grid's name is the export's name, except that the export's empty name shows as `"Unknown"` |
| `Calendar.DialogShift` | components/ShiftCalendar.tsx:61-67 | the edited shift's id or the fresh id, and the dialog's fields unchanged |
| `Calendar.EditedShifts` | components/ShiftCalendar.tsx:69-72 | the list an edit writes: the other shifts, then the new version; `Calendar.EditLeavesOneVersion` states what it holds |
| `Calendar.EditLeavesOneVersion` | components/ShiftCalendar.tsx:69-73 | the written list has exactly one shift with the id, the new version, last; every other shift occurs as before |
| `Calendar.ShiftCalendar.constructor` | components/ShiftCalendar.tsx:24-36 | the dialog is closed and reset, the date is today and the week is today's week, starting on a Monday |
| `Calendar.ShiftCalendar.WeekGrid` | components/ShiftCalendar.tsx:159-161 | the rendered grid is `Grid` of the in-memory list and the displayed week; `Calendar.Grid` and `Calendar.GridMatchesExport` state what it holds |
| `Calendar.ShiftCalendar.CardName` | components/ShiftCalendar.tsx:174-185 | the name on a shift's card is `DisplayName` over the in-memory staff list; `Calendar.DisplayName` states what it is |
| `Calendar.ShiftCalendar.CloseModal` | components/ShiftCalendar.tsx:108-114 | the dialog is closed, nothing is being edited, staff is empty and the times are 09:00 to 17:00 |
| `Calendar.ShiftCalendar.HandleOpenAdd` | components/ShiftCalendar.tsx:90-97 | the dialog opens empty for a new shift on the given date |
| `Calendar.ShiftCalendar.HandleOpenEdit` | components/ShiftCalendar.tsx:99-106 | the dialog opens on the shift, with all its fields loaded |
| `Calendar.ShiftCalendar.HandleSave` | components/ShiftCalendar.tsx:58-79 | nothing changes without a staff member; an edit writes the other shifts plus the new version to the store and leaves the in-memory list as it was; an add appends through `addShift`; then the dialog resets |
| `Calendar.ShiftCalendar.HandleDelete` | components/ShiftCalendar.tsx:81-88 | nothing changes when no shift is being edited; otherwise the list without that id goes to the store, the in-memory list is left as it was, and the dialog resets |
| `Calendar.ShiftCalendar.LaterAddRevertsEdit` | components/ShiftCalendar.tsx:58-97 | an edit saved, then a new shift added: the store holds the in-memory list from before the edit plus the new shift, so the edited version is lost; with no staff chosen the second save does nothing and the store keeps the edit |
| `Calendar.ShiftCalendar.GoToPrevWeek` | components/ShiftCalendar.tsx:133-138 | the week start moves back exactly seven days and stays a Monday |
| `Calendar.ShiftCalendar.GoToNextWeek` | components/ShiftCalendar.tsx:147-152 | the week start moves forward exactly seven days and stays a Monday |
| `Calendar.ShiftCalendar.GoToToday` | components/ShiftCalendar.tsx:139-146 | the week start is the Monday of the week containing today |
| `Calendar.ShiftCalendar.PickWeek` | components/ShiftCalendar.tsx:124-132 | the week start is the Monday of the week containing the picked day |
| `Export.WeekDates` | components/ExportButton.tsx:25-28 | seven dates, entry i being the date of week start plus i days |
| `Export.FilteredShifts` | components/ExportButton.tsx:29 | exactly the shifts dated within the week, each as often as in the list |
| `Export.FilteredKeepsOrder` | components/ExportButton.tsx:29 | the week's shifts keep their list order |
| `Export.Filename` | components/ExportButton.tsx:32 | `shifts-` then the week start's date, a dot, and `json` or `csv` |
| `Export.StaffName` | components/ExportButton.tsx:50-51 | the first matching record's name, even when empty; `"Unknown"` only when no record matches |
| `Export.Csv` | components/ExportButton.tsx:48-53 | the text starts with the header line and its newline; with no shifts it is the header alone |
| `Export.CsvCells` | components/ExportButton.tsx:50-51 | the four cells of a row; `Export.CsvRowAvoids` and `Export.CsvRowCells` state what they hold |
| `Export.CsvRow` | components/ExportButton.tsx:51 | one CSV row; `Export.CsvRowText` spells it out |
| `Export.CsvRows` | components/ExportButton.tsx:49-52 | one row per shift, in order; `Export.CsvLines` reads them back as the lines after the header |
| `Export.CsvRowText` | components/ExportButton.tsx:51 | a row is the date, the name in double quotes, start and end, comma-separated, with nothing escaped |
| `Export.Join4` | components/ExportButton.tsx:51 | four cells joined have the separator between each neighbouring pair and nowhere else |
| `Export.CsvRowsAvoidNewline` | components/ExportButton.tsx:51-53 | no row holds a newline when no date, time or name does |
| `Export.CsvRowCells` | components/ExportButton.tsx:51 | when no field holds a comma, splitting a row at commas gives back its four cells |
| `Export.CsvLines` | components/ExportButton.tsx:48-53 | when no field holds a newline, the lines are the header line, then one row per shift in order, with no trailing newline |
| `Export.HandleExport` | components/ExportButton.tsx:31-58 | the file name; JSON holds the timestamps, the full staff list and only the week's shifts; CSV holds the CSV text of the week's shifts |
| `Export.CsvRowExample` | components/ExportButton.tsx:51 | Ann's shift on 2024-06-03 from 09:00 to 17:00 gives `2024-06-03,"Ann",09:00,17:00` |
| `Export.CsvRowUnknownExample` | components/ExportButton.tsx:51 | a shift whose staff record is missing is exported under `"Unknown"` |
| `Export.StaffNameAvoids` | components/ExportButton.tsx:51 | a character in no name and not in `Unknown` is not in the resolved name |
| `Export.CsvRowAvoids` | components/ExportButton.tsx:51 | a character in no field is in no cell, and not in the row unless it is the comma |
| `Export.JoinAvoids` | components/ExportButton.tsx:53 | a character in no part, other than the separator, is not in the joined text |
| `Text.Join` | components/ExportButton.tsx:53 | the joined text starts with the first part; `Text.SplitJoin` shows splitting undoes it |
| `Text.Split` | components/ExportButton.tsx:53 | at least one piece, and no piece holds the separator |
| `Text.SplitPlain` | components/ExportButton.tsx:53 | text without the separator splits into itself |
| `Text.SplitFirst` | components/ExportButton.tsx:53 | splitting takes off the text before the first separator as one piece |
| `Text.SplitJoin` | components/ExportButton.tsx:53 | splitting a join gives back the parts, when no part holds the separator |
| `ShiftForm.SubmittedShift` | components/ShiftFormModal.tsx:47-56 | a shift exactly when all four fields are non-empty; its id is the initial shift's or the fresh one; its fields are the form's |
| `ShiftForm.SubmitUnchangedEdit` | components/ShiftFormModal.tsx:38-56 | submitting a dialog loaded from a complete shift, untouched, gives back that shift |
| `ShiftForm.SubmitDefaultsSavesNothing` | components/ShiftFormModal.tsx:33-48 | a new dialog with its default fields saves nothing |
| `ShiftForm.ShiftFormModal.constructor` | components/ShiftFormModal.tsx:32-36 | closed, with fields `""`, `""`, `09:00`, `17:00` |
| `ShiftForm.ShiftFormModal.LoadInitialShift` | components/ShiftFormModal.tsx:38-45 | with an initial shift, all four fields are loaded from it; without one, nothing changes |
| `ShiftForm.ShiftFormModal.HandleSubmit` | components/ShiftFormModal.tsx:47-60 | hands `SubmittedShift` of the current fields to `onSave`, and closes only when something was saved |
| `Cards.UpdatedStaff` | components/StaffCard.tsx:35-39 | the same id, with the name and role replaced |
| `Cards.UpdateAppendsSecondRecord` | components/StaffCard.tsx:34-41 | after an update two records share the id, and every lookup by the id finds what it found before |
| `Cards.StaffCard.constructor` | components/StaffCard.tsx:29-32 | the dialog is closed, and its name and role are the card's |
| `Cards.StaffCard.HandleUpdate` | components/StaffCard.tsx:34-41 | with no field check, appends the updated record through `addStaff`, writes the list, and closes the dialog |
| `Cards.StaffCard.HandleDelete` | components/StaffCard.tsx:88 | removes every record with the card's id, duplicates included, and writes the list |
| `Home.NewStaff` | app/page.tsx:28-34 | a record exactly when name and role are non-empty, carrying the fresh id and the name and role as entered |
| `Home.HomePage.constructor` | app/page.tsx:23-25 | the dialog is closed and its fields are empty |
| `Home.HomePage.HandleAdd` | app/page.tsx:27-40 | with an empty name or role nothing changes; otherwise exactly one record is appended and written, then the fields clear and the dialog closes |
| `Home.HomePage.RenderCards` | app/page.tsx:55-57 | one fresh card per record, in list order, each starting from its record's name and role |

## Left out

- Rendering: JSX, dialogs, dropdowns, CSS classes and the floating button. Each
  input's `onChange` only sets one field; the fields are public, so a client
  assigns them directly.
- The shift form's start and end time inputs are commented out
  (components/ShiftFormModal.tsx:100-119). There the times stay `09:00` and
  `17:00` unless `initialShift` loads them. `ShiftForm.ShiftFormModal` still has
  public `startTime`/`endTime` fields, so the model allows assignments the form
  does not offer.
- The browser has one `localStorage`; the model uses one typed `Storage.Store`
  per record type (`Store<Staff>` for `"staff"`, `Store<Shift>` for `"shifts"`),
  each with its own `inBrowser`. The two lists use disjoint keys and no code reads
  one list's key as the other's type, so no read or write is lost. A mixed-up
  key, such as reading `"shifts"` as staff, cannot be expressed.
- The download: the Blob, `URL.createObjectURL` and the anchor click.
  `Export.HandleExport` returns the file name and content that would be handed
  over. The `JSON.stringify(data, null, 2)` text is not modelled; the payload is a
  datatype.
- `JSON.parse` of text that is not a serialised array: `Storage.Raw` holds only the
  empty string or an array of records.
- `uuid()`, the clock and the `date-fns`/`toISOString` conversions are foreign code.
  They become the parameters `freshId`, `today`, `exportedAt`, `weekStartStamp` and
  `iso`. Time zones are not modelled: the UTC date that `toISOString` gives can
  differ from the local day.
- The `"shift-week"` restore and save effects (components/ShiftCalendar.tsx:38-52)
  are left out. They are effect timing around local storage. A restored week
  start need not be a Monday, which `Calendar.ShiftCalendar.Valid` would not
  cover.
- React state timing: each component calls `useStaff`/`useShifts` itself and so
  holds its own snapshot. The model shares one repository per list. It takes
  `setState` as immediate.
- The stale `format` when a menu item calls `setFormat` and then `handleExport`
  (components/ExportButton.tsx:80-81). `Export.HandleExport` takes the format as
  chosen.
- React's handling of duplicate `key`s, which appear once a staff edit has
  appended a second record with the same id.
- `Storage.Store.SetData` requires `inBrowser`. The source's `setData` throws
  outside a browser, and every write comes from a click handler, which runs only
  in a browser.
