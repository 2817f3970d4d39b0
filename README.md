# Sofia expense tracker and academic calendar: a Dafny model

The application is a shared tracker of a student's college expenses. Two payers, Leslie and Ian, split the costs 50/50. This project models the logic behind its screens.

- **Expense service.** Per-payer totals, percentages and what each side owes. The case-insensitive payer filter and the date-range filter. The CSV export text and file name. The timestamp fallback and newest-first sort applied to a snapshot of records. The defaults `addExpense` fills in.
- **Views over the service.**
  - The expense list: the payer filter then the date filter, the empty state and labels, and the delete-confirmation state.
  - The export button.
  - The summary card: the balance message with its one-cent tolerance, and the badges.
  - The date-range picker: presets and custom range.
  - The demo app's in-memory list.
- **Calendars.**
  - The tuition payment schedule and its "next payment due" rule.
  - The academic event table with its lookups and per-month event list.
  - The month view of the academic calendar: navigation, selection, and the grid of day cells.
  - The relative-time labels and action descriptions of the activity history.

**Modules.** Each source file is one module:

| module | source file |
|---|---|
| `ExpenseService` | `expenseService.js` |
| `ExpenseList` | `ExpenseList.js` |
| `ExportButton` | `ExportButton.js` |
| `ExpenseSummary` | `ExpenseSummary.js` |
| `DateRangeFilter` | `DateRangeFilter.js` |
| `PaymentSchedule` | `paymentSchedule.js` |
| `CalendarData` | `academicCalendar.js` |
| `AcademicCalendar` | `AcademicCalendar.js` |
| `ActivityHistory` | `ActivityHistory.js` |
| `AppDemo` | `AppDemo.js` |

Four support modules hold the JavaScript built-ins the code relies on:

- `Text`: lower-casing, digits, `split` and `join`, and quote doubling.
- `JsDate`: the `Date` arithmetic of ECMA-262, with local time taken as UTC.
- `Seqs`: `Array.prototype.filter` and sums.
- `Sorting`: `Array.prototype.sort`, modelled as a stable insertion sort.

**Representations.**
- Money is integer cents.
- The amounts owed are `real` cents, because half of an odd total is a half cent.
- A percentage is either the number 0 or the `toFixed(1)` text kept as tenths.
- A Date is a time value in milliseconds, or `Invalid` (NaN).
- A calendar date is `Date(year, month, day)` with a 0-based month.

**State.**
- Where a component keeps React state, the model is a class whose methods update the same fields: the delete modal, the date picker, the calendar view and the demo list.
- Loops become methods with loop invariants, each proved equal to a specification function: the totals, the snapshot normalisation, the month event list and the calendar grid.
- The clock ("now", "today") is a parameter everywhere.

## Model

| member | source | states |
|---|---|---|
| `ExpenseService.AmountOf` | src/services/expenseService.js:132 | a missing or non-numeric amount counts 0; otherwise the amount itself |
| `ExpenseService.CalculateTotals` | src/services/expenseService.js:128-150 | the loop's total, buckets, percentages and owed amounts equal `TotalsOf`, the sums over the whole list |
| `ExpenseService.BucketsPartitionTotal` | src/services/expenseService.js:133-139 | total = leslie + ian + amounts of unrecognised payers; with every payer recognised, total = leslie + ian |
| `ExpenseService.BucketsAtMostTotal` | src/services/expenseService.js:135-139 | with non-negative amounts, leslie + ian <= total |
| `ExpenseService.NonNumericContributesNothing` | src/services/expenseService.js:132-133 | appending a record with a non-numeric amount changes no figure of the totals |
| `ExpenseService.TotalsIgnoreOrder` | src/services/expenseService.js:131-140 | two lists with the same records in any order have the same totals |
| `ExpenseService.Tenths` | src/services/expenseService.js:142-143 | the result is 1000 * part / whole rounded to the nearest integer, a tie going away from zero (both bounds stated) |
| `ExpenseService.PercentOf` | src/services/expenseService.js:142-143 | the percentage is the number 0 exactly when the total is not positive |
| `ExpenseService.PercentagesSum` | src/services/expenseService.js:142-143 | with recognised payers, non-negative amounts and a positive total, the two one-decimal percentages add up to 100.0 or 100.1 |
| `ExpenseService.PercentagesCanExceedHundred` | src/services/expenseService.js:142-143 | $1.00 and $15.00 give 6.3 and 93.8, which add up to 100.1 |
| `ExpenseService.Owes` | src/services/expenseService.js:145-147 | never negative; positive exactly when the part is below half the total, and then equal to half the total minus the part |
| `ExpenseService.OwesSplit` | src/services/expenseService.js:145-147 | both owed amounts are >= 0; with recognised payers at most one is positive, and it is half the difference of the buckets |
| `ExpenseService.FilterExpenses` | src/services/expenseService.js:152-155 | "all" returns the list unchanged; any other filter returns only records whose payer equals it ignoring case |
| `ExpenseService.FilterExpensesSpec` | src/services/expenseService.js:152-155 | for any filter, a record is kept with its full multiplicity exactly when the filter is "all" or its payer matches case-insensitively, and the result is an order-preserving subsequence |
| `ExpenseService.FilterExpensesIgnoresCase` | src/services/expenseService.js:154 | filters that differ only in letter case select the same records |
| `ExpenseService.FilterExpensesIdempotent` | src/services/expenseService.js:152-155 | filtering twice by the same payer equals filtering once |
| `ExpenseService.NumberOf` | src/services/expenseService.js:165 | `Number` of a part holding only decimal digits is their value, so the empty part is 0; any other part is NaN |
| `ExpenseService.DateTextTime` | src/services/expenseService.js:165-166 | a date text with fewer than three '-' parts, or a non-digit year, month or day part, is an invalid Date; a valid one is a midnight |
| `ExpenseService.FilterDate` | src/services/expenseService.js:161-171 | no Date (the record is dropped) exactly for a missing, empty or other-typed date; a Date is kept as it is; a non-empty string is read as year, month and day |
| `ExpenseService.FilterByDateRange` | src/services/expenseService.js:157-177 | no range, or both bounds null, keeps the list; otherwise every kept record is in range and the list does not grow |
| `ExpenseService.FilterByDateRangeSpec` | src/services/expenseService.js:157-177 | for any range, a record is kept with its multiplicity exactly when the range has no bound or the record is within the bounds; the order is kept; under a bound, missing, empty and non-string non-Date dates are dropped |
| `ExpenseService.KeptIsBetween` | src/services/expenseService.js:173-174 | a kept record with a valid date satisfies start <= date <= end for each valid bound |
| `ExpenseService.FilterByDateRangeIdempotent` | src/services/expenseService.js:157-177 | applying the date filter twice equals applying it once |
| `ExpenseService.SplitIsoText` | src/services/expenseService.js:165 | a "YYYY-MM-DD" text splits on '-' into its year, month and day parts |
| `ExpenseService.IsoTextTime` | src/services/expenseService.js:165-166 | a well-formed "YYYY-MM-DD" text from year 100 on is read as local midnight of that calendar day |
| `ExpenseService.AmountText` | src/services/expenseService.js:212 | the decimal text of an amount is never empty |
| `ExpenseService.RemoveFirstComma` | src/services/expenseService.js:207 | a text with a comma loses exactly its first comma, everything before and after it kept; a text without one is unchanged |
| `ExpenseService.DateCell` | src/services/expenseService.js:205-207 | a string with '-' is kept as it is; a missing date is empty; a string without '-' is "Invalid Date"; a Date is its locale text with the first comma removed |
| `ExpenseService.RowCells` | src/services/expenseService.js:204-216 | a row has five cells, with the payer (or "") second and the quoted description and note fourth and fifth |
| `ExpenseService.Rows` | src/services/expenseService.js:204-218 | one comma-joined row per record, in list order |
| `ExpenseService.ExportToCsv` | src/services/expenseService.js:199-226 | null exactly for a missing or empty list; otherwise the content is the header line then the rows, joined with newlines |
| `ExpenseService.ExportFileName` | src/services/expenseService.js:224-226 | the file name is `sofia-expenses-<all or lower-cased filter>-<YYYY-MM-DD>.csv`, and its filter part is already lower case |
| `ExpenseService.CsvLines` | src/services/expenseService.js:218 | when no cell holds a line break, the content splits on newlines into the header and one line per record |
| `ExpenseService.CsvRowRoundTrip` | src/services/expenseService.js:209-218 | when no cell holds a comma, a row splits back into its cells, and the description and note un-quote to the record's texts |
| `ExpenseService.OrOne` | src/services/expenseService.js:102 | a missing or zero month or day falls back to 1, so the fallback is never 0 |
| `ExpenseService.SnapshotDateTime` | src/services/expenseService.js:100-102 | a lone digit year is January 1 of that year; a non-digit year is an invalid Date; a valid result is a midnight |
| `ExpenseService.NormalizedTime` | src/services/expenseService.js:95-105 | the timestamp falls back in order: Firestore `timestamp`, then Firestore `createdAt`, then the date string read with missing month or day as 1, then now |
| `ExpenseService.Normalized` | src/services/expenseService.js:107-111 | the pushed record carries the snapshot id and every data field unchanged, with the timestamp replaced by the normalised time |
| `ExpenseService.NewestFirst` | src/services/expenseService.js:115 | for two valid timestamps, `a` may stay before `b` exactly when `b` is no newer than `a`; a NaN key compares as equal |
| `ExpenseService.NormalizeAll` | src/services/expenseService.js:107-111 | one normalised record per document, in snapshot order |
| `ExpenseService.NormalizeSnapshot` | src/services/expenseService.js:90-115 | the pushed-then-sorted list equals the normalised list sorted with the newest-first comparator |
| `ExpenseService.SnapshotIsPermutation` | src/services/expenseService.js:115 | the sorted list holds exactly the normalised records |
| `ExpenseService.SnapshotNewestFirst` | src/services/expenseService.js:115 | when every timestamp is valid, the list runs from newest to oldest |
| `ExpenseService.SnapshotStable` | src/services/expenseService.js:115 | records with equal time values keep their snapshot order |
| `ExpenseService.NewExpenseData` | src/services/expenseService.js:28-35 | every input field is kept; a missing or empty date becomes today's ISO date; a missing or empty note becomes ""; both stamps are now |
| `ExpenseList.DisplayedExpenses` | src/components/ExpenseList.js:12-13 | a record is shown, with its multiplicity, exactly when both the payer filter and the date range select it; the shown list keeps input order |
| `ExpenseList.FiltersCommute` | src/components/ExpenseList.js:12-13 | applying the two filters in the other order gives the same list |
| `ExpenseList.Render` | src/components/ExpenseList.js:59-86 | the empty state appears exactly when nothing is shown, with the prompt for the filter; otherwise the heading, the count of the shown records, the records, and the unfiltered list for export |
| `ExpenseList.EmptyPrompt` | src/components/ExpenseList.js:67-69 | the invitation to add a first expense exactly under "all"; otherwise a prompt naming the filtered payer |
| `ExpenseList.Heading` | src/components/ExpenseList.js:80 | "All Expenses" under "all"; otherwise the payer's name followed by "'s Expenses" |
| `ExpenseList.CountLabel` | src/components/ExpenseList.js:84 | the number, a space, then "expense" exactly when the number is 1 |
| `ExpenseList.CountLabelSpec` | src/components/ExpenseList.js:84 | the count label starts with the number shown, and reads "expense" exactly when it is 1 |
| `ExpenseList.ExportIgnoresDateRange` | src/components/ExpenseList.js:86 | whenever the list renders, its export button succeeds, and the file is the CSV of the payer-filtered records, with no date range involved |
| `ExpenseList.DeleteState.constructor` | src/components/ExpenseList.js:7-9 | the modal starts closed, with nothing selected and no delete in progress |
| `ExpenseList.DeleteState.HandleDeleteClick` | src/components/ExpenseList.js:15-18 | the record is remembered and the modal opens |
| `ExpenseList.DeleteState.HandleConfirmDelete` | src/components/ExpenseList.js:20-42 | with nothing selected nothing changes; otherwise the selected id is deleted and the in-progress flag ends false; demo mode or a successful delete closes the modal and clears the selection; a failed delete leaves both as they were |
| `ExpenseList.DeleteState.HandleCancelDelete` | src/components/ExpenseList.js:44-47 | the modal closes and the selection is cleared |
| `ExportButton.HandleExport` | src/components/ExportButton.js:5-18 | an empty payer-filtered set alerts without exporting; otherwise the export is of the payer-filtered set |
| `ExportButton.ExportNeverFails` | src/components/ExportButton.js:13-17 | the failure alert is unreachable, because a non-empty set always exports |
| `ExportButton.ButtonText` | src/components/ExportButton.js:20-26 | the label is "Export CSV" exactly when the payer-filtered set is empty |
| `ExportButton.ButtonCountMatchesExport` | src/components/ExportButton.js:20-26 | the label is "Export All (n)" or "Export <filter>'s (n)"; n is the size of the exported set and the file has n data lines |
| `ExpenseSummary.BalanceMessage` | src/components/ExpenseSummary.js:34-51 | "Leslie owes Ian" exactly when Leslie owes more than one cent; else "Ian owes Leslie" exactly when Ian does; else balanced |
| `ExpenseSummary.BalanceByDifference` | src/components/ExpenseSummary.js:34-51 | with recognised payers, balanced exactly when the buckets differ by at most two cents; otherwise the side that paid less owes half the difference |
| `ExpenseSummary.Badge` | src/components/ExpenseSummary.js:13-19 | the badge is shown exactly when the percentage is the toFixed text, and never for the number 0 |
| `ExpenseSummary.CardsSpec` | src/components/ExpenseSummary.js:68-81 | over the whole list, both targets are half the total; badges show exactly when the total is positive; the bucket plus what that side owes is the target |
| `ExpenseSummary.LeslieCard` | src/components/ExpenseSummary.js:68-74 | Leslie's card shows her bucket, half the total as target, and a badge exactly when her percentage is the toFixed text |
| `ExpenseSummary.IanCard` | src/components/ExpenseSummary.js:75-81 | Ian's card shows his bucket, half the total as target, and a badge exactly when his percentage is the toFixed text |
| `ExpenseSummary.ZeroBadgeShown` | src/components/ExpenseSummary.js:13-19 | a positive total with Leslie's bucket at 0 still shows a "0.0" badge |
| `DateRangeFilter.GetDateRange` | src/components/DateRangeFilter.js:9-66 | "all" and unknown presets give null bounds; the five presets give a start and end 23:59:59.999 of today |
| `DateRangeFilter.PresetBounds` | src/components/DateRangeFilter.js:11-57 | each preset starts at midnight of its start day, no later than today, and ends at 23:59:59.999 of today; so start <= now <= end |
| `DateRangeFilter.StartOfDayOfMidnightPlus` | src/components/DateRangeFilter.js:11-15 | `setHours(0,0,0,0)` on a time of a day gives that day's midnight |
| `DateRangeFilter.MonthStartBounds` | src/components/DateRangeFilter.js:37-57 | the first of the current month or of January is no later than today, and within the range of time values |
| `DateRangeFilter.WeekStartDate` | src/components/DateRangeFilter.js:29-35 | "week" starts on the date `new Date(y, m, d - 7)` denotes, seven calendar days before today |
| `DateRangeFilter.WeekCrossesYear` | src/components/DateRangeFilter.js:29-31 | from January 3, the week start is December 27 of the year before |
| `DateRangeFilter.QuarterOverflow` | src/components/DateRangeFilter.js:44-46 | from May 31 of a leap year, the quarter start is March 2, since February 31 overflows |
| `DateRangeFilter.TodayPassesEveryPreset` | src/components/DateRangeFilter.js:22-65 | an expense dated today in ISO form passes every preset's range |
| `DateRangeFilter.CustomRangeInclusive` | src/components/DateRangeFilter.js:75-80 | a record dated from the custom start day to the custom end day, both included, passes the custom range |
| `DateRangeFilter.CustomBound` | src/components/DateRangeFilter.js:78-79 | a bound is valid exactly when its text is a "YYYY-MM-DD" date; it falls on that day, at midnight or at 23:59:59 |
| `DateRangeFilter.CustomRange` | src/components/DateRangeFilter.js:77-80 | both bounds are set, from the start day's midnight to 23:59:59 of the end day, each invalid exactly when its text does not parse |
| `DateRangeFilter.DateRangeFilterState.constructor` | src/components/DateRangeFilter.js:4-7 | the picker starts on "all", with empty inputs and custom mode off |
| `DateRangeFilter.DateRangeFilterState.HandlePresetChange` | src/components/DateRangeFilter.js:68-73 | selects the preset, leaves custom mode, keeps the inputs and emits the preset's range |
| `DateRangeFilter.DateRangeFilterState.HandleCustomRangeApply` | src/components/DateRangeFilter.js:75-84 | with both inputs filled, it emits the custom range and marks "custom"; otherwise it emits nothing and changes nothing |
| `DateRangeFilter.DateRangeFilterState.ClearCustomRange` | src/components/DateRangeFilter.js:86-92 | empties both inputs, leaves custom mode, selects "all" and emits null bounds |
| `DateRangeFilter.DateRangeFilterState.ToggleCustomRange` | src/components/DateRangeFilter.js:132 | flips custom mode and nothing else |
| `DateRangeFilter.DateRangeFilterState.SetStartDate` | src/components/DateRangeFilter.js:149 | sets the start input and nothing else |
| `DateRangeFilter.DateRangeFilterState.SetEndDate` | src/components/DateRangeFilter.js:157 | sets the end input and nothing else |
| `PaymentSchedule.ScheduleDatesValid` | src/data/paymentSchedule.js:2-73 | every schedule entry is a real calendar date |
| `PaymentSchedule.DueTimeIsMidnight` | src/data/paymentSchedule.js:83 | every due date is read as a local midnight |
| `PaymentSchedule.NextPaymentsDue` | src/data/paymentSchedule.js:76-99 | never returns more payments than the schedule has |
| `PaymentSchedule.FuturePayments` | src/data/paymentSchedule.js:80-86 | holds the future entries with their multiplicities, every one due strictly after now |
| `PaymentSchedule.FutureSpec` | src/data/paymentSchedule.js:80-86 | the future list holds exactly the entries due after now, with their multiplicities, earliest first |
| `PaymentSchedule.FirstIsEarliest` | src/data/paymentSchedule.js:86-93 | the first future entry is due no later than any future entry |
| `PaymentSchedule.NextPaymentsSameDay` | src/data/paymentSchedule.js:93-98 | all returned payments fall on one calendar day |
| `PaymentSchedule.NextPaymentsInFuture` | src/data/paymentSchedule.js:85 | every returned payment is due strictly after now |
| `PaymentSchedule.NextPaymentsEarliest` | src/data/paymentSchedule.js:86-93 | no future entry is due before the returned day |
| `PaymentSchedule.NextPaymentsComplete` | src/data/paymentSchedule.js:96-98 | every future entry due on the returned day is returned, as often as it occurs |
| `PaymentSchedule.NextPaymentsDueEmpty` | src/data/paymentSchedule.js:88-90 | the result is empty exactly when no entry is due after now |
| `PaymentSchedule.CeilDays` | src/data/paymentSchedule.js:109 | the result d is the ceiling of the whole days: (d - 1) days < diff <= d days |
| `PaymentSchedule.DaysUntilNextPayment` | src/data/paymentSchedule.js:102-112 | 0 when nothing is due; otherwise the days to the next due date, rounded up |
| `PaymentSchedule.DaysUntilAtLeastOne` | src/data/paymentSchedule.js:102-112 | when a payment is due the count is at least 1 |
| `CalendarData.EveryTypeHasColorAndLabel` | src/data/academicCalendar.js:805-821 | every event type, hence every event in the table, has a color and a label |
| `CalendarData.GetEventsForDate` | src/data/academicCalendar.js:823-825 | the day's list when year, month and day are all present; otherwise [] |
| `CalendarData.HasEvents` | src/data/academicCalendar.js:827-829 | true exactly when `GetEventsForDate` is non-empty |
| `CalendarData.TableHasIndependenceDay` | src/data/academicCalendar.js:1-803 | the table lists Independence Day on July 4, 2024 |
| `CalendarData.TableMissesDay` | src/data/academicCalendar.js:827-829 | a day of a listed month without an entry has no events |
| `CalendarData.TableMissesYear` | src/data/academicCalendar.js:823-825 | a year absent from the table gives [] |
| `CalendarData.SortedKeys` | src/data/academicCalendar.js:835 | the integer keys in strictly ascending order, each once, as `Object.entries` lists them |
| `CalendarData.DayEntries` | src/data/academicCalendar.js:836-842 | one entry per event of the day, in order, each with its day and the Date `new Date(year, month - 1, day)` |
| `CalendarData.GetMonthEvents` | src/data/academicCalendar.js:831-846 | the nested loops and sort give the sorted entries of the month's days in key order |
| `CalendarData.EntriesOfDaysSpec` | src/data/academicCalendar.js:835-843 | there are as many entries as the listed days have events, each with a listed day, one of its events, and its Date |
| `CalendarData.EntriesOfDaysSorted` | src/data/academicCalendar.js:835-845 | listing days in ascending order gives entries already in day order |
| `CalendarData.AbsentMonthEmpty` | src/data/academicCalendar.js:832 | an absent year or month gives [] |
| `CalendarData.MonthEventsSpec` | src/data/academicCalendar.js:831-846 | one entry per event of the month, each carrying its day key, an event of that day and the Date built with the month key minus one; ascending by day, so the final sort leaves the loop order unchanged |
| `AcademicCalendar.GetDate` | src/components/AcademicCalendar.js:19 | `getDate` is a day 1..31 of a valid Date and NaN of an invalid one |
| `AcademicCalendar.GetDay` | src/components/AcademicCalendar.js:23 | `getDay` is 0..6 of a valid Date and NaN of an invalid one |
| `AcademicCalendar.NewDateDay` | src/components/AcademicCalendar.js:18-24 | `new Date(year, month, day)` is the midnight of MakeDay for the full year, valid within years 0..9999 |
| `AcademicCalendar.LastDayOfMonth` | src/components/AcademicCalendar.js:18-20 | day 0 of the next month falls on the month's last day |
| `AcademicCalendar.FirstOfMonth` | src/components/AcademicCalendar.js:22-24 | the first of the month is the midnight of its day number |
| `AcademicCalendar.DaysInMonth` | src/components/AcademicCalendar.js:18-20 | the Gregorian length of the month, February 29 in leap years; always a number in years 0..9999 |
| `AcademicCalendar.FirstDayOfMonth` | src/components/AcademicCalendar.js:22-24 | a number 0..6, the week day of the first of the month; always a number in years 0..9999 |
| `AcademicCalendar.Count` | src/components/AcademicCalendar.js:82-89 | a counting loop runs n times for a number n >= 0 and never for NaN |
| `AcademicCalendar.IsToday` | src/components/AcademicCalendar.js:26-30 | true exactly when the cell's date is today |
| `AcademicCalendar.IsSelected` | src/components/AcademicCalendar.js:32-37 | true exactly when the selection is this day of the month and year shown |
| `AcademicCalendar.MonthStep` | src/components/AcademicCalendar.js:56-71 | the month stays in 0..11 and months since year 0 go down by one for "prev", up by one otherwise |
| `AcademicCalendar.MonthStepInverse` | src/components/AcademicCalendar.js:56-71 | "next" then "prev", and "prev" then "next", restore the month and year |
| `AcademicCalendar.MonthStepWraps` | src/components/AcademicCalendar.js:56-71 | forward from December goes to January of the next year; back from January goes to December of the year before |
| `AcademicCalendar.Kinds` | src/components/AcademicCalendar.js:112 | the first n events' types, in order |
| `AcademicCalendar.DayCell` | src/components/AcademicCalendar.js:90-126 | today's highlight beats the selection, which beats the event highlight (looked up with month + 1); dots appear only on event-highlighted days, and show the types of the first min(3, events) events |
| `AcademicCalendar.CalendarDaysAt` | src/components/AcademicCalendar.js:76-131 | cell i is a blank before the first day's column, otherwise the cell of day i - start + 1 |
| `AcademicCalendar.CalendarDays` | src/components/AcademicCalendar.js:76-131 | blanks for the week-day columns before the first, then one cell per day of the month, day k at position start + k - 1 |
| `AcademicCalendar.GridLength` | src/components/AcademicCalendar.js:76-89 | the grid has week-day-of-the-first blanks plus month-length days, at most 42 cells |
| `AcademicCalendar.GridLayout` | src/components/AcademicCalendar.js:82-89 | the cells before the first's week day are blank; after it, cell i is day i - start + 1 |
| `AcademicCalendar.GridColumns` | src/components/AcademicCalendar.js:151-159 | day k sits in column (start + k - 1) mod 7, which is its own week day under the Sun..Sat header |
| `AcademicCalendar.TodayCellIsToday` | src/components/AcademicCalendar.js:99-100 | a cell highlighted as today shows today's date, at its place in the grid |
| `AcademicCalendar.TodayHighlightedOnce` | src/components/AcademicCalendar.js:99-100 | at most one cell is highlighted as today, and only in today's month |
| `AcademicCalendar.DotColor` | src/components/AcademicCalendar.js:115-121 | as written: every type except break gets its legend color |
| `AcademicCalendar.BreakDotDisagreesWithLegend` | src/components/AcademicCalendar.js:115-121 | a break dot is "bg-cal-poly-surf", while the legend gives break "bg-orange-500" |
| `AcademicCalendar.DotColorCorrected` | src/components/AcademicCalendar.js:115-121 | the dot color with the break case added; agrees with the as-written color elsewhere |
| `AcademicCalendar.DotColorMatchesLegend` | src/components/AcademicCalendar.js:168-175 | each corrected dot color is its type's legend color and the background of its type's color in the event table |
| `AcademicCalendar.CellDotColors` | src/components/AcademicCalendar.js:112-121 | as written: one color per dot of a day cell, each the chain's color for its type, which is the legend color for every type but break; none for a blank |
| `AcademicCalendar.CellDotColorsCorrected` | src/components/AcademicCalendar.js:112-121 | with the break case added, every dot has its type's legend color, and all but break dots get the as-written color |
| `AcademicCalendar.Legend` | src/components/AcademicCalendar.js:164-180 | six entries, one per event type, each with its label and legend color |
| `AcademicCalendar.CalendarView.constructor` | src/components/AcademicCalendar.js:7-11 | the view opens on today's month and year, with nothing selected and no event list open |
| `AcademicCalendar.CalendarView.HandleDateClick` | src/components/AcademicCalendar.js:39-54 | clicking the selected day deselects it and hides events; another day becomes selected, with events shown exactly when it has some (looked up with month + 1) |
| `AcademicCalendar.CalendarView.NavigateMonth` | src/components/AcademicCalendar.js:56-74 | moves to `MonthStep` of the month shown, keeps the month in 0..11, clears the selection and hides events |
| `AcademicCalendar.CalendarView.RenderCalendarDays` | src/components/AcademicCalendar.js:76-131 | the two loops build exactly the blanks and then the day cells of `CalendarDays` |
| `ActivityHistory.FormatTimestamp` | src/components/ActivityHistory.js:51-73 | a falsy timestamp is empty; under a minute, including the future, is "just now"; then 1..59 minutes, 1..23 hours, 1..6 days as whole units elapsed; from 7 days, or for an invalid Date, the absolute date |
| `ActivityHistory.AgoText` | src/components/ActivityHistory.js:52-64 | every label but the absolute date has a text |
| `ActivityHistory.CountedLabels` | src/components/ActivityHistory.js:62-64 | a count label starts with its number, never reads "0 …", and ends in "s ago" exactly when the number is above one |
| `ActivityHistory.FormatTimestampMonotone` | src/components/ActivityHistory.js:56-64 | a later "now" never gives a younger label |
| `ActivityHistory.ActionIcon` | src/components/ActivityHistory.js:25-36 | any action other than add, delete or update gets the default icon |
| `ActivityHistory.ActionColor` | src/components/ActivityHistory.js:38-49 | any action other than add, delete or update gets the default color |
| `ActivityHistory.KnownActionsDistinct` | src/components/ActivityHistory.js:25-49 | the three known actions and the fallback get four different icons and four different colors |
| `ActivityHistory.ShownAmount` | src/components/ActivityHistory.js:77 | the amount is shown exactly when present and non-zero |
| `ActivityHistory.ShownPayer` | src/components/ActivityHistory.js:84-91 | the payer is shown exactly when present and non-empty |
| `ActivityHistory.ActionDescription` | src/components/ActivityHistory.js:75-103 | add, delete and update give their descriptions with the details shown; any other action is "Unknown action" |
| `ActivityHistory.DescriptionText` | src/components/ActivityHistory.js:100-101 | an unknown action reads "Unknown action" |
| `ActivityHistory.DescriptionStartsWithVerb` | src/components/ActivityHistory.js:83-97 | each description starts with "Added expense: ", "Deleted expense: " or "Updated expense: " |
| `AppDemo.MockStampsAreMidnights` | src/AppDemo.js:16-48 | each sample timestamp is the midnight of its date |
| `AppDemo.Stamped` | src/AppDemo.js:58-62 | the new record keeps every input field and gets the clock's id and timestamp |
| `AppDemo.DeleteSpec` | src/AppDemo.js:67-69 | no record with the id remains; the others keep their multiplicity and order |
| `AppDemo.DeleteAbsentId` | src/AppDemo.js:67-69 | deleting an id no record has leaves the list unchanged |
| `AppDemo.AddThenDelete` | src/AppDemo.js:57-69 | deleting the record just added, under a fresh id, gives back the earlier list |
| `AppDemo.MockTotals` | src/AppDemo.js:9-53 | the sample totals: $1235.49, Leslie $695.50, Ian $539.99, 56.3% and 43.7%; Ian owes $77.755 and Leslie nothing |
| `AppDemo.Demo.constructor` | src/AppDemo.js:53-54 | the demo starts with the five sample records and the "all" filter |
| `AppDemo.Demo.HandleAddExpense` | src/AppDemo.js:57-64 | the stamped record is prepended and the old list follows unchanged |
| `AppDemo.Demo.HandleDeleteExpense` | src/AppDemo.js:67-69 | the list becomes the records whose id differs, in order |
| `Text.LowerIdempotent` | src/services/expenseService.js:225 | lower-casing twice equals lower-casing once |
| `Text.Split` | src/services/expenseService.js:165 | `split` always gives at least one part, and no part holds the separator |
| `Text.SplitJoin` | src/services/expenseService.js:218 | joining pieces that lack the separator and splitting again gives back the pieces |
| `Text.QuoteCell` | src/services/expenseService.js:213-214 | a quoted cell starts and ends with a double quote |
| `Text.QuoteCellRoundTrip` | src/services/expenseService.js:213-214 | un-quoting a quoted, quote-doubled cell gives back the original text |
| `Text.ParseNatText` | src/components/ExportButton.js:25 | the decimal text of a count reads back as that count |
| `JsDate.MonthLength` | src/components/AcademicCalendar.js:18-20 | 28..31 days; 29 exactly for February of a leap year, 28 for February otherwise, 30 for April, June, September and November |
| `JsDate.Normalize` | src/services/expenseService.js:166 | the date `new Date(y, m, d)` denotes is a valid date with the day number MakeDay gives |
| `JsDate.DayNumberInjective` | src/services/expenseService.js:166 | distinct valid dates have distinct day numbers |
| `JsDate.FromDayNumberOfDate` | src/services/expenseService.js:166 | a valid date is unchanged by normalisation and by a round trip through its day number |
| `JsDate.DayZeroOfNextMonth` | src/components/AcademicCalendar.js:19 | day 0 of the next month is the last day of this month |
| `JsDate.MakeDayMonthMonotone` | src/components/DateRangeFilter.js:46 | going back months never moves a date later |
| `JsDate.NewDate` | src/services/expenseService.js:166 | a valid result comes from numeric arguments and is a local midnight |
| `JsDate.TimeClip` | src/services/expenseService.js:166 | a time value is valid exactly within 8.64e15 ms of the epoch, and is then unchanged |
| `JsDate.WeekDay` | src/components/AcademicCalendar.js:23 | the week day of a day number is one of 0..6 |
| `JsDate.StartOfDay` | src/components/DateRangeFilter.js:11-15 | the first millisecond of the time's day, no later than the time |
| `JsDate.EndOfDay` | src/components/DateRangeFilter.js:16-20 | the last millisecond of the time's day, no earlier than the time |
| `JsDate.ParseIsoDate` | src/components/DateRangeFilter.js:78-79 | a parsed "YYYY-MM-DD" text is a valid date with a four-digit year |
| `JsDate.IsoDateRoundTrip` | src/services/expenseService.js:31 | writing a date in ISO form and reading it back gives the same date |
| `Seqs.FilterMultiset` | src/services/expenseService.js:154 | a filter keeps each passing element as often as it occurs and no other element |
| `Seqs.FilterIsSubsequence` | src/services/expenseService.js:160 | a filter result is an order-preserving subsequence of its input |
| `Seqs.FilterCommute` | src/components/ExpenseList.js:12-13 | two filters commute |
| `Seqs.FilterEmpty` | src/components/ExportButton.js:8 | a filter result is empty exactly when no element passes |
| `Seqs.SumPermutation` | src/services/expenseService.js:131-140 | a sum over a list does not depend on the order of its elements |
| `Seqs.SumSplit` | src/services/expenseService.js:131-140 | the sum over the passing elements plus the sum over the rest is the whole sum |
| `Sorting.SortBy` | src/services/expenseService.js:115 | sorting keeps exactly the elements it was given, with their multiplicities |
| `Sorting.SortBySorted` | src/services/expenseService.js:115 | with a comparator that is a total preorder, the sorted list is in order |
| `Sorting.SortByOfSorted` | src/data/academicCalendar.js:845 | sorting a list already in order leaves it unchanged |
| `Sorting.SortByStable` | src/services/expenseService.js:115 | elements the comparator treats as equal keep their relative order |

## Left out

**I/O and the runtime.**
- Firestore and authentication I/O are left out: `addDoc`, `deleteDoc`, `getDoc`, `onSnapshot`, `logActivity`, the activity-history subscription, and the sign-in checks. The model keeps the pure normalisation and sort applied to a snapshot list.
- A stored `id` field in a document's data overrides the document id (`...data` is spread after `id`, src/services/expenseService.js:107-111); the model keeps one `id` per record and takes it as given.
- `serverTimestamp()` and `Timestamp.now()` are modelled as the same clock value `now`.
- The CSV download mechanics are left out: the Blob, the object URL and the DOM link. The model produces the CSV text and the file name, with today's date as a parameter.
- The clock is a parameter. The two `new Date()` calls of `getDaysUntilNextPayment` are taken to read the same time.
- Time zones and daylight saving are not modelled: local time is taken as UTC.
- `Date.now().toString()` is modelled as the decimal text of the clock's milliseconds.

**Numbers and text.**
- Locale formatting is outside the model: `formatCurrency`, `formatDate`, `toLocaleDateString`, and the absolute-date branch of `formatTimestamp`.
  - `ActivityHistory.AgoText` gives no text for that branch.
  - `ActivityHistory.DescriptionText` takes the currency formatter as a parameter.
  - The CSV export takes `toLocaleDateString` as a parameter.
- IEEE-754 arithmetic is not modelled. Amounts are integer cents.
  - `parseFloat` is assumed to have produced a number of cents, or none.
  - `toFixed(1)` is modelled by exact rational rounding, a tie going away from zero.
- `Number()` on a date-string part is modelled for decimal digits and the empty string only. Signs, spaces, and hexadecimal or exponent forms read as NaN.
- `toLowerCase` is modelled on ASCII letters only; other case mappings of Unicode are not.
- ExpenseService.AmountText: only states that the text is never empty. It writes the shortest decimal of the cents, not JavaScript's number-to-string forms in general, which whole cents never need beyond that.
- ActivityHistory.ActionIcon, ActivityHistory.ActionColor: state only the fallback case. The icon and color strings of the three known actions are display constants; that the four are distinct is `ActivityHistory.KnownActionsDistinct`.
- ActivityHistory.DescriptionText: states only the unknown-action text. The JSX whitespace around the bold description is not modelled; the leading verbs are `ActivityHistory.DescriptionStartsWithVerb`.
- PaymentSchedule.NextPaymentsDue: its own contract states only the length bound; what it returns is stated by the `NextPayments…` lemmas.

**Dates.**
- Date strings are parsed by hand; JavaScript's acceptance of non-ISO date strings is not modelled.
  - The payment schedule's "M/D/YYYY" strings are written as calendar dates.
  - The sample records' `new Date('2024-01-15')` values are written as their time values.
  - A custom range input is read as a strict "YYYY-MM-DD" text; anything else is an invalid Date.
- `setDate` and `setMonth` in the week and quarter presets, and `setHours` in the end of today (src/components/DateRangeFilter.js:16-20), are modelled without TimeClip. `GetDateRange` gives that end unclipped, which differs from JavaScript only on the last day of the range of time values. `PresetBounds` requires the clock to be a valid time value from year 100 on, where no clipping happens.
- `new Date(y, m, d)` maps years 0..99 to 1900..1999, as JavaScript does. Grid lemmas about the calendar are stated for years 0..9999, where every Date involved is valid.

**Behaviour deliberately not modelled.**
- The snapshot comparator with a NaN key (an invalid Date) is not a consistent order; `Array.prototype.sort` then has no defined result. The sort is modelled as a stable insertion sort, and the ordering lemmas assume valid timestamps.
- The intermediate `isDeleting = true` render of `handleConfirmDelete` is not observable in the model. The method returns with the flag false, as the handler leaves it.
- Render-only parts are left out: the avatar, the "N expenses tracked" subtitle, the month names, the pie chart, and CalendarNavigation's `onMonthChange`/`onYearChange`. Those handlers set state directly and hold no logic.
  - `AcademicCalendar.DaysInMonth` and the view therefore require the month to stay in 0..11, which `navigateMonth` preserves.
- The view's event table is a constant field set to the academic calendar table when the view is made, so its methods can be stated for any table.

**Behaviour of the code a reader may not expect** (the model follows the code):
- The week preset starts seven days before today (`getDate() - 7`, src/components/DateRangeFilter.js:31), so it spans eight calendar days, while its label reads "Last 7 Days" (src/components/DateRangeFilter.js:114) (`DateRangeFilter.WeekStartDate`).
- There is no pagination: the expense list renders every record the two filters keep (src/components/ExpenseList.js:91 maps over the whole filtered list).
- The summary card computes its totals over the full expense list. It receives the date range but ignores it, so the totals are not date-range filtered (`ExpenseSummary.CardsSpec` is stated over the list as given).
- `filterByDateRange` keeps a record whose date string parses to NaN (for example "2024-xx-01"), because every comparison with an invalid Date is false. It drops only missing dates, empty strings and values that are neither strings nor Dates.
- The two percentages can add up to 100.1 (`ExpenseService.PercentagesCanExceedHundred`), so "they sum to at most 100" does not hold.
- When the buckets differ by a cent or two, one side still owes half of that difference, so the owed amount is not 0. What holds is that the balance message reads "balanced" (`ExpenseSummary.BalanceByDifference`).

## Findings

| source | as written | input that shows it | evidently intended | confidence | as-written member | corrected member |
|---|---|---|---|---|---|---|
| src/components/AcademicCalendar.js:115-121 | the dot-color chain has no `break` case, so a break event's dot falls to "bg-cal-poly-surf" | a day whose first event has type `break` (e.g. a quarter break in the table) | the break color "bg-orange-500", as the legend (lines 168-175) and the event type colors give it | not executed | `AcademicCalendar.BreakDotDisagreesWithLegend` | `AcademicCalendar.DotColorMatchesLegend` |
