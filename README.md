# budgetviz balance projection and budget storage, in Dafny

budgetviz tracks a named budget: an initial balance, a monthly contribution and
a list of dated purchases. This project models two parts of its backend and
proves properties about them.

- **The calculation service.**
  - `getEndOfMonth`.
  - `calculateBalanceOverTime`. With no purchases it produces today's balance and twelve month-end points. Otherwise it walks day by day from the earlier of today and the first purchase to three months past the later of today and the last purchase. On each day it applies that day's purchases, then the monthly contribution on the last day of a month.
  - `calculateSuggestedContribution`, the monthly amount that brings the balance to zero by the month of the last purchase.
- **The CSV service, at the level of rows of text cells.**
  - The storage key derived from a budget's name.
  - The rows `saveBudget` writes.
  - How `loadBudget` reads rows back: the metadata row, the search for the purchase header, the filter on short rows and the default of `enabled`.

Modules:

- `Calendar` (calendar.dfy): calendar dates and the JavaScript `Date` operations the code uses. These are `new Date(y, m, 0)`, the next day, `setMonth(getMonth() + 3)` with JavaScript's overflow of surplus days, and comparisons.
- `BudgetModel` (budget.dfy): the records `Purchase`, `Budget`, `DataPoint` and `Suggestion`.
- `PurchaseOrder` (ordering.dfy): the stable sort by date and the sum of the amounts.
- `Timeline` (timeline.dfy): the reference definition of the projection. It is a list of events (one per applied purchase, one per month-end contribution) produced day by day, plus the running balance over them. It also gives an independent closed form for the month ends of a window.
- `Calculation` (calculation.dfy): the projection and the solver. The methods follow the code's loops and are proved equal to the functions, and the lemmas state what the projection and the solver promise.
- `Sequences` (seqs.dfy): three facts about sequence concatenation that the proofs share.
- `CsvStorage` (storage.dfy).
  - Name sanitisation, row building and row reading.
  - `saveBudget`'s loop and `loadBudget`'s two loops, as methods proved equal to the functions.
  - The save-then-load round trip.

The current date is a parameter, because the code reads it from the clock. The
conversion of numbers and dates to and from text is also a parameter
(`CsvStorage.CellFormat`). The round trip is stated for a budget whose own
values survive that conversion: its initial value, its monthly contribution and
each purchase's amount and date read back as written (`CsvStorage.BudgetRoundTrips`).

Two behaviours of the code are easy to misread, and the model keeps them as written:

- **Year-ahead dates.** With no purchases, the first month-end point is dated today itself when today is the last day of its month. The point dates then fail to increase strictly at that first step only (`Calculation.YearAheadDates`).
- **End of the lookahead.** `setMonth(getMonth() + 3)` keeps the day of the month rather than moving to a month end. For one purchase on 2024-03-15 seen from 2024-01-01 the walk ends on 2024-06-15, so the last contribution is on 2024-05-31 and there is none on 2024-06-30 (`Calculation.WindowExample`, `Calculation.WindowExampleMonthEnds`).

## Model

| member | source | states |
|---|---|---|
| Calendar.DaysInMonth | backend/src/services/calculationService.ts:6-8 | a month has 28 to 31 days; February has 29 exactly in a leap year |
| Calendar.EndOfMonth | backend/src/services/calculationService.ts:6-8 | `new Date(year, month + 1, 0)` is the last day of the month with month index `year * 12 + month`, and that day is a month end |
| Calendar.MinDate | backend/src/services/calculationService.ts:49 | the earlier of two dates: not after either, and one of them |
| Calendar.MaxDate | backend/src/services/calculationService.ts:50 | the later of two dates: not before either, and one of them |
| Calendar.AddMonths | backend/src/services/calculationService.ts:53 | `setMonth(getMonth() + k)` keeps the day `k` months later. When that month is shorter, the surplus days carry into the next month, and at most 3 of them spill over. For `k > 0` the result is later |
| Calendar.AddMonthsExamples | backend/src/services/calculationService.ts:53 | 2025-11-30 plus 3 months is 2026-03-02, 2023-11-30 gives 2024-03-01, and 2024-03-15 gives 2024-06-15 |
| Calendar.NextDay | backend/src/services/calculationService.ts:88-89 | the next day is later, and it is in the same month or is the first day of the next month |
| Calendar.NextDayIsSuccessor | backend/src/services/calculationService.ts:88-89 | no date lies strictly between a day and the next day |
| Calendar.MonthEndTest | backend/src/services/calculationService.ts:88-91 | "the next day is in another month" holds exactly on the last day of a month, and the month index then advances by one |
| Calendar.DayKeyOrder | backend/src/services/calculationService.ts:66 | the walk's measure increases exactly when dates move later, so the day loop ends |
| PurchaseOrder.InsertByDate | backend/src/services/calculationService.ts:40-42 | inserting one purchase adds exactly that purchase to the multiset |
| PurchaseOrder.SortByDate | backend/src/services/calculationService.ts:40-42 | the sorted sequence is a permutation of the purchases |
| PurchaseOrder.InsertKeepsSorted | backend/src/services/calculationService.ts:40-42 | inserting into a date-sorted sequence keeps it sorted |
| PurchaseOrder.SortByDateSorted | backend/src/services/calculationService.ts:40-42 | the result is sorted by date |
| PurchaseOrder.SortByDateStable | backend/src/services/calculationService.ts:40-42 | for every date, the purchases on that date keep their original relative order |
| PurchaseOrder.TotalAmount | backend/src/services/calculationService.ts:127 | the sum of no purchases is 0, and a sum of non-negative amounts is non-negative |
| PurchaseOrder.TotalAmountConcat | backend/src/services/calculationService.ts:127 | the running sum of a concatenation is the sum of the parts |
| PurchaseOrder.SortByDateTotal | backend/src/services/calculationService.ts:119-127 | sorting does not change the total of the amounts |
| PurchaseOrder.EarliestDate | backend/src/services/calculationService.ts:46 | the least date: some purchase has it and none is earlier |
| PurchaseOrder.LatestDate | backend/src/services/calculationService.ts:47 | the greatest date: some purchase has it and none is later |
| PurchaseOrder.SortByDateEnds | backend/src/services/calculationService.ts:46-47 | the first sorted purchase carries the earliest date and the last carries the latest |
| Timeline.Drain | backend/src/services/calculationService.ts:68-85 | the inner scan of one day applies only purchases dated that day and never returns more purchases than it was given |
| Timeline.Events | backend/src/services/calculationService.ts:66-101 | every event of the walk from a day to the last day is dated within those two days |
| Timeline.DrainSorted | backend/src/services/calculationService.ts:68-85 | with sorted purchases none earlier than the day, the scan applies a prefix and every purchase it leaves is later than the day |
| Timeline.DrainLeavesWindow | backend/src/services/calculationService.ts:68-85 | applied plus left is the input, and what is left stays sorted and inside the rest of the window |
| Timeline.MonthEndsBetween | backend/src/services/calculationService.ts:87-98 | the n-th contribution date of a window is the last day of the n-th month from the window's first month |
| Timeline.MonthEndsBetweenSound | backend/src/services/calculationService.ts:87-98 | every date the closed form lists is a month end from the first day to the last day |
| Timeline.MonthEndsBetweenComplete | backend/src/services/calculationService.ts:87-98 | every month end from the first day to the last day is listed by the closed form |
| Timeline.MonthEndsCount | backend/src/services/calculationService.ts:66-101 | a window holds one month end per month up to the month before the last day, plus one when the last day is itself a month end |
| Timeline.MonthEndsStep | backend/src/services/calculationService.ts:87-100 | the month ends from a day on are that day (if it is one) followed by the month ends from the next day on |
| Timeline.ContributionsAtMonthEnds | backend/src/services/calculationService.ts:66-101 | whatever the purchases, the walk contributes exactly once on each month end of the window, in order, and nowhere else |
| Timeline.AllPurchasesSpent | backend/src/services/calculationService.ts:66-85 | with sorted purchases all inside the window, the walk applies every purchase exactly once, in sorted order |
| Timeline.EventsInOrder | backend/src/services/calculationService.ts:66-101 | the walk's events go in calendar order, and a day's contribution comes after its purchases |
| Timeline.Accumulate | backend/src/services/calculationService.ts:74-95 | one data point per event |
| Timeline.AccumulateSteps | backend/src/services/calculationService.ts:74-95 | each data point carries its event's date and moves the previous balance by that event's delta |
| Timeline.NetChangeValue | backend/src/services/calculationService.ts:74-93 | a run of events changes the balance by one contribution per month end less every purchase amount |
| Timeline.AccumulateFinal | backend/src/services/calculationService.ts:55-101 | the last balance of a run is the start, less the purchases, plus the contributions |
| Timeline.RepeatedIsProduct | backend/src/services/calculationService.ts:29 | adding the contribution `n` times adds `n` times the contribution |
| Calculation.CalculateBalanceOverTime | backend/src/services/calculationService.ts:14-104 | the method the code runs returns exactly the projection `Calculation.Projection` |
| Calculation.YearAheadPoints | backend/src/services/calculationService.ts:17-36 | the no-purchase loop returns today's balance followed by 12 month-end points |
| Calculation.WalkWindow | backend/src/services/calculationService.ts:55-101 | the nested day and purchase loops return the starting point followed by the running balance over the walk's events |
| Calculation.YearAhead | backend/src/services/calculationService.ts:17-36 | 13 points, the first being today at the initial value |
| Calculation.MonthEndPoint | backend/src/services/calculationService.ts:27-33 | point `i` is dated the last day of the month `i - 1` months after today's |
| Calculation.MonthEndPointBalance | backend/src/services/calculationService.ts:20-32 | point `i` holds the initial value plus `i` times the monthly contribution |
| Calculation.WindowStart | backend/src/services/calculationService.ts:46-49 | the window opens at the earlier of today and the earliest purchase |
| Calculation.WindowEnd | backend/src/services/calculationService.ts:47-53 | the window closes three months, by `setMonth`, after the later of today and the latest purchase |
| Calculation.ProjectionEvents | backend/src/services/calculationService.ts:55-101 | every event of the walk lies inside the window |
| Calculation.Projection | backend/src/services/calculationService.ts:14-104 | there is always a first point, at the initial value. With no purchases there are 13 points starting today; otherwise one starting point on the window's first day and one point per event |
| Calculation.YearAheadBalances | backend/src/services/calculationService.ts:17-34 | with no purchases: 13 points, the first being today at the initial value, and point `i` holding initial value plus `i` contributions |
| Calculation.YearAheadMonthEnds | backend/src/services/calculationService.ts:27-28 | with no purchases, point `i >= 1` is the last day of the `i`-th month, counting the current month as the first |
| Calculation.YearAheadDates | backend/src/services/calculationService.ts:19-34 | the month-end points strictly increase. The first of them is on or after today, and equals today exactly when today is a month end |
| Calculation.WindowHoldsPurchases | backend/src/services/calculationService.ts:44-53 | every purchase lies inside the window, strictly before its last day |
| Calculation.ProjectionEventsContent | backend/src/services/calculationService.ts:66-101 | the skip branch never fires. Every purchase is applied once, in sorted order, and there is exactly one contribution per month end of the window |
| Calculation.ProjectionCount | backend/src/services/calculationService.ts:59-101 | one starting point, one point per purchase and one per month end of the window |
| Calculation.ProjectionFinalBalance | backend/src/services/calculationService.ts:55-101 | the last balance is the initial value minus all purchases plus one contribution per month end of the window |
| Calculation.ProjectionSteps | backend/src/services/calculationService.ts:59-101 | dates never decrease and stay inside the window, and each point after the first changes the balance by exactly one purchase or one contribution |
| Calculation.WindowExample | backend/src/services/calculationService.ts:44-53 | for one purchase on 2024-03-15 seen from 2024-01-01 the window is 2024-01-01 to 2024-06-15 |
| Calculation.WindowExampleMonthEnds | backend/src/services/calculationService.ts:87-98 | that window has five month ends, from 2024-01-31 to 2024-05-31 |
| Calculation.SuggestedContribution | backend/src/services/calculationService.ts:109-148 | with no purchases: amount 0, 0 months, final balance the initial value. Otherwise the answer depends only on the purchase total and the latest purchase date |
| Calculation.MonthsThrough | backend/src/services/calculationService.ts:130-133 | the months from the current month through the month of the last purchase, both counted, and at least 1 |
| Calculation.SpreadOver | backend/src/services/calculationService.ts:136-147 | the amount is never negative and is the shortfall spread evenly over the months. It covers every purchase, and exactly when there is a shortfall. The reported final balance is 0 |
| Calculation.ClampedFinalBalance | backend/src/services/calculationService.ts:141-146 | when the initial value exceeds the purchases, the amount is clamped to 0 but the final balance is still reported as 0, not the surplus left |
| Calculation.SuggestionExamples | backend/src/services/calculationService.ts:109-148 | 200 in March 2024 seen from 2024-01-01 with 1000 saved needs nothing over 3 months; 1400 of purchases with 200 saved needs 400 a month |
| CsvStorage.SafeChar | backend/src/services/csvService.ts:24 | a character maps to itself when it is in `[a-zA-Z0-9-_]`, and to `_` otherwise |
| CsvStorage.SanitizeName | backend/src/services/csvService.ts:24 | the key has the same length as the name, every character replaced one for one, and only safe characters |
| CsvStorage.BudgetFileName | backend/src/services/csvService.ts:23-26 | the file name is four characters longer than the name and ends in `.csv`; before that, each character is the name's character after replacement, and is safe |
| CsvStorage.SanitizeFixedPoint | backend/src/services/csvService.ts:24 | a name is its own key exactly when all its characters are safe |
| CsvStorage.SanitizeIdempotent | backend/src/services/csvService.ts:24 | sanitising twice is sanitising once |
| CsvStorage.SameFile | backend/src/services/csvService.ts:23-26 | two names share a file exactly when they have equal length and agree position by position after replacement |
| CsvStorage.NamesCollide | backend/src/services/csvService.ts:24-25 | the distinct names "a b" and "a_b" are both stored as `a_b.csv` |
| CsvStorage.BoolText | backend/src/services/csvService.ts:55 | `enabled.toString()` is "true" exactly for true |
| CsvStorage.MetadataRow | backend/src/services/csvService.ts:40-41 | three cells, not an empty line; read back cell by cell they are the name and the texts of the two amounts |
| CsvStorage.PurchaseRow | backend/src/services/csvService.ts:51-56 | four cells, not an empty line; cell 2 is the description and cell 3 reads `true` exactly when the purchase is enabled |
| CsvStorage.PurchaseRows | backend/src/services/csvService.ts:50-57 | one 4-cell row per purchase, in list order |
| CsvStorage.SaveBudget | backend/src/services/csvService.ts:37-57 | the loop that pushes rows builds exactly `CsvStorage.BudgetRows` |
| CsvStorage.BudgetRows | backend/src/services/csvService.ts:37-57 | four rows plus one per purchase, of which the separator at index 2 is the only empty line |
| CsvStorage.BudgetRowsLayout | backend/src/services/csvService.ts:37-57 | metadata header, metadata row, empty separator, purchase header, then date, amount, description and enabled for each purchase |
| CsvStorage.SkipEmptyLines | backend/src/services/csvService.ts:73-76 | the rows read contain no empty line and are no more than the lines given |
| CsvStorage.HeaderIndex | backend/src/services/csvService.ts:90-97 | the first row at or after the start whose first two cells are `date` and `amount`, or -1 when there is none |
| CsvStorage.Cell | backend/src/services/csvService.ts:83-86 | a cell inside the row is that cell's text, and a missing cell reads as the empty text |
| CsvStorage.PurchaseFromRow | backend/src/services/csvService.ts:103-109 | the description is cell 2; enabled is true without a fourth cell and otherwise whether it reads `true` |
| CsvStorage.UsableRows | backend/src/services/csvService.ts:102 | only rows with at least three cells are kept. `UsableRowsSplit`, with `UsableRowsAllLong` and `UsableRowsAllShort` on one-row slices, states that every such row is kept, in order, and every shorter one dropped |
| CsvStorage.UsableRowsAllLong | backend/src/services/csvService.ts:99-102 | when every row from the start on has at least three cells, all of them are kept, in order |
| CsvStorage.UsableRowsAllShort | backend/src/services/csvService.ts:99-102 | when every row from the start on has fewer than three cells, none is kept |
| CsvStorage.UsableRowsSplit | backend/src/services/csvService.ts:99-102 | the rows kept from a start index are those kept before any later split point followed by those kept from it on |
| CsvStorage.ReadPurchases | backend/src/services/csvService.ts:99-111 | at most one purchase per row from the start index on, and none from past the end |
| CsvStorage.ReadPurchasesOfUsableRows | backend/src/services/csvService.ts:100-111 | the purchases are read from exactly the rows with at least three cells, one each, in row order |
| CsvStorage.ReadBudget | backend/src/services/csvService.ts:78-119 | the file is invalid exactly when fewer than two rows remain. Name and values come from the second row. Without a purchase header there are no purchases; with one, the purchases are read from the rows after it |
| CsvStorage.ReadBudgetWithHeader | backend/src/services/csvService.ts:90-111 | with a purchase header, the purchases are the rows after it that have at least three cells, one each, in row order |
| CsvStorage.LoadBudget | backend/src/services/csvService.ts:73-119 | the method with the header search and the purchase loop returns exactly `CsvStorage.ReadBudget` of the non-empty lines |
| CsvStorage.SavedLines | backend/src/services/csvService.ts:37-76 | reading the saved rows drops only the empty separator |
| CsvStorage.PurchaseRowRoundTrip | backend/src/services/csvService.ts:51-109 | a purchase's row reads back as the purchase, given that its own amount and date read back as written |
| CsvStorage.ReadWrittenPurchases | backend/src/services/csvService.ts:50-111 | the rows written for a list of purchases read back as that list, when each purchase's amount and date read back as written |
| CsvStorage.SaveThenLoad | backend/src/services/csvService.ts:37-119 | loading a saved budget gives back its name, values and purchases, in order and with their `enabled` flags, given that the budget's own numbers and dates read back as written |
| CsvStorage.SaveThenLoadExample | backend/src/services/csvService.ts:37-119 | that assumption can be met: a format and a one-purchase budget that satisfy it, and the budget loads back unchanged |

## Left out

- File-system I/O is not modelled: creating the data directory, reading, writing and deleting files, `listBudgets` and `deleteBudget`. Neither is the mapping of a missing file to "not found". The methods take and return rows instead.
- The CSV text layer (`csv-stringify` and `csv-parse`) is a library. Rows are modelled directly. `skip_empty_lines` is the filter `CsvStorage.SkipEmptyLines`, which takes a row to print as an empty line exactly when it is `[]` or `[""]`.
- `parseFloat`, `toString` and the ISO date text are not modelled. They are the `CsvStorage.CellFormat` parameter.
- The stored purchase date is text in the source. The model keeps a calendar date and converts it at the storage boundary.
- A missing cell is `undefined` in the source. The model reads it as the empty text, so a name absent from the metadata row reads as "".
- Floating-point arithmetic is not modelled. Amounts and balances are exact reals, so rounding of sums and of the solver's division is not captured.
- JavaScript `Date` internals are not modelled. These are:
  - the time of day and time zones;
  - `toISOString` being UTC while `getMonth` and `setDate` are local time;
  - millisecond comparisons.

  Dates are calendar dates, and today's date is a parameter. The model therefore walks every day up to and including the end date, where the code could skip that day when today's time of day carries into the end date.
- The current time is not read from a clock (`new Date()`); it is the `today` parameter of the calculations.
- Characters are not modelled as UTF-16. The sanitiser replaces each UTF-16 code unit, so a character outside the Basic Multilingual Plane becomes two underscores. The model's characters count as single units.
- The HTTP routes, the frontend client and the server bootstrap are not part of this model.
- The `enabled` flag is stored and loaded but filters nothing. The calculation code never filters on it, so neither does the model.
- Calendar.EndOfMonth: years 0 to 99 are taken literally. JavaScript's `new Date(year, month, 0)` reads them as 1900 to 1999, so `getEndOfMonth(50, 1)` is 1950-02-28 where the model gives 0050-02-28. `getEndOfMonth` itself is never called. The year-ahead loop builds the same `new Date(year, month, 0)` with the year from the clock, so a current date past the year 99 never meets this case.
- CsvStorage.ReadPurchases: its own contract states only a length bound. What it reads is stated by `CsvStorage.ReadPurchasesOfUsableRows`.
- CsvStorage.UsableRows: its own contract states only that the kept rows have at least three cells. Which rows are kept is stated by `CsvStorage.UsableRowsSplit` (the rows kept from a split point on follow those kept before it) together with `CsvStorage.UsableRowsAllLong` and `CsvStorage.UsableRowsAllShort` (a run of long rows is kept whole, a run of short rows is dropped), and `CsvStorage.ReadPurchasesOfUsableRows` reads one purchase per kept row.
