# Student finance tracker: expense engine in Dafny

This project models the logic of a browser-based personal expense tracker.
A user records expenses: an amount, one of five categories, a description
and a date. The application keeps them in a store, totals them per month and
per category, and predicts the next day's spending from a trailing
seven-day window. Two views order what they show: the expense list (a
category filter and a descending sort) and the monthly summary (categories
ranked by amount, with percentages).

Modules, one per source file plus two helper modules:

- `ExpenseTypes` (`expense_types.dfy`): the closed `Category` enumeration, the
  ordered category table `ExpenseCategories`, the `Expense` record, and the
  `MonthlySpending` and `SpendingPrediction` results. `Confidence` is a
  three-value datatype (`Low`, `Medium`, `High`), so no other confidence
  exists.
- `ExpenseUtils` (`expense_utils.dfy`): the store as a class `ExpenseStore`
  whose `expenses: seq<Expense>` field is updated by `Add` and `Delete`. It
  also holds the monthly aggregation, a method with a loop that accumulates
  the total and the category buckets, and the prediction as a function.
- `ExpenseList` (`expense_list.dfy`): the filter-then-sort of the displayed
  records, the category lookup, and the header and footer counts.
- `MonthlySummary` (`monthly_summary.dfy`): the ranked category breakdown,
  the percentage rule, the empty state and the quick statistics.
- `Wrappers` and `SeqUtil` (`seq_util.dfy`): `Option`, plus the array
  operations the source calls. `Filter` is `Array.prototype.filter`.
  `SortDesc` is the stable `Array.prototype.sort` with comparator
  `key(b) - key(a)`.

Representation choices:

- Amounts are exact `real`s, not IEEE doubles. `Math.round(x * 100) / 100`
  becomes `RoundCents`, which is floor(100x + 1/2) / 100 over the reals.
- The month filter works on the date string itself: a record belongs to
  month `m` when its `date` starts with `m` (`m <= date`, the sequence-prefix
  test). No date is parsed there.
- The prediction works on day numbers counted from the UTC epoch. `dayOf`
  maps a date string to the day number of its UTC midnight, because
  `new Date("YYYY-MM-DD")` parses a date-only string as UTC. It maps a
  string that is not a date to `None`: `new Date` gives an invalid date,
  and that never compares `>=`. `now` is the current instant in days, and
  its fraction is the UTC time of day. A record is recent when its UTC
  midnight is at or after `now - 7`. The default month is likewise the UTC
  month, taken from `toISOString()`.
- The clock, the random source and id generation are parameters:
  `currentMonth`, `now`, `random`, `id` and `createdAt`.
- The list sort by date uses `dayOf: string -> int`, a total function. The
  two abstractions of `new Date(date)` differ on purpose. In the prediction
  an invalid date has a defined effect: `>=` on it is false, so the record is
  left out, and `None` says exactly that. In the sort an invalid date makes
  the comparator return NaN, whose effect on the order is left to the
  engine. That case is not modelled, so the sort only needs the day numbers
  of valid dates.

Behaviours of the code that the model keeps as they are:

- The prediction window has no upper bound: future-dated records count
  (`FutureDatedIsRecent`).
- Because `sevenDaysAgo` keeps the current time of day, a record dated
  exactly seven days before today's UTC date counts only at UTC midnight
  (`WindowInDays`). A user west of UTC at local midnight is already past
  UTC midnight, so that record does not count for them.
- A month matches by string prefix, not by a parsed year and month.
- An empty `month` string falls back to the current month, the same as an
  absent one (`month || ...`).
- Percentages are 0 unless the total is strictly positive (`total > 0`).

## Model

| member | source | states |
|---|---|---|
| ExpenseTypes.CategoryClosed | src/types/expense.ts:10-15 | every category value is one of food, travel, books, fun, other |
| ExpenseTypes.CategoryTableOrder | src/types/expense.ts:17-28 | the table lists food, travel, books, fun, other in that order, each exactly once, covering the enumeration of five |
| ExpenseTypes.TableIndex | src/types/expense.ts:22-28 | every category has a row in the table whose value is that category |
| ExpenseTypes.TableRowsDetermined | src/types/expense.ts:22-28 | two table rows with the same category are the same row |
| ExpenseUtils.ExpenseStore.constructor | src/utils/expense-utils.ts:6-9 | an empty store holds no records |
| ExpenseUtils.ExpenseStore.GetAll | src/utils/expense-utils.ts:6-14 | returns exactly the stored records |
| ExpenseUtils.ExpenseStore.Add | src/utils/expense-utils.ts:24-35 | appends exactly one record at the end carrying the given amount, category, description, date, id and createdAt; earlier records unchanged and in order; returns the appended record; needs a positive amount and a non-empty description; a store whose amounts are all positive stays so |
| ExpenseUtils.ExpenseStore.Delete | src/utils/expense-utils.ts:37-41 | the new store is the old one with the records of that id filtered out; a store whose amounts are all positive stays so |
| ExpenseUtils.AddKeepsPositive | src/utils/expense-utils.ts:24-35 | appending a record with a positive amount to records with positive amounts keeps every amount positive |
| ExpenseUtils.DeleteKeepsPositive | src/utils/expense-utils.ts:37-41 | filtering out an id keeps every amount positive |
| ExpenseUtils.Without | src/utils/expense-utils.ts:39 | the records whose id differs, in their order: no longer than the input, and every kept record was in the input and has a different id (the converse and order are in DeleteRemovesExactly and DeleteKeepsOrder) |
| ExpenseUtils.DeleteRemovesExactly | src/utils/expense-utils.ts:37-41 | after delete a record is present iff it was present and has a different id |
| ExpenseUtils.DeleteKeepsOrder | src/utils/expense-utils.ts:39 | delete distributes over concatenation, so kept records stay in their relative order |
| ExpenseUtils.DeleteAbsent | src/utils/expense-utils.ts:39 | deleting an id no record carries leaves the store unchanged |
| ExpenseUtils.DeleteIdempotent | src/utils/expense-utils.ts:37-41 | deleting twice equals deleting once |
| ExpenseUtils.DeleteUndoesAdd | src/utils/expense-utils.ts:24-41 | deleting the id of a record just added, when no earlier record has it, restores the store |
| ExpenseUtils.CalculateMonthlySpending | src/utils/expense-utils.ts:44-71 | the month is the given non-empty month or else the current one; all five buckets are present; each bucket is the sum of the month's records in that category; total is the month's sum and equals the sum of the five buckets |
| ExpenseUtils.Accumulate | src/utils/expense-utils.ts:51-64 | the loop starting from five zero buckets and a zero total ends with every category's bucket holding the sum of the given records in that category, the total holding their sum, and the total equal to the sum of the buckets |
| ExpenseUtils.AccumulateStep | src/utils/expense-utils.ts:61-64 | adding one record's amount to the total and to its own bucket turns the accumulation of a prefix into the accumulation of the prefix extended by that record |
| ExpenseUtils.AccumulatedBuckets | src/utils/expense-utils.ts:59-64 | whatever the records, an accumulated total equals the sum of its five buckets |
| ExpenseUtils.SumIsBucketSum | src/utils/expense-utils.ts:59-64 | every record lies in exactly one bucket, so the total of any record list equals the sum of its five category sums |
| ExpenseUtils.MonthlyExpenses | src/utils/expense-utils.ts:47-49 | the records whose date starts with the month, in their order: no longer than the input, and every selected record is an input record of that month (the rest is in MonthlyContribution and OutsideMonthIgnored) |
| ExpenseUtils.MonthlyContribution | src/utils/expense-utils.ts:47-49 | a record adds its amount to the total and to its own bucket iff its date starts with the month, and adds nothing otherwise |
| ExpenseUtils.OutsideMonthIgnored | src/utils/expense-utils.ts:47-49 | a record whose date does not start with the month does not change the selected records, wherever it sits |
| ExpenseUtils.EmptyMonth | src/utils/expense-utils.ts:51-59 | with no matching record (or no record at all) the total and every bucket are 0 |
| ExpenseUtils.SumNonNegative | src/utils/expense-utils.ts:59-62 | with non-negative amounts the total is non-negative |
| ExpenseUtils.CategorySumNonNegative | src/utils/expense-utils.ts:51-64 | with non-negative amounts every category total is non-negative |
| ExpenseUtils.MonthExample | src/utils/expense-utils.ts:44-71 | 10 food and 20 travel in the month plus 5 food outside it give total 30, food 10, travel 20 and 0 elsewhere |
| ExpenseUtils.RecentExpenses | src/utils/expense-utils.ts:74-80 | the records whose date parses and whose UTC midnight is at or after now minus seven days: no more than the input, each one an input record passing that test (window shape in FutureDatedIsRecent and WindowInDays) |
| ExpenseUtils.DateSet | src/utils/expense-utils.ts:92 | the set of distinct date strings: at most one per record, and it holds the last record's date |
| ExpenseUtils.AveragePerDay | src/utils/expense-utils.ts:91-93 | 0 for no records; otherwise the average times the number of distinct dates gives back the window total |
| ExpenseUtils.DateSetMembers | src/utils/expense-utils.ts:92 | a date is among the distinct dates iff some recent record carries it |
| ExpenseUtils.DistinctDatesBounds | src/utils/expense-utils.ts:92 | a non-empty window has between 1 and its record count of distinct dates |
| ExpenseUtils.ConfidenceFor | src/utils/expense-utils.ts:99-108 | low iff fewer than 3 records, medium iff 3 to 6, high iff 7 or more |
| ExpenseUtils.SuggestionFor | src/utils/expense-utils.ts:99-108 | a tier's suggestion is never the empty-window suggestion |
| ExpenseUtils.Jittered | src/utils/expense-utils.ts:111-112 | the jittered amount is clamped at 0 |
| ExpenseUtils.RoundCents | src/utils/expense-utils.ts:115 | the result is a whole number of cents within half a cent of the input, and non-negative for a non-negative input |
| ExpenseUtils.PredictTomorrowSpending | src/utils/expense-utils.ts:73-119 | an empty window gives exactly 0, low and the start-tracking suggestion; otherwise the tier comes from the record count with its suggestion, and the amount is the rounded jittered average; the amount is never negative |
| ExpenseUtils.AverageIsTotalOverDays | src/utils/expense-utils.ts:90-93 | for a non-empty window the average is the window total over the number of distinct dates (the max with 1 never applies), and non-negative for non-negative amounts |
| ExpenseUtils.JitterWithinTenPercent | src/utils/expense-utils.ts:110-112 | for a random value in [0, 1) and a non-negative average, the unrounded prediction is within [0.9, 1.1] times the average |
| ExpenseUtils.PredictionBounds | src/utils/expense-utils.ts:110-115 | for positive amounts and a random value in [0, 1), the prediction lies within ten per cent of the average per day, give or take half a cent of rounding |
| ExpenseUtils.FutureDatedIsRecent | src/utils/expense-utils.ts:74-80 | a record dated after now is in the window: there is no upper bound |
| ExpenseUtils.WindowInDays | src/utils/expense-utils.ts:74-80 | with today the current UTC date: at UTC midnight the window starts seven days before today; at any other time of day it starts six days before |
| ExpenseUtils.ThreeDaysOfTen | src/utils/expense-utils.ts:73-119 | three records of 10 on three distinct recent days with the random value at its midpoint give exactly 10 with medium confidence |
| SeqUtil.Filter | src/components/ExpenseList.tsx:19-20 | the filter keeps a sub-multiset of the input and is no longer than it |
| SeqUtil.FilterMembers | src/components/ExpenseList.tsx:19-20 | an element survives the filter iff it is in the input and satisfies the predicate |
| SeqUtil.FilterCounts | src/components/ExpenseList.tsx:19-20 | the filter keeps every copy of a passing element and no copy of a failing one |
| SeqUtil.SortDesc | src/components/ExpenseList.tsx:21-26 | the sort result is a permutation of its input and is non-increasing by the key |
| ExpenseList.FilteredExpenses | src/components/ExpenseList.tsx:19-26 | the displayed records are a permutation of the category-filtered input, non-increasing by the chosen key |
| ExpenseList.AllKeepsEverything | src/components/ExpenseList.tsx:19-20 | with filter 'all' every record is displayed, each as often as it occurs |
| ExpenseList.OnlyKeepsCategory | src/components/ExpenseList.tsx:19-20 | with one category selected exactly that category's records are displayed, each as often as it occurs in the input |
| ExpenseList.ByDateDescending | src/components/ExpenseList.tsx:21-24 | sorted by date, dates never increase along the list |
| ExpenseList.ByAmountDescending | src/components/ExpenseList.tsx:25 | sorted by amount, amounts never increase along the list |
| ExpenseList.FindCategory | src/components/ExpenseList.tsx:28-30 | the lookup returns the first table row with the category, or nothing exactly when no row has it |
| ExpenseList.GetCategoryData | src/components/ExpenseList.tsx:28-30 | the lookup always finds a table row, and the row carries the requested category |
| ExpenseList.CategoryDataFound | src/components/ExpenseList.tsx:28-30 | looking up any category in the category table succeeds with that category's row |
| ExpenseList.ExpenseListView | src/components/ExpenseList.tsx:32-135 | the empty state appears iff there are no records at all; otherwise the header count is the number of displayed rows, at most the number of records; the footer appears iff more than 5 rows are displayed, then showing between 6 and 10 and the number of records |
| ExpenseList.FooterShowsAtMostTen | src/components/ExpenseList.tsx:86-135 | the footer's figure is min(count, 10): it stays at 10 beyond ten rows although every row is rendered |
| MonthlySummary.Percentage | src/components/MonthlySummary.tsx:24 | 0 when the total is not positive, otherwise amount / total * 100, and between 0 and 100 for an amount within the total |
| MonthlySummary.PercentageMonotone | src/components/MonthlySummary.tsx:24-27 | a larger amount never has a smaller percentage of the same total |
| MonthlySummary.Ranked | src/components/MonthlySummary.tsx:21-25 | a table row whose amount is the month's total for its category (`categoryTotals[info.value]`) and whose percentage is 0 for a non-positive total and otherwise times the total gives 100 times the amount |
| MonthlySummary.RankAll | src/components/MonthlySummary.tsx:20-25 | each table row becomes its category's amount and percentage, in table order |
| MonthlySummary.SortedCategories | src/components/MonthlySummary.tsx:20-27 | the table mapped to amount and percentage, positive amounts kept, sorted by amount, largest first: at most one row per table row and non-increasing by amount (the rest in SortedCategoriesMembers, Order, Rows, Cover and Distinct) |
| MonthlySummary.SortedCategoriesMembers | src/components/MonthlySummary.tsx:20-26 | a row is in the breakdown iff it is a ranked table row with a strictly positive amount |
| MonthlySummary.SortedCategoriesOrder | src/components/MonthlySummary.tsx:26-27 | only strictly positive amounts appear, and amounts never increase along the breakdown |
| MonthlySummary.SortedCategoriesRows | src/components/MonthlySummary.tsx:20-25 | each row is the table row of its category with that category's total and percentage |
| MonthlySummary.SortedCategoriesCover | src/components/MonthlySummary.tsx:20-26 | the breakdown lists exactly the categories with a positive total |
| MonthlySummary.SortedCategoriesDistinct | src/components/MonthlySummary.tsx:20-23 | no category appears twice in the breakdown |
| MonthlySummary.CategoriesUsedCount | src/components/MonthlySummary.tsx:103 | "Categories Used" equals the number of categories with a positive total |
| MonthlySummary.MonthlySummaryView | src/components/MonthlySummary.tsx:55-103 | the empty state is shown iff no category has a positive total, the breakdown iff one has; quick statistics appear iff the total is positive and count the categories with a positive total |
| MonthlySummary.NonEmptyBreakdown | src/components/MonthlySummary.tsx:20-27 | a positive total that is the sum of the buckets has a positive bucket, so the breakdown has at least one row |
| MonthlySummary.FirstRowIsLargest | src/components/MonthlySummary.tsx:24-27 | the first row of the breakdown has the largest percentage |
| MonthlySummary.TopCategoryDefined | src/components/MonthlySummary.tsx:99-111 | when the total is the sum of the buckets and positive, the breakdown is non-empty, the top figure is the percentage of its first row, and no row has a larger percentage |

## Left out

- Browser storage: `localStorage`, `JSON.parse` and `JSON.stringify`, and
  the logging that swallows their errors and returns an empty list, are I/O.
  The store is an in-memory sequence.
- Id and timestamp generation (`crypto.randomUUID()`, `new
  Date().toISOString()`) are foreign calls. `Add` takes `id` and
  `createdAt` as parameters. Ids are not proved unique, because the code
  does not guarantee it.
- The clock: the default month and the current instant are the parameters
  `currentMonth` and `now`. Date parsing and time zones are the parameter
  `dayOf`.
- ExpenseUtils.RecentExpenses: the daylight-saving shift of `setDate` is
  dropped. The code keeps the local wall-clock time, so across a
  daylight-saving change the cutoff is seven days plus or minus one hour.
  The model's cutoff is exactly seven 24-hour days before `now`.
- ExpenseList.FilteredExpenses: a date string that does not parse (a NaN
  comparator result) is not modelled. The sort by date uses a total
  `dayOf: string -> int`.
- SeqUtil.SortDesc: stability (equal keys keep their input order) is not
  stated, although the insertion it uses keeps it.
- `Math.random()` is the parameter `random`. IEEE rounding of amounts,
  sums, divisions and `Math.round` is replaced by exact reals.
- `formatCurrency` and `formatDate` wrap locale APIs. The summary's
  `averageDaily` and `monthName` depend on the current date and the current
  month's length.
- The form in src/components/ExpenseForm.tsx is not part of this model. Its
  rule (a positive amount and a non-empty description; the category is
  always one of the five by type) is the precondition of `ExpenseStore.Add`.
- src/pages/Index.tsx (React state wiring; its `slice(0, 5)` for the
  overview list) is not part of this model.
- src/components/SpendingPrediction.tsx is not part of this model. It only
  presents the prediction, choosing colours and icons.
- All JSX rendering, and the percentage formatting with `toFixed`.
