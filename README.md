# Personal finance dashboard: aggregation and transaction queries in Dafny

This project models the two API routes of a personal finance tracker that
hold its logic:

- **GET /api/dashboard** (`src/app/api/dashboard/route.ts`). It resolves a
  calendar window from a period (`day`, `month` or `year`) and an anchor
  date. It takes the stored transactions whose date lies in the window and
  totals them by type into income, expenses and balance. It then spreads
  them over a fixed series of chart buckets: 24 hours, the days of the
  anchor's month, or 12 months.
- **GET and POST /api/transactions** (`src/app/api/transactions/route.ts`).
  GET turns optional query parameters into a filter object, then into an
  ORM `where` condition, and lists the matching transactions newest first.
  POST rejects a body with a missing or falsy required field. Otherwise it
  builds the record to insert, always for user 5.

Modules:

- `Calendar` (calendar.dfy): local date-time components as a JavaScript
  `Date` exposes them (month 0..11). `MakeLocalDate` is the normalising
  constructor `new Date(y, m, d, h, mi, s, ms)`: every overflowing or
  underflowing component is carried into the next one with floor semantics,
  and days are walked across month and year ends. `NewDate` adds the
  constructor's rule that reads a year 0..99 as 1900 + year. `NotAfter`
  compares components lexicographically and is proved to be the order of
  time values, which is how the database compares timestamps.
- `Labels` (labels.dfy): `n.toString()`, `padStart`, and a decimal reader
  that inverts them.
- `Ledger` (ledger.dfy): the transaction and category records, which both
  routes use, and the filter-by-type-then-sum of the dashboard's totals.
  Amounts are integer cents.
  A transaction's type is free text, so rows typed neither "income" nor
  "expense" can be represented.
- `Dashboard` (dashboard.dfy): the window, the database fetch as a filter
  of the store by the inclusive window, the summary, the chart buckets and
  the response.
- `TransactionsRoute` (transactions.dfy): GET builds the filters and the
  `where` object field by field in two methods. The ORM query is modelled
  as selection followed by a sort on date, descending. POST is modelled as
  validation and record construction over a JSON body with JavaScript
  truthiness. The created records are kept as a sequence that a successful
  POST extends.

Facts about the code that a reader of the routes might expect otherwise:

- Hour labels are `"00:00"`..`"23:00"`: `padStart(2, '0')` followed by
  `':00'` (route.ts:64).
- An unknown period is not rejected. The `period` parameter is only
  defaulted when missing or empty (route.ts:15); any value other than
  `day` and `month` takes the year branch for the window and the buckets
  (route.ts:29, 90) and is echoed in the response (route.ts:113).
- A bucket compares a single date component (hour, day of month or month),
  so on its own it would mix rows from different days or months. The store
  query limits the rows to the window first, so each row lands in exactly
  one bucket and the buckets add up to the totals
  (`Dashboard.BucketsConserveTotals`).

## Model

| member | source | states |
|---|---|---|
| `Calendar.DaysInMonth` | src/app/api/dashboard/route.ts:77 | February has 29 days exactly in leap years and 28 otherwise; April, June, September and November have 30 days, the rest 31 |
| `Calendar.MakeLocalDateTimeValue` | src/app/api/dashboard/route.ts:27-31 | for a full year y (`NewDate` first maps 0..99 to 1900 + y), `new Date(y, m, d, h, mi, s, ms)`, modelled by `MakeLocalDate`, denotes the instant MakeDay(y, m, d) * 86400000 + MakeTime(h, mi, s, ms), the ECMAScript time value of its arguments, whatever the range of m, d, h, mi, s and ms |
| `Calendar.SetHoursTimeValue` | src/app/api/dashboard/route.ts:24-25 | `setHours(h, mi, s, ms)` keeps the date's day and puts the given time of day on it: its time value is the day number times 86400000 plus MakeTime(h, mi, s, ms) |
| `Calendar.TimeValueOrder` | src/app/api/dashboard/route.ts:35-41 | the lexicographic component order used for the window bounds holds between two valid dates exactly when their time values are ordered the same way |
| `Calendar.TimeValueInjective` | src/app/api/dashboard/route.ts:35-41 | two valid dates with the same time value are the same date |
| `Calendar.NotAfterTotal` | src/app/api/transactions/route.ts:89 | any two dates are ordered one way or the other, so `orderBy: { date: 'desc' }` can order any rows |
| `Calendar.NotAfterTransitive` | src/app/api/transactions/route.ts:89 | the date order is transitive |
| `Calendar.NotAfterAntisymmetric` | src/app/api/transactions/route.ts:89 | two dates each not after the other are equal |
| `Calendar.NormalizeDayKeepsDay` | src/app/api/dashboard/route.ts:28 | walking an overflowing or underflowing day onto a valid month and day keeps the day count: the days before the resulting month plus the resulting day equal the days before the starting month plus the starting day, so the result is the same calendar day |
| `Calendar.MakeLocalDateInRange` | src/app/api/dashboard/route.ts:24-31 | for a full year y (`NewDate` first maps 0..99 to 1900 + y), the Date constructor, modelled by `MakeLocalDate`, keeps components that are already in range, as the window bounds use them |
| `Calendar.DayZeroIsLastDay` | src/app/api/dashboard/route.ts:28 | for a full year y (`NewDate` first maps 0..99 to 1900 + y), day 0 of month m + 1 is the last day of month m, also from December into the next year, so `MakeLocalDate(y, m + 1, 0, …)` names the month's last day |
| `Calendar.NewDateYear` | src/app/api/dashboard/route.ts:27-31 | `new Date(year, ...)` with in-range components gives year 1900 + year for a year 0..99 and keeps every other year, the other components unchanged |
| `Labels.DecimalString` | src/app/api/dashboard/route.ts:85 | `toString()` of a natural number below 10^21 (the labels use at most 31) is a non-empty digit string with no leading zero, one digit long exactly below 10 |
| `Labels.DecimalRoundTrip` | src/app/api/dashboard/route.ts:85 | reading back the decimal text of n gives n |
| `Labels.LeadingZeroIgnored` | src/app/api/dashboard/route.ts:64 | a leading zero added by padding does not change the number a label denotes |
| `Labels.PadStart` | src/app/api/dashboard/route.ts:64 | `padStart` returns the text widened to the width, the original text at the end and only fill characters before it |
| `Ledger.OfKind` | src/app/api/dashboard/route.ts:48-54 | the type filter keeps exactly the rows of the given type, each as many times as it occurs, and drops all others |
| `Ledger.Total` | src/app/api/dashboard/route.ts:50 | the `reduce` sum of non-negative amounts is non-negative and at least each amount in the list |
| `Ledger.FilteredTotalIsShareSum` | src/app/api/dashboard/route.ts:48-54 | filtering by type and then summing equals summing each row's share, which is its amount when the row has the type and 0 otherwise |
| `Ledger.KindTotal` | src/app/api/dashboard/route.ts:48-54 | the total of a type is the sum of every row's share of that type |
| `Ledger.KindTotalCons` | src/app/api/dashboard/route.ts:48-54 | a row adds its amount to the total of its own type and nothing to other totals |
| `Dashboard.PeriodName` | src/app/api/dashboard/route.ts:15 | the period is never empty; a non-empty parameter is kept as given; the period is "month" exactly when the parameter is missing, empty or "month" |
| `Dashboard.Granularity` | src/app/api/dashboard/route.ts:23-31 | the day branch is taken exactly for "day", the month branch exactly for "month", and the year branch for every other period |
| `Dashboard.ResolveWindow` | src/app/api/dashboard/route.ts:23-32 | start is not after end; start is 00:00:00.000 and end 23:59:59.999; day: both on the anchor day; month: day 1 to day DaysInMonth of the anchor's month; year: 1 January to 31 December of the anchor's year |
| `Dashboard.InWindowIff` | src/app/api/dashboard/route.ts:23-45 | a date is inside the resolved window exactly when it shares the anchor's day, month or year |
| `Dashboard.Fetch` | src/app/api/dashboard/route.ts:35-45 | the query returns exactly the stored rows whose date lies in the window, bounds included, each as many times as it is stored |
| `Dashboard.Summarize` | src/app/api/dashboard/route.ts:48-56 | income is the sum of the amounts of the "income" rows, expenses that of the "expense" rows, and balance is income minus expenses |
| `Dashboard.BucketCount` | src/app/api/dashboard/route.ts:77 | 24 buckets for day, DaysInMonth of the anchor's month for month, 12 for year |
| `Dashboard.InSlot` | src/app/api/dashboard/route.ts:65-67 | a bucket's rows are exactly those whose hour, day of month or month equals the bucket's value, each as many times as it occurs |
| `Dashboard.BucketLabel` | src/app/api/dashboard/route.ts:63-99 | hour label i (i < 24) is five characters: two digits denoting i, then ":00"; day label i is the decimal text of i + 1 with no leading zero |
| `Dashboard.SlotTotalIsShareSum` | src/app/api/dashboard/route.ts:65-72 | filtering a bucket's rows by type and summing equals summing the share of each row that falls in the bucket |
| `Dashboard.Bucket` | src/app/api/dashboard/route.ts:63-103 | bucket i carries label i, and as income and expenses the sums of the "income" and "expense" amounts of the rows whose component equals the bucket's value |
| `Dashboard.Chart` | src/app/api/dashboard/route.ts:59-104 | the series has BucketCount entries, entry i being bucket i |
| `Dashboard.Dashboard` | src/app/api/dashboard/route.ts:12-118 | balance equals income minus expenses; the period defaults to "month"; the date range is the resolved window; income and expenses are the sums of the "income" and "expense" amounts of the stored rows inside that window; the chart is the bucket series of exactly those rows, with 24, days-in-month or 12 entries by branch |
| `Dashboard.PeriodDefaults` | src/app/api/dashboard/route.ts:15-104 | a missing or empty period gives the month view; any period other than "day" and "month" gives exactly the year view's result |
| `Dashboard.EmptyStore` | src/app/api/dashboard/route.ts:48-104 | with nothing stored every total is 0 and every bucket is still present with income 0 and expenses 0 |
| `Dashboard.ColumnTotalCons` | src/app/api/dashboard/route.ts:63-103 | a row counts in the bucket sums once, in its own bucket, if that bucket exists |
| `Dashboard.ColumnTotalCoversAll` | src/app/api/dashboard/route.ts:63-103 | when every row has a bucket, the buckets together hold the whole total of each type |
| `Dashboard.ChartPrefixSums` | src/app/api/dashboard/route.ts:69-102 | the chart entries' incomes and expenses add up to the per-bucket totals |
| `Dashboard.ChartConserves` | src/app/api/dashboard/route.ts:63-110 | when every row has a bucket, the chart's incomes sum to the rows' income total and its expenses to their expense total |
| `Dashboard.FetchedRowsHaveABucket` | src/app/api/dashboard/route.ts:35-96 | every row inside the window has an hour, day or month that names an existing bucket |
| `Dashboard.BucketsConserveTotals` | src/app/api/dashboard/route.ts:35-110 | the chart's incomes sum to the summary income and its expenses to the summary expenses |
| `Dashboard.Relevant` | src/app/api/dashboard/route.ts:48-54 | keeps exactly the rows typed "income" or "expense", each as many times as it occurs |
| `Dashboard.KindTotalOfRelevant` | src/app/api/dashboard/route.ts:48-54 | dropping rows of other types changes neither the income nor the expense total |
| `Dashboard.FetchOfRelevant` | src/app/api/dashboard/route.ts:35-54 | the window query and dropping rows of other types commute |
| `Dashboard.InSlotOfRelevant` | src/app/api/dashboard/route.ts:65-67 | bucket selection and dropping rows of other types commute |
| `Dashboard.ChartOfRelevant` | src/app/api/dashboard/route.ts:63-103 | dropping rows of other types leaves every chart bucket as it is |
| `Dashboard.OtherKindsIgnored` | src/app/api/dashboard/route.ts:48-103 | rows typed neither "income" nor "expense" change no total and no bucket: the response is the same without them |
| `Dashboard.LeapFebruaryExample` | src/app/api/dashboard/route.ts:26-28 | anchor 15 February 2024 gives the window 1 February 00:00:00.000 to 29 February 23:59:59.999 and 29 buckets |
| `Dashboard.CommonFebruaryExample` | src/app/api/dashboard/route.ts:77-78 | anchor in February 2023 gives 28 buckets |
| `Dashboard.YearWindowExample` | src/app/api/dashboard/route.ts:29-31 | anchor 1 June 2023 gives the window 1 January 00:00:00.000 to 31 December 2023 23:59:59.999 |
| `Dashboard.MarchExample` | src/app/api/dashboard/route.ts:47-104 | an expense of 18.75 and an income of 2500.00 on 5 March 2024 give income 2500.00, expenses 18.75, balance 2481.25, 31 buckets, bucket "5" holding both and every other bucket zero |
| `Dashboard.MarchTotals` | src/app/api/dashboard/route.ts:35-56 | the two example rows of 5 March 2024 both lie in the March window, with income 2500.00, expenses 18.75 and balance 2481.25 |
| `Dashboard.MarchOtherDaysEmpty` | src/app/api/dashboard/route.ts:78-88 | in the example every day bucket other than the 5th has income 0 and expenses 0 |
| `Dashboard.FifthDayLabel` | src/app/api/dashboard/route.ts:85 | the fifth day bucket is labelled "5" |
| `Dashboard.MarchFifthDay` | src/app/api/dashboard/route.ts:78-88 | in the example the bucket labelled "5" holds income 2500.00 and expenses 18.75 |
| `Dashboard.MarchBuckets` | src/app/api/dashboard/route.ts:75-89 | the example's month chart has 31 buckets, both rows in bucket "5" and every other bucket zero |
| `Dashboard.ResolveWindowAsWritten` | src/app/api/dashboard/route.ts:23-32 | as written, the month and year windows lie in year ConstructorYear(anchor year) |
| `Dashboard.BucketCountAsWritten` | src/app/api/dashboard/route.ts:77 | as written, the month view has DaysInMonth(ConstructorYear(anchor year), month) buckets |
| `Dashboard.AsWrittenAgreesOutsideTwoDigitYears` | src/app/api/dashboard/route.ts:23-32 | for anchor years outside 0..99 the window and bucket count as written equal the modelled ones |
| `Dashboard.TwoDigitYearShiftsWindow` | src/app/api/dashboard/route.ts:27-28 | anchor 5 March of year 50: the window as written starts on 1 March 1950 and does not contain the anchor |
| `Dashboard.TwoDigitYearBucketCount` | src/app/api/dashboard/route.ts:77 | anchor in February of year 0, a leap year: 28 buckets as written, 29 days in the month |
| `TransactionsRoute.BuildFilters` | src/app/api/transactions/route.ts:24-48 | each filter field is set exactly when its query parameter is present, to the parameter's value, amounts converted |
| `TransactionsRoute.BuildWhere` | src/app/api/transactions/route.ts:51-85 | a transaction satisfies the built `where` exactly when the filters admit it; type and category conditions appear only for truthy values, a date range only when a truthy date bound exists, an amount range only when an amount bound is defined |
| `TransactionsRoute.Select` | src/app/api/transactions/route.ts:87-89 | the query keeps exactly the stored rows that satisfy the condition |
| `TransactionsRoute.SelectCounts` | src/app/api/transactions/route.ts:87-89 | every copy of a matching row is kept and every copy of another row dropped |
| `TransactionsRoute.Insert` | src/app/api/transactions/route.ts:89 | inserting into a newest-first list keeps it newest first and adds exactly that row |
| `TransactionsRoute.SortByDateDesc` | src/app/api/transactions/route.ts:89 | the result is ordered by date, newest first, and is a permutation of the input |
| `TransactionsRoute.FindMany` | src/app/api/transactions/route.ts:87-93 | the result is newest first and holds each matching stored row as often as it is stored, and no other row |
| `TransactionsRoute.ListTransactions` | src/app/api/transactions/route.ts:18-95 | the answer is newest first and holds exactly the stored transactions that every active query condition admits |
| `TransactionsRoute.NoParametersNoConstraint` | src/app/api/transactions/route.ts:24-85 | with no query parameters every transaction is admitted |
| `TransactionsRoute.AbsentParameterNoConstraint` | src/app/api/transactions/route.ts:26-85 | a parameter that is absent imposes nothing: adding one can only narrow what is admitted |
| `TransactionsRoute.EmptyTextIgnored` | src/app/api/transactions/route.ts:53-61 | an empty `type` or `category` parameter admits the same transactions as no parameter |
| `TransactionsRoute.StartDateAlone` | src/app/api/transactions/route.ts:63-73 | `startDate` alone admits exactly the dates at or after it |
| `TransactionsRoute.EndDateAlone` | src/app/api/transactions/route.ts:63-73 | `endDate` alone admits exactly the dates at or before it |
| `TransactionsRoute.AmountBounds` | src/app/api/transactions/route.ts:75-85 | `minAmount` and `maxAmount` are inclusive bounds, each applied on its own |
| `TransactionsRoute.CategoryByName` | src/app/api/transactions/route.ts:57-61 | the category filter depends on the category's name, not on its id |
| `TransactionsRoute.JsonTruthy` | src/app/api/transactions/route.ts:111 | `!value` holds exactly for null, false, 0 and the empty string; every other value, arrays and objects included, is truthy |
| `TransactionsRoute.HasRequiredFields` | src/app/api/transactions/route.ts:111 | the body passes the check exactly when each of description, amount, type, date and categoryId is present and truthy, and fails exactly when one of them is missing or falsy |
| `TransactionsRoute.Post` | src/app/api/transactions/route.ts:106-132 | rejected with 400 and nothing stored exactly when a required field is missing or falsy; otherwise answered 201 with the record appended, built from the body's fields, with user id 5 |
| `TransactionsRoute.ZeroRejected` | src/app/api/transactions/route.ts:111-116 | an amount or category id of 0 is rejected with 400 and nothing is stored |
| `TransactionsRoute.TextZeroAccepted` | src/app/api/transactions/route.ts:111-116 | the text "0" is truthy, so an otherwise complete body with amount "0" is accepted |

`TransactionsRoute.Matches` is the meaning of the ORM's `where` object; what
it admits is stated by the `BuildWhere` and `Select` rows. The members
without a row are definitions the rows above are stated in (day counts,
time values, sums, truthiness of a parameter), the sum law `Ledger.TotalAppend`, or proof steps used by one
of them: `Calendar.YearStep`, `MonthsFillYear`, `MonthStep`, `TimeCarry`,
`DayOfValidMonth`, `DaysBeforeMonthGrows`, `DaysBeforeYearGrows`,
`DayNumberOrder`, `DayZeroDayNumber`; `Dashboard.FetchKeepsAll`,
`HourLabelText`, `ColumnTotalEmpty`, `ChartPrefixStep`, `ChartHoldsBuckets`,
`ColumnsConserve`, `MarchWindowKeepsRows`; `TransactionsRoute.InsertFront`,
`InsertBehind`.

## Findings

| source | as written | input that shows it | evidently intended | confidence | as-written member | corrected member |
|---|---|---|---|---|---|---|
| src/app/api/dashboard/route.ts:27-31 | the month and year windows are built with `new Date(date.getFullYear(), ...)`, which reads a year 0..99 as 1900 + year | anchor 0050-03-05, period month: the window is March 1950 and misses the anchor (`Dashboard.TwoDigitYearShiftsWindow`) | the window of the anchor's own month or year | not executed; follows from the ECMAScript Date constructor | `Dashboard.ResolveWindowAsWritten` | `Dashboard.ResolveWindow` |
| src/app/api/dashboard/route.ts:77 | the day count uses `new Date(date.getFullYear(), month + 1, 0)`, with the same year rule | anchor 0000-02-15, period month: 28 buckets although February of year 0 has 29 days (`Dashboard.TwoDigitYearBucketCount`) | as many buckets as the anchor's month has days | not executed; follows from the ECMAScript Date constructor | `Dashboard.BucketCountAsWritten` | `Dashboard.BucketCount` |

## Left out

- Parsing the `date` query parameter, and its default to the current date: the anchor is passed in as a valid date. An unparsable date, which makes the handler answer 500, is not modelled.
- Time zones: `new Date("YYYY-MM-DD")` parses as UTC while the getters read local time. All components here are local, and daylight-saving shifts are not modelled.
- Invalid Dates: JavaScript turns an instant beyond 8.64e15 ms from the epoch, or a window bound built past it, into an Invalid Date; `Calendar.Date` holds only valid dates and no range limit is modelled.
- `toISOString` of the date range: the response carries the window's two dates.
- The pt-BR month names of the year view come from `toLocaleDateString`, which depends on the runtime. They are a fixed table of 12 strings (`Dashboard.MonthShortNames`).
- Floating-point amounts, `parseFloat` and `parseInt`: amounts are integer cents. The conversions are function parameters (`parseAmount`, `parseFloat`, `parseInt`, `toDate`, `parseDate`). A NaN amount bound or an invalid date is not modelled.
- The ORM calls: `findMany` is selection and sorting of an input sequence; `create` appends the record to a sequence. The order of rows with equal dates is the database's and is not fixed here; the model picks one. Id assignment, the joined category in POST's answer, and the ORM's type checks on the body are not modelled.
- `Dashboard.Fetch`: states which rows it returns and how often, not their order, because the database promises no order for that query.
- `Dashboard.Dashboard`: uses the corrected window and bucket count for anchor years 0..99 (see Findings); `Dashboard.ResolveWindowAsWritten` and `Dashboard.BucketCountAsWritten` model the code as written.
- URLSearchParams with a repeated name: `Params` keeps the one value `get` returns.
- HTTP plumbing: request and response objects, JSON bodies, and the `try/catch` paths that answer 500.
- The PUT and DELETE handlers, the React pages and components, the Express server, the seed script and the mock handlers. They are UI or pass-through code over the ORM.
