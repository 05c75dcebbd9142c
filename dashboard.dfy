/**
 * The dashboard endpoint (GET /api/dashboard): resolve a calendar window
 * from a period and an anchor date, take the stored transactions inside
 * it, total them by type and spread them over a fixed series of chart
 * buckets (hours of the day, days of the month or months of the year).
 */
module Dashboard {
  import opened Calendar
  import opened Labels
  import opened Ledger

  /** The three branches the handler takes. */
  datatype Period = Day | Month | Year

  datatype Window = Window(start: Date, end: Date)

  datatype Summary = Summary(income: int, expenses: int, balance: int)

  /** One chart entry; `caption` is the JSON field `label`. */
  datatype ChartPoint = ChartPoint(caption: string, income: int, expenses: int)

  datatype Response = Response(summary: Summary, chartData: seq<ChartPoint>,
                               period: string, dateRange: Window)

  // ---------------------------------------------------------------------
  // Period

  /** The `period` query parameter, with "month" when it is absent or empty. */
  function PeriodName(param: Option<string>): (r: string)
    ensures r != ""
    ensures param.Some? && param.value != "" ==> r == param.value
    ensures r == "month" <==> param == None || param == Some("") || param == Some("month")
  {
    if param.Some? && param.value != "" then param.value else "month"
  }

  /** "day" and "month" pick their branch; every other text takes the year branch. */
  function Granularity(period: string): (g: Period)
    ensures g == Day <==> period == "day"
    ensures g == Month <==> period == "month"
    ensures g == Year <==> period != "day" && period != "month"
  {
    if period == "day" then Day else if period == "month" then Month else Year
  }

  // ---------------------------------------------------------------------
  // Window

  predicate InWindow(t: Timestamp, w: Window) {
    NotAfter(w.start, t) && NotAfter(t, w.end)
  }

  /** The anchor and t fall in the same day, month or year, as the period asks. */
  predicate SamePeriod(g: Period, anchor: Timestamp, t: Timestamp) {
    match g
    case Day => t.year == anchor.year && t.month == anchor.month && t.day == anchor.day
    case Month => t.year == anchor.year && t.month == anchor.month
    case Year => t.year == anchor.year
  }

  /**
   * The window of the period around the anchor: the anchor's day, month or
   * year from 00:00:00.000 on its first day to 23:59:59.999 on its last. The
   * month branch finds the last day as day 0 of the following month.
   */
  function ResolveWindow(g: Period, anchor: Date): (w: Window)
    ensures NotAfter(w.start, w.end)
    ensures w.start.hour == 0 && w.start.minute == 0 && w.start.second == 0 && w.start.millisecond == 0
    ensures w.end.hour == 23 && w.end.minute == 59 && w.end.second == 59 && w.end.millisecond == 999
    ensures w.start.year == anchor.year && w.end.year == anchor.year
    ensures g == Day ==> w.start.month == w.end.month == anchor.month && w.start.day == w.end.day == anchor.day
    ensures g == Month ==> w.start.month == w.end.month == anchor.month
                           && w.start.day == 1 && w.end.day == DaysInMonth(anchor.year, anchor.month)
    ensures g == Year ==> w.start.month == 0 && w.start.day == 1 && w.end.month == 11 && w.end.day == 31
  {
    var y, m, d := anchor.year, anchor.month, anchor.day;
    match g
    case Day =>
      MakeLocalDateInRange(y, m, d, 0, 0, 0, 0);
      MakeLocalDateInRange(y, m, d, 23, 59, 59, 999);
      Window(SetHours(anchor, 0, 0, 0, 0), SetHours(anchor, 23, 59, 59, 999))
    case Month =>
      MakeLocalDateInRange(y, m, 1, 0, 0, 0, 0);
      DayZeroIsLastDay(y, m, 23, 59, 59, 999);
      Window(MakeLocalDate(y, m, 1, 0, 0, 0, 0), MakeLocalDate(y, m + 1, 0, 23, 59, 59, 999))
    case Year =>
      MakeLocalDateInRange(y, 0, 1, 0, 0, 0, 0);
      MakeLocalDateInRange(y, 11, 31, 23, 59, 59, 999);
      Window(MakeLocalDate(y, 0, 1, 0, 0, 0, 0), MakeLocalDate(y, 11, 31, 23, 59, 59, 999))
  }

  /** A valid instant lies in the resolved window exactly when it shares the anchor's period. */
  lemma InWindowIff(g: Period, anchor: Date, t: Date)
    ensures InWindow(t, ResolveWindow(g, anchor)) <==> SamePeriod(g, anchor, t)
  {
    var w := ResolveWindow(g, anchor);
    if g == Month {
      assert w.end.day == DaysInMonth(anchor.year, anchor.month);
    }
  }

  /** `prisma.transaction.findMany({ where: { date: { gte: start, lte: end } } })` */
  function Fetch(store: seq<Transaction>, w: Window): (r: seq<Transaction>)
    ensures forall t :: t in r <==> t in store && InWindow(t.date, w)
    ensures forall t :: multiset(r)[t] == if InWindow(t.date, w) then multiset(store)[t] else 0
  {
    if store == [] then []
    else
      assert store == [store[0]] + store[1..];
      (if InWindow(store[0].date, w) then [store[0]] else []) + Fetch(store[1..], w)
  }

  /** A query whose window holds every stored row returns the store unchanged. */
  lemma {:induction false} FetchKeepsAll(store: seq<Transaction>, w: Window)
    requires forall t :: t in store ==> InWindow(t.date, w)
    ensures Fetch(store, w) == store
  {
    if store != [] {
      assert store[0] in store;
      FetchKeepsAll(store[1..], w);
      assert [store[0]] + store[1..] == store;
    }
  }

  // ---------------------------------------------------------------------
  // Totals

  /** The income and expense totals (each row's amount counted under its own type) and the balance. */
  function Summarize(ts: seq<Transaction>): (r: Summary)
    ensures r.income == ShareSum(ts, IncomeKind) && r.expenses == ShareSum(ts, ExpenseKind)
    ensures r.balance == r.income - r.expenses
  {
    var income := KindTotal(ts, IncomeKind);
    var expenses := KindTotal(ts, ExpenseKind);
    Summary(income, expenses, income - expenses)
  }

  // ---------------------------------------------------------------------
  // Chart buckets

  /** Month labels of the year view (the pt-BR short month names). */
  const MonthShortNames: seq<string> :=
    ["jan.", "fev.", "mar.", "abr.", "mai.", "jun.", "jul.", "ago.", "set.", "out.", "nov.", "dez."]

  /** 24 hours, the days of the anchor's month (`new Date(y, m + 1, 0).getDate()`), or 12 months. */
  function BucketCount(g: Period, anchor: Date): (n: nat)
    ensures g == Day ==> n == 24
    ensures g == Month ==> n == DaysInMonth(anchor.year, anchor.month)
    ensures g == Year ==> n == 12
  {
    match g
    case Day => 24
    case Month =>
      DayZeroIsLastDay(anchor.year, anchor.month, 0, 0, 0, 0);
      MakeLocalDate(anchor.year, anchor.month + 1, 0, 0, 0, 0, 0).day
    case Year => 12
  }

  /** The date component a bucket compares: getHours(), getDate() or getMonth(). */
  function Component(g: Period, t: Date): int {
    match g
    case Day => t.hour
    case Month => t.day
    case Year => t.month
  }

  /** The component value bucket i stands for: hour i, day i + 1, month i. */
  function SlotKey(g: Period, i: nat): int {
    if g == Month then i + 1 else i
  }

  /** The bucket a transaction is counted in under the naive component test. */
  function SlotOf(g: Period, t: Date): int {
    if g == Month then t.day - 1 else Component(g, t)
  }

  /** `ts.filter(t => component(t.date) === key)` */
  function InSlot(ts: seq<Transaction>, g: Period, key: int): (r: seq<Transaction>)
    ensures forall t :: t in r <==> t in ts && Component(g, t.date) == key
    ensures forall t :: multiset(r)[t] == if Component(g, t.date) == key then multiset(ts)[t] else 0
  {
    if ts == [] then []
    else
      assert ts == [ts[0]] + ts[1..];
      (if Component(g, ts[0].date) == key then [ts[0]] else []) + InSlot(ts[1..], g, key)
  }

  /** "HH:00" for hours, the day number for days, the short month name for months. */
  function BucketLabel(g: Period, i: nat): (text: string)
    requires g == Year ==> i < 12
    ensures g == Day && i < 24 ==>
              |text| == 5 && text[2..] == ":00" && AllDigits(text[..2]) && DecimalValue(text[..2]) == i
    ensures g == Month ==> AllDigits(text) && DecimalValue(text) == i + 1 && (|text| > 1 ==> text[0] != '0')
  {
    match g
    case Day =>
      HourLabelText(i);
      PadStart(DecimalString(i), 2, '0') + ":00"
    case Month =>
      DecimalRoundTrip(i + 1);
      DecimalString(i + 1)
    case Year => MonthShortNames[i]
  }

  /** An hour below 24 is written as two digits denoting it, then ":00". */
  lemma HourLabelText(i: nat)
    ensures var text := PadStart(DecimalString(i), 2, '0') + ":00";
      i < 24 ==> |text| == 5 && text[2..] == ":00" && AllDigits(text[..2]) && DecimalValue(text[..2]) == i
  {
    if i < 24 {
      var digits := DecimalString(i);
      DecimalRoundTrip(i);
      var padded := PadStart(digits, 2, '0');
      assert (padded + ":00")[..2] == padded;
      if |digits| == 1 {
        assert padded == "0" + digits;
        LeadingZeroIgnored(digits);
      }
    }
  }

  /** What one row adds to a bucket's column: its share of the kind if it falls in the bucket. */
  function SlotShareSum(ts: seq<Transaction>, g: Period, key: int, kind: string): int {
    if ts == [] then 0
    else (if Component(g, ts[0].date) == key then Share(ts[0], kind) else 0) + SlotShareSum(ts[1..], g, key, kind)
  }

  /** Filtering into the bucket, then by type, then summing, adds up each row that falls in both. */
  lemma {:induction false} SlotTotalIsShareSum(ts: seq<Transaction>, g: Period, key: int, kind: string)
    ensures KindTotal(InSlot(ts, g, key), kind) == SlotShareSum(ts, g, key, kind)
  {
    if ts != [] {
      SlotTotalIsShareSum(ts[1..], g, key, kind);
      var rest := InSlot(ts[1..], g, key);
      if Component(g, ts[0].date) == key {
        assert InSlot(ts, g, key) == [ts[0]] + rest;
        assert ([ts[0]] + rest)[1..] == rest;
      } else {
        assert InSlot(ts, g, key) == rest;
      }
    }
  }

  /** Bucket i: its label, and the income and expenses of the rows whose component is its key. */
  function Bucket(g: Period, ts: seq<Transaction>, i: nat): (p: ChartPoint)
    requires g == Year ==> i < 12
    ensures p.caption == BucketLabel(g, i)
    ensures p.income == SlotShareSum(ts, g, SlotKey(g, i), IncomeKind)
    ensures p.expenses == SlotShareSum(ts, g, SlotKey(g, i), ExpenseKind)
  {
    var slot := InSlot(ts, g, SlotKey(g, i));
    SlotTotalIsShareSum(ts, g, SlotKey(g, i), IncomeKind);
    SlotTotalIsShareSum(ts, g, SlotKey(g, i), ExpenseKind);
    ChartPoint(BucketLabel(g, i), KindTotal(slot, IncomeKind), KindTotal(slot, ExpenseKind))
  }

  /** `Array.from({ length: n }, (_, i) => bucket i)` */
  function Chart(g: Period, anchor: Date, ts: seq<Transaction>): (c: seq<ChartPoint>)
    ensures |c| == BucketCount(g, anchor)
    ensures forall i :: 0 <= i < |c| ==> c[i] == Bucket(g, ts, i)
  {
    var n := BucketCount(g, anchor);
    seq(n, i requires 0 <= i < n => Bucket(g, ts, i))
  }

  // ---------------------------------------------------------------------
  // The handler

  /**
   * GET /api/dashboard with the `period` parameter, the anchor date and the
   * stored transactions.
   */
  function Dashboard(periodParam: Option<string>, anchor: Date, store: seq<Transaction>): (r: Response)
    ensures r.summary.balance == r.summary.income - r.summary.expenses
    ensures r.period == PeriodName(periodParam)
    ensures r.dateRange == ResolveWindow(Granularity(r.period), anchor)
    ensures Granularity(r.period) == Day ==> |r.chartData| == 24
    ensures Granularity(r.period) == Month ==> |r.chartData| == DaysInMonth(anchor.year, anchor.month)
    ensures Granularity(r.period) == Year ==> |r.chartData| == 12
    ensures r.summary.income == ShareSum(Fetch(store, r.dateRange), IncomeKind)
    ensures r.summary.expenses == ShareSum(Fetch(store, r.dateRange), ExpenseKind)
    ensures r.chartData == Chart(Granularity(r.period), anchor, Fetch(store, r.dateRange))
  {
    var period := PeriodName(periodParam);
    var g := Granularity(period);
    var w := ResolveWindow(g, anchor);
    var ts := Fetch(store, w);
    Response(Summarize(ts), Chart(g, anchor, ts), period, w)
  }

  // ---------------------------------------------------------------------
  // Properties

  /** A missing or empty period is the month view; an unknown one is the year view. */
  lemma PeriodDefaults(anchor: Date, store: seq<Transaction>, other: string)
    requires other != "day" && other != "month" && other != ""
    ensures Dashboard(None, anchor, store) == Dashboard(Some(""), anchor, store) == Dashboard(Some("month"), anchor, store)
    ensures Dashboard(Some(other), anchor, store) == Dashboard(Some("year"), anchor, store).(period := other)
  {
    assert PeriodName(None) == PeriodName(Some("")) == PeriodName(Some("month")) == "month";
    assert PeriodName(Some(other)) == other && PeriodName(Some("year")) == "year";
    assert Granularity(other) == Granularity("year") == Year;
  }

  /** Nothing stored: zero totals, and every bucket still present with zero sums. */
  lemma EmptyStore(periodParam: Option<string>, anchor: Date)
    ensures var r := Dashboard(periodParam, anchor, []);
      && r.summary == Summary(0, 0, 0)
      && |r.chartData| == BucketCount(Granularity(r.period), anchor)
      && forall i :: 0 <= i < |r.chartData| ==> r.chartData[i].income == 0 && r.chartData[i].expenses == 0
  {
  }

  /** Sum of the income of a run of chart points. */
  function ChartIncome(c: seq<ChartPoint>): int {
    if c == [] then 0 else ChartIncome(c[..|c| - 1]) + c[|c| - 1].income
  }

  /** Sum of the expenses of a run of chart points. */
  function ChartExpenses(c: seq<ChartPoint>): int {
    if c == [] then 0 else ChartExpenses(c[..|c| - 1]) + c[|c| - 1].expenses
  }

  /** The total of one kind over buckets 0 .. n - 1. */
  function ColumnTotal(ts: seq<Transaction>, g: Period, kind: string, n: nat): int {
    if n == 0 then 0
    else ColumnTotal(ts, g, kind, n - 1) + SlotShareSum(ts, g, SlotKey(g, n - 1), kind)
  }

  lemma {:induction false} ColumnTotalEmpty(g: Period, kind: string, n: nat)
    ensures ColumnTotal([], g, kind, n) == 0
  {
    if n > 0 {
      ColumnTotalEmpty(g, kind, n - 1);
    }
  }

  /** A row prepended to the input adds its share to its own bucket, if that is among the first n. */
  lemma {:induction false} ColumnTotalCons(t: Transaction, ts: seq<Transaction>, g: Period, kind: string, n: nat)
    ensures ColumnTotal([t] + ts, g, kind, n)
         == ColumnTotal(ts, g, kind, n) + (if 0 <= SlotOf(g, t.date) < n then Share(t, kind) else 0)
  {
    if n > 0 {
      ColumnTotalCons(t, ts, g, kind, n - 1);
      var key := SlotKey(g, n - 1);
      assert ([t] + ts)[1..] == ts;
      assert SlotShareSum([t] + ts, g, key, kind)
          == (if Component(g, t.date) == key then Share(t, kind) else 0) + SlotShareSum(ts, g, key, kind);
      assert Component(g, t.date) == key <==> SlotOf(g, t.date) == n - 1;
    }
  }

  /** When every row's bucket is among the first n, the buckets together hold the whole total. */
  lemma {:induction false} ColumnTotalCoversAll(ts: seq<Transaction>, g: Period, kind: string, n: nat)
    requires forall t :: t in ts ==> 0 <= SlotOf(g, t.date) < n
    ensures ColumnTotal(ts, g, kind, n) == ShareSum(ts, kind)
  {
    if ts == [] {
      ColumnTotalEmpty(g, kind, n);
    } else {
      assert ts == [ts[0]] + ts[1..];
      ColumnTotalCons(ts[0], ts[1..], g, kind, n);
      ColumnTotalCoversAll(ts[1..], g, kind, n);
    }
  }

  /** Chart point p holds the income and expense totals of bucket i. */
  predicate HoldsBucket(p: ChartPoint, g: Period, ts: seq<Transaction>, i: nat) {
    var key := SlotKey(g, i);
    p.income == SlotShareSum(ts, g, key, IncomeKind) && p.expenses == SlotShareSum(ts, g, key, ExpenseKind)
  }

  /** Extending a prefix of the chart by one point adds that point's sums. */
  lemma ChartPrefixStep(c: seq<ChartPoint>, n: nat)
    requires 0 < n <= |c|
    ensures ChartIncome(c[..n]) == ChartIncome(c[..n - 1]) + c[n - 1].income
    ensures ChartExpenses(c[..n]) == ChartExpenses(c[..n - 1]) + c[n - 1].expenses
  {
    assert c[..n][..n - 1] == c[..n - 1];
  }

  /** The first n chart points sum to the column total of the first n buckets. */
  lemma {:induction false} ChartPrefixSums(c: seq<ChartPoint>, g: Period, ts: seq<Transaction>, n: nat)
    requires n <= |c|
    requires forall i :: 0 <= i < |c| ==> HoldsBucket(c[i], g, ts, i)
    ensures ChartIncome(c[..n]) == ColumnTotal(ts, g, IncomeKind, n)
    ensures ChartExpenses(c[..n]) == ColumnTotal(ts, g, ExpenseKind, n)
  {
    if n > 0 {
      ChartPrefixSums(c, g, ts, n - 1);
      ChartPrefixStep(c, n);
      assert HoldsBucket(c[n - 1], g, ts, n - 1);
    }
  }

  /** Every fetched row falls in one of the buckets. */
  lemma FetchedRowsHaveABucket(g: Period, anchor: Date, store: seq<Transaction>)
    ensures forall t :: t in Fetch(store, ResolveWindow(g, anchor)) ==> 0 <= SlotOf(g, t.date) < BucketCount(g, anchor)
  {
    forall t | t in Fetch(store, ResolveWindow(g, anchor))
      ensures 0 <= SlotOf(g, t.date) < BucketCount(g, anchor)
    {
      InWindowIff(g, anchor, t.date);
    }
  }

  /** Point i of the chart holds the sums of bucket i. */
  lemma ChartHoldsBuckets(g: Period, anchor: Date, ts: seq<Transaction>)
    ensures var c := Chart(g, anchor, ts); forall i :: 0 <= i < |c| ==> HoldsBucket(c[i], g, ts, i)
  {
    var c := Chart(g, anchor, ts);
    forall i | 0 <= i < |c|
      ensures HoldsBucket(c[i], g, ts, i)
    {
      var p := Bucket(g, ts, i);
      assert c[i] == p;
    }
  }

  /** When every row has a bucket, the chart's columns add up to the totals of the rows. */
  lemma ChartConserves(g: Period, anchor: Date, ts: seq<Transaction>)
    requires forall t :: t in ts ==> 0 <= SlotOf(g, t.date) < BucketCount(g, anchor)
    ensures ChartIncome(Chart(g, anchor, ts)) == ShareSum(ts, IncomeKind)
    ensures ChartExpenses(Chart(g, anchor, ts)) == ShareSum(ts, ExpenseKind)
  {
    ChartHoldsBuckets(g, anchor, ts);
    ColumnsConserve(Chart(g, anchor, ts), g, ts);
  }

  /** A run of points holding buckets 0 .. |c| - 1 sums to the totals of rows that all fall in those buckets. */
  lemma ColumnsConserve(c: seq<ChartPoint>, g: Period, ts: seq<Transaction>)
    requires forall i :: 0 <= i < |c| ==> HoldsBucket(c[i], g, ts, i)
    requires forall t :: t in ts ==> 0 <= SlotOf(g, t.date) < |c|
    ensures ChartIncome(c) == ShareSum(ts, IncomeKind)
    ensures ChartExpenses(c) == ShareSum(ts, ExpenseKind)
  {
    var n := |c|;
    ChartPrefixSums(c, g, ts, n);
    assert c[..n] == c;
    ColumnTotalCoversAll(ts, g, IncomeKind, n);
    ColumnTotalCoversAll(ts, g, ExpenseKind, n);
  }

  /**
   * Each fetched transaction lands in exactly one bucket, so the buckets'
   * incomes add up to the summary income and their expenses to the summary
   * expenses.
   */
  lemma BucketsConserveTotals(periodParam: Option<string>, anchor: Date, store: seq<Transaction>)
    ensures var r := Dashboard(periodParam, anchor, store);
      ChartIncome(r.chartData) == r.summary.income && ChartExpenses(r.chartData) == r.summary.expenses
  {
    var g := Granularity(PeriodName(periodParam));
    var ts := Fetch(store, ResolveWindow(g, anchor));
    assert Dashboard(periodParam, anchor, store).chartData == Chart(g, anchor, ts);
    assert Dashboard(periodParam, anchor, store).summary == Summarize(ts);
    FetchedRowsHaveABucket(g, anchor, store);
    ChartConserves(g, anchor, ts);
  }

  /** The rows whose type is "income" or "expense". */
  function Relevant(ts: seq<Transaction>): (r: seq<Transaction>)
    ensures forall t :: t in r <==> t in ts && (t.kind == IncomeKind || t.kind == ExpenseKind)
    ensures forall t :: multiset(r)[t] == if t.kind == IncomeKind || t.kind == ExpenseKind then multiset(ts)[t] else 0
  {
    if ts == [] then []
    else
      assert ts == [ts[0]] + ts[1..];
      (if ts[0].kind == IncomeKind || ts[0].kind == ExpenseKind then [ts[0]] else []) + Relevant(ts[1..])
  }

  lemma {:induction false} KindTotalOfRelevant(ts: seq<Transaction>, kind: string)
    requires kind == IncomeKind || kind == ExpenseKind
    ensures KindTotal(Relevant(ts), kind) == KindTotal(ts, kind)
  {
    if ts != [] {
      KindTotalOfRelevant(ts[1..], kind);
      var rest := Relevant(ts[1..]);
      assert ShareSum(ts, kind) == Share(ts[0], kind) + ShareSum(ts[1..], kind);
      if ts[0].kind == IncomeKind || ts[0].kind == ExpenseKind {
        assert Relevant(ts) == [ts[0]] + rest;
        assert ([ts[0]] + rest)[1..] == rest;
        assert ShareSum([ts[0]] + rest, kind) == Share(ts[0], kind) + ShareSum(rest, kind);
      } else {
        assert Relevant(ts) == rest;
        assert Share(ts[0], kind) == 0;
      }
    }
  }

  lemma {:induction false} FetchOfRelevant(store: seq<Transaction>, w: Window)
    ensures Fetch(Relevant(store), w) == Relevant(Fetch(store, w))
  {
    if store != [] {
      FetchOfRelevant(store[1..], w);
      var t := store[0];
      var rest := Relevant(store[1..]);
      if t.kind == IncomeKind || t.kind == ExpenseKind {
        assert Relevant(store) == [t] + rest;
        assert ([t] + rest)[1..] == rest;
        if InWindow(t.date, w) {
          assert Fetch(store, w) == [t] + Fetch(store[1..], w);
          assert ([t] + Fetch(store[1..], w))[1..] == Fetch(store[1..], w);
        } else {
          assert Fetch(store, w) == Fetch(store[1..], w);
        }
      } else {
        assert Relevant(store) == rest;
        if InWindow(t.date, w) {
          assert Fetch(store, w) == [t] + Fetch(store[1..], w);
          assert ([t] + Fetch(store[1..], w))[1..] == Fetch(store[1..], w);
        } else {
          assert Fetch(store, w) == Fetch(store[1..], w);
        }
      }
    }
  }

  lemma {:induction false} InSlotOfRelevant(ts: seq<Transaction>, g: Period, key: int)
    ensures InSlot(Relevant(ts), g, key) == Relevant(InSlot(ts, g, key))
  {
    if ts != [] {
      InSlotOfRelevant(ts[1..], g, key);
      var t := ts[0];
      var rest := Relevant(ts[1..]);
      var slot := InSlot(ts[1..], g, key);
      if t.kind == IncomeKind || t.kind == ExpenseKind {
        assert Relevant(ts) == [t] + rest;
        assert ([t] + rest)[1..] == rest;
        if Component(g, t.date) == key {
          assert InSlot(ts, g, key) == [t] + slot;
          assert ([t] + slot)[1..] == slot;
        } else {
          assert InSlot(ts, g, key) == slot;
        }
      } else {
        assert Relevant(ts) == rest;
        if Component(g, t.date) == key {
          assert InSlot(ts, g, key) == [t] + slot;
          assert ([t] + slot)[1..] == slot;
        } else {
          assert InSlot(ts, g, key) == slot;
        }
      }
    }
  }

  /** Rows of other types leave every bucket as it is. */
  lemma ChartOfRelevant(g: Period, anchor: Date, ts: seq<Transaction>)
    ensures Chart(g, anchor, Relevant(ts)) == Chart(g, anchor, ts)
  {
    var c, c' := Chart(g, anchor, ts), Chart(g, anchor, Relevant(ts));
    forall i | 0 <= i < |c| ensures c'[i] == c[i] {
      var slot := InSlot(ts, g, SlotKey(g, i));
      InSlotOfRelevant(ts, g, SlotKey(g, i));
      KindTotalOfRelevant(slot, IncomeKind);
      KindTotalOfRelevant(slot, ExpenseKind);
    }
  }

  /** Rows of any type other than "income" and "expense" change neither a total nor a bucket. */
  lemma OtherKindsIgnored(periodParam: Option<string>, anchor: Date, store: seq<Transaction>)
    ensures Dashboard(periodParam, anchor, Relevant(store)) == Dashboard(periodParam, anchor, store)
  {
    var g := Granularity(PeriodName(periodParam));
    var w := ResolveWindow(g, anchor);
    var ts := Fetch(store, w);
    FetchOfRelevant(store, w);
    KindTotalOfRelevant(ts, IncomeKind);
    KindTotalOfRelevant(ts, ExpenseKind);
    assert Summarize(Relevant(ts)) == Summarize(ts);
    ChartOfRelevant(g, anchor, ts);
  }

  // ---------------------------------------------------------------------
  // Examples: February windows, and two rows on 5 March 2024

  /** February 2024 (a leap year): the window ends on the 29th and there are 29 buckets. */
  lemma LeapFebruaryExample(anchor: Date)
    requires anchor == Timestamp(2024, 1, 15, 0, 0, 0, 0)
    ensures DaysInMonth(2024, 1) == 29
    ensures ResolveWindow(Month, anchor)
         == Window(Timestamp(2024, 1, 1, 0, 0, 0, 0), Timestamp(2024, 1, 29, 23, 59, 59, 999))
    ensures BucketCount(Month, anchor) == 29
  {
    assert IsLeapYear(2024);
    assert DaysInMonth(2024, 1) == 29;
    var w := ResolveWindow(Month, anchor);
    assert w.start == Timestamp(2024, 1, 1, 0, 0, 0, 0);
    assert w.end == Timestamp(2024, 1, 29, 23, 59, 59, 999);
  }

  /** February 2023: 28 buckets. */
  lemma CommonFebruaryExample(anchor: Date)
    requires anchor == Timestamp(2023, 1, 10, 0, 0, 0, 0)
    ensures BucketCount(Month, anchor) == 28
  {
    assert !IsLeapYear(2023);
  }

  /** The year window of an anchor in June 2023 spans 1 January to 31 December 2023. */
  lemma YearWindowExample(anchor: Date)
    requires anchor == Timestamp(2023, 5, 1, 0, 0, 0, 0)
    ensures ResolveWindow(Year, anchor)
         == Window(Timestamp(2023, 0, 1, 0, 0, 0, 0), Timestamp(2023, 11, 31, 23, 59, 59, 999))
  {
  }

  /** Example rows: an expense of 18.75 and an income of 2500.00, both on 5 March 2024 at 10:30. */
  predicate MarchRows(day5: Date, store: seq<Transaction>) {
    && day5 == Timestamp(2024, 2, 5, 10, 30, 0, 0)
    && |store| == 2
    && store[0].kind == ExpenseKind && store[0].amount == 1875 && store[0].date == day5
    && store[1].kind == IncomeKind && store[1].amount == 250000 && store[1].date == day5
  }

  /** Both example rows lie in the March window. */
  lemma MarchWindowKeepsRows(day5: Date, store: seq<Transaction>)
    requires MarchRows(day5, store)
    ensures Fetch(store, ResolveWindow(Month, day5)) == store
  {
    var w := ResolveWindow(Month, day5);
    InWindowIff(Month, day5, day5);
    assert forall t :: t in store ==> t.date == day5;
    FetchKeepsAll(store, w);
  }

  /** Both rows lie in the March window; their totals by type. */
  lemma MarchTotals(day5: Date, store: seq<Transaction>)
    requires MarchRows(day5, store)
    ensures Fetch(store, ResolveWindow(Month, day5)) == store
    ensures Summarize(store) == Summary(250000, 1875, 248125)
  {
    MarchWindowKeepsRows(day5, store);
    var rest := store[1..];
    assert rest[1..] == [];
    assert ShareSum(rest, IncomeKind) == 250000 && ShareSum(rest, ExpenseKind) == 0;
    assert ShareSum(store, IncomeKind) == 250000 && ShareSum(store, ExpenseKind) == 1875;
  }

  /** Every day bucket other than the 5th is empty. */
  lemma MarchOtherDaysEmpty(day5: Date, store: seq<Transaction>, i: nat)
    requires MarchRows(day5, store)
    requires i < 31 && i != 4
    ensures Bucket(Month, store, i).income == 0 && Bucket(Month, store, i).expenses == 0
  {
    assert store[2..] == [];
    assert InSlot(store[1..], Month, i + 1) == InSlot(store[2..], Month, i + 1);
    assert InSlot(store, Month, i + 1) == [];
  }

  /** The fifth day bucket is labelled "5". */
  lemma FifthDayLabel()
    ensures BucketLabel(Month, 4) == "5"
  {
    assert DigitChar(5) == '5';
  }

  /** Bucket "5" holds both rows. */
  lemma MarchFifthDay(day5: Date, store: seq<Transaction>)
    requires MarchRows(day5, store)
    ensures Bucket(Month, store, 4) == ChartPoint("5", 250000, 1875)
  {
    assert store[2..] == [];
    assert store[1..][1..] == store[2..];
    assert SlotShareSum(store[1..], Month, 5, IncomeKind) == 250000;
    assert SlotShareSum(store[1..], Month, 5, ExpenseKind) == 0;
    assert SlotShareSum(store, Month, 5, IncomeKind) == 250000;
    assert SlotShareSum(store, Month, 5, ExpenseKind) == 1875;
    FifthDayLabel();
  }

  /** The day buckets of the example: both rows in bucket "5", all others empty. */
  lemma MarchBuckets(day5: Date, store: seq<Transaction>)
    requires MarchRows(day5, store)
    ensures var c := Chart(Month, day5, store);
      && |c| == 31
      && c[4] == ChartPoint("5", 250000, 1875)
      && forall i :: 0 <= i < 31 && i != 4 ==> c[i].income == 0 && c[i].expenses == 0
  {
    var c := Chart(Month, day5, store);
    assert |c| == DaysInMonth(2024, 2) == 31;
    forall i | 0 <= i < 31 && i != 4
      ensures c[i].income == 0 && c[i].expenses == 0
    {
      MarchOtherDaysEmpty(day5, store, i);
    }
    MarchFifthDay(day5, store);
  }

  /** The example in the month view: totals, balance, and the two rows in bucket "5". */
  lemma MarchExample(day5: Date, store: seq<Transaction>)
    requires MarchRows(day5, store)
    ensures var r := Dashboard(Some("month"), day5, store);
      && r.summary == Summary(250000, 1875, 248125)
      && |r.chartData| == 31
      && r.chartData[4] == ChartPoint("5", 250000, 1875)
      && forall i :: 0 <= i < 31 && i != 4 ==> r.chartData[i].income == 0 && r.chartData[i].expenses == 0
  {
    MarchTotals(day5, store);
    MarchBuckets(day5, store);
    assert Granularity(PeriodName(Some("month"))) == Month;
  }

  // ---------------------------------------------------------------------
  // Two-digit anchor years

  /**
   * The window exactly as the handler computes it: the month and year
   * branches build their bounds with `new Date(year, ...)`.
   */
  function ResolveWindowAsWritten(g: Period, anchor: Date): (w: Window)
    ensures g == Day ==> w == ResolveWindow(Day, anchor)
    ensures g != Day ==> w.start.year == w.end.year == ConstructorYear(anchor.year)
    ensures g == Month ==> w.end.day == DaysInMonth(ConstructorYear(anchor.year), anchor.month)
  {
    var y, m := anchor.year, anchor.month;
    match g
    case Day => Window(SetHours(anchor, 0, 0, 0, 0), SetHours(anchor, 23, 59, 59, 999))
    case Month =>
      var fy := ConstructorYear(y);
      MakeLocalDateInRange(fy, m, 1, 0, 0, 0, 0);
      DayZeroIsLastDay(fy, m, 23, 59, 59, 999);
      Window(NewDate(y, m, 1, 0, 0, 0, 0), NewDate(y, m + 1, 0, 23, 59, 59, 999))
    case Year =>
      var fy := ConstructorYear(y);
      MakeLocalDateInRange(fy, 0, 1, 0, 0, 0, 0);
      MakeLocalDateInRange(fy, 11, 31, 23, 59, 59, 999);
      Window(NewDate(y, 0, 1, 0, 0, 0, 0), NewDate(y, 11, 31, 23, 59, 59, 999))
  }

  /** The bucket count exactly as the handler computes it, through `new Date(year, month + 1, 0)`. */
  function BucketCountAsWritten(g: Period, anchor: Date): (n: nat)
    ensures g == Month ==> n == DaysInMonth(ConstructorYear(anchor.year), anchor.month)
    ensures g != Month ==> n == BucketCount(g, anchor)
  {
    match g
    case Day => 24
    case Month =>
      DayZeroIsLastDay(ConstructorYear(anchor.year), anchor.month, 0, 0, 0, 0);
      NewDate(anchor.year, anchor.month + 1, 0, 0, 0, 0, 0).day
    case Year => 12
  }

  /** For every anchor year outside 0..99 the handler's computation is the one modelled above. */
  lemma AsWrittenAgreesOutsideTwoDigitYears(g: Period, anchor: Date)
    requires !(0 <= anchor.year <= 99)
    ensures ResolveWindowAsWritten(g, anchor) == ResolveWindow(g, anchor)
    ensures BucketCountAsWritten(g, anchor) == BucketCount(g, anchor)
  {
  }

  /** Anchor 5 March of year 50: the handler's month window is March 1950 and misses the anchor. */
  lemma TwoDigitYearShiftsWindow()
    ensures var anchor: Date := Timestamp(50, 2, 5, 0, 0, 0, 0);
      var w := ResolveWindowAsWritten(Month, anchor);
      && w.start == Timestamp(1950, 2, 1, 0, 0, 0, 0)
      && !InWindow(anchor, w)
      && InWindow(anchor, ResolveWindow(Month, anchor))
  {
    var anchor: Date := Timestamp(50, 2, 5, 0, 0, 0, 0);
    MakeLocalDateInRange(1950, 2, 1, 0, 0, 0, 0);
    InWindowIff(Month, anchor, anchor);
  }

  /** Anchor in February of year 0 (a leap year): the handler builds 28 buckets, not 29. */
  lemma TwoDigitYearBucketCount()
    ensures var anchor: Date := Timestamp(0, 1, 15, 0, 0, 0, 0);
      && BucketCountAsWritten(Month, anchor) == 28
      && BucketCount(Month, anchor) == DaysInMonth(0, 1) == 29
  {
    var anchor: Date := Timestamp(0, 1, 15, 0, 0, 0, 0);
    var y := ConstructorYear(anchor.year);
    assert y == 1900;
    DayZeroIsLastDay(y, 1, 0, 0, 0, 0);
    assert !IsLeapYear(y);
    assert IsLeapYear(anchor.year);
  }
}
