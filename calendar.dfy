/**
 * Local calendar time as the JavaScript `Date` object exposes it through
 * getFullYear/getMonth/getDate/getHours/getMinutes/getSeconds/getMilliseconds,
 * and the normalising constructor `new Date(y, m, d, h, mi, s, ms)`.
 * Months are 0-based (0 = January), days 1-based, as in JavaScript.
 */
module Calendar {

  datatype Timestamp = Timestamp(year: int, month: int, day: int,
                                 hour: int, minute: int, second: int, millisecond: int)
  {
    /** The components name an existing instant of the proleptic Gregorian calendar. */
    predicate Valid() {
      && 0 <= month < 12
      && 1 <= day <= DaysInMonth(year, month)
      && 0 <= hour < 24
      && 0 <= minute < 60
      && 0 <= second < 60
      && 0 <= millisecond < 1000
    }
  }

  /** What a valid JavaScript `Date` holds; an Invalid Date is not modelled. */
  type Date = t: Timestamp | t.Valid() witness Timestamp(1970, 0, 1, 0, 0, 0, 0)

  predicate IsLeapYear(y: int) {
    y % 4 == 0 && (y % 100 != 0 || y % 400 == 0)
  }

  function DaysInMonth(y: int, m: int): (n: int)
    requires 0 <= m < 12
    ensures 28 <= n <= 31
    ensures m == 1 ==> (n == 29 <==> IsLeapYear(y)) && (n == 28 <==> !IsLeapYear(y))
    ensures m in {3, 5, 8, 10} <==> n == 30
    ensures m in {0, 2, 4, 6, 7, 9, 11} <==> n == 31
  {
    if m == 1 then (if IsLeapYear(y) then 29 else 28)
    else if m == 3 || m == 5 || m == 8 || m == 10 then 30
    else 31
  }

  function YearLength(y: int): int {
    if IsLeapYear(y) then 366 else 365
  }

  /** Days from 1 January of year 0 to 1 January of year y (negative for earlier years). */
  function DaysBeforeYear(y: int): int
    decreases if y < 0 then -y else y
  {
    if y == 0 then 0
    else if y > 0 then DaysBeforeYear(y - 1) + YearLength(y - 1)
    else DaysBeforeYear(y + 1) - YearLength(y)
  }

  /** Days from 1 January of year y to the first of month m. */
  function DaysBeforeMonth(y: int, m: int): int
    requires 0 <= m <= 12
  {
    if m == 0 then 0 else DaysBeforeMonth(y, m - 1) + DaysInMonth(y, m - 1)
  }

  /** The day number of the first of month m of year y, counted from 1 January of year 0. */
  function DaysBefore(y: int, m: int): int
    requires 0 <= m < 12
  {
    DaysBeforeYear(y) + DaysBeforeMonth(y, m)
  }

  lemma YearStep(y: int)
    ensures DaysBeforeYear(y + 1) == DaysBeforeYear(y) + YearLength(y)
  {
  }

  /** The twelve months fill the year. */
  lemma MonthsFillYear(y: int)
    ensures DaysBeforeMonth(y, 12) == YearLength(y)
  {
    var feb := DaysInMonth(y, 1);
    assert DaysBeforeMonth(y, 1) == 31;
    assert DaysBeforeMonth(y, 2) == 31 + feb;
    assert DaysBeforeMonth(y, 3) == 62 + feb;
    assert DaysBeforeMonth(y, 4) == 92 + feb;
    assert DaysBeforeMonth(y, 5) == 123 + feb;
    assert DaysBeforeMonth(y, 6) == 153 + feb;
    assert DaysBeforeMonth(y, 7) == 184 + feb;
    assert DaysBeforeMonth(y, 8) == 215 + feb;
    assert DaysBeforeMonth(y, 9) == 245 + feb;
    assert DaysBeforeMonth(y, 10) == 276 + feb;
    assert DaysBeforeMonth(y, 11) == 306 + feb;
  }

  /** The first of the month after month m lies DaysInMonth(y, m) days after the first of m. */
  lemma MonthStep(y: int, m: int)
    requires 0 <= m < 12
    ensures var (ny, nm) := if m == 11 then (y + 1, 0) else (y, m + 1);
      DaysBefore(ny, nm) == DaysBefore(y, m) + DaysInMonth(y, m)
  {
    if m == 11 {
      YearStep(y);
      MonthsFillYear(y);
    }
  }

  /**
   * Walks a day number that may lie outside month m of year y onto the
   * month it falls in: day 0 is the last day of the previous month, day
   * DaysInMonth + 1 the first of the next, and so on in both directions.
   */
  function NormalizeDay(y: int, m: int, d: int): (r: (int, int, int))
    requires 0 <= m < 12
    ensures 0 <= r.1 < 12 && 1 <= r.2 <= DaysInMonth(r.0, r.1)
    decreases if d < 1 then 1 - d else 0, if d < 1 then 0 else d
  {
    if d < 1 then
      var (py, pm) := if m == 0 then (y - 1, 11) else (y, m - 1);
      NormalizeDay(py, pm, d + DaysInMonth(py, pm))
    else if d > DaysInMonth(y, m) then
      var (ny, nm) := if m == 11 then (y + 1, 0) else (y, m + 1);
      NormalizeDay(ny, nm, d - DaysInMonth(y, m))
    else
      (y, m, d)
  }

  /** The walk lands on the same day: d - 1 days after the first of month m of year y. */
  lemma {:induction false} NormalizeDayKeepsDay(y: int, m: int, d: int)
    requires 0 <= m < 12
    ensures var r := NormalizeDay(y, m, d);
      DaysBefore(r.0, r.1) + r.2 == DaysBefore(y, m) + d
    decreases if d < 1 then 1 - d else 0, if d < 1 then 0 else d
  {
    if d < 1 {
      var (py, pm) := if m == 0 then (y - 1, 11) else (y, m - 1);
      MonthStep(py, pm);
      NormalizeDayKeepsDay(py, pm, d + DaysInMonth(py, pm));
    } else if d > DaysInMonth(y, m) {
      var (ny, nm) := if m == 11 then (y + 1, 0) else (y, m + 1);
      MonthStep(y, m);
      NormalizeDayKeepsDay(ny, nm, d - DaysInMonth(y, m));
    }
  }

  /**
   * MakeDay of the ECMAScript standard: the day number of day d of month m
   * of year y, where m may lie outside 0..11 and is first folded into the
   * year with floor division.
   */
  function MakeDay(y: int, m: int, d: int): int {
    DaysBefore(y + m / 12, m % 12) + d - 1
  }

  /** MakeTime of the ECMAScript standard: milliseconds since midnight, components unbounded. */
  function MakeTime(h: int, mi: int, s: int, ms: int): int {
    h * 3600000 + mi * 60000 + s * 1000 + ms
  }

  /** The time value of an instant, MakeDate(MakeDay(...), MakeTime(...)), with 86400000 ms per day. */
  function TimeValue(t: Timestamp): int {
    MakeDay(t.year, t.month, t.day) * 86400000 + MakeTime(t.hour, t.minute, t.second, t.millisecond)
  }

  /**
   * `new Date(y, m, d, h, mi, s, ms)` for a full year y: every component may
   * overflow or underflow and is carried into the next larger one with floor
   * semantics (Dafny's `/` and `%` by a positive constant are floor division
   * and its non-negative remainder, as the standard's MakeDay/MakeTime use).
   */
  function MakeLocalDate(y: int, m: int, d: int, h: int, mi: int, s: int, ms: int): Date
  {
    var s1 := s + ms / 1000;
    var mi1 := mi + s1 / 60;
    var h1 := h + mi1 / 60;
    var d1 := d + h1 / 24;
    var r := NormalizeDay(y + m / 12, m % 12, d1);
    Timestamp(r.0, r.1, r.2, h1 % 24, mi1 % 60, s1 % 60, ms % 1000)
  }

  /**
   * The constructor's result is the valid date whose time value is the one
   * the standard's MakeDate gives for the raw components.
   */
  lemma MakeLocalDateTimeValue(y: int, m: int, d: int, h: int, mi: int, s: int, ms: int)
    ensures TimeValue(MakeLocalDate(y, m, d, h, mi, s, ms)) == MakeDay(y, m, d) * 86400000 + MakeTime(h, mi, s, ms)
  {
    var s1 := s + ms / 1000;
    var mi1 := mi + s1 / 60;
    var h1 := h + mi1 / 60;
    var d1 := d + h1 / 24;
    var ym, mn := y + m / 12, m % 12;
    var r := NormalizeDay(ym, mn, d1);
    var t := MakeLocalDate(y, m, d, h, mi, s, ms);
    assert t == Timestamp(r.0, r.1, r.2, h1 % 24, mi1 % 60, s1 % 60, ms % 1000);
    NormalizeDayKeepsDay(ym, mn, d1);
    assert MakeDay(y, m, d) == DaysBefore(ym, mn) + d - 1;
    DayOfValidMonth(r.0, r.1, r.2);
    var day := MakeDay(r.0, r.1, r.2);
    assert day == MakeDay(y, m, d) + h1 / 24;
    var time := MakeTime(h1 % 24, mi1 % 60, s1 % 60, ms % 1000);
    assert TimeValue(t) == day * 86400000 + time;
    TimeCarry(h, mi, s, ms);
    assert (h1 / 24) * 86400000 + time == MakeTime(h, mi, s, ms);
  }

  /** JavaScript's `new Date(year, ...)` reads a year from 0 to 99 as 1900 + year. */
  function ConstructorYear(y: int): int {
    if 0 <= y <= 99 then 1900 + y else y
  }

  /** `new Date(y, m, d, h, mi, s, ms)` exactly as JavaScript evaluates it. */
  function NewDate(y: int, m: int, d: int, h: int, mi: int, s: int, ms: int): Date
  {
    MakeLocalDate(ConstructorYear(y), m, d, h, mi, s, ms)
  }

  /** `date.setHours(h, mi, s, ms)`: keeps the calendar day, replaces the time, normalises. */
  function SetHours(t: Date, h: int, mi: int, s: int, ms: int): Date
  {
    MakeLocalDate(t.year, t.month, t.day, h, mi, s, ms)
  }

  /** setHours keeps the day number and puts the given time of day on it. */
  lemma SetHoursTimeValue(t: Date, h: int, mi: int, s: int, ms: int)
    ensures TimeValue(SetHours(t, h, mi, s, ms)) == DayNumber(t) * 86400000 + MakeTime(h, mi, s, ms)
  {
    MakeLocalDateTimeValue(t.year, t.month, t.day, h, mi, s, ms);
    DayOfValidMonth(t.year, t.month, t.day);
  }

  /** Carrying milliseconds, seconds, minutes and hours upwards keeps the time they denote. */
  lemma TimeCarry(h: int, mi: int, s: int, ms: int)
    ensures var s1 := s + ms / 1000;
      var mi1 := mi + s1 / 60;
      var h1 := h + mi1 / 60;
      (h1 / 24) * 86400000 + MakeTime(h1 % 24, mi1 % 60, s1 % 60, ms % 1000) == MakeTime(h, mi, s, ms)
  {
    var s1 := s + ms / 1000;
    var mi1 := mi + s1 / 60;
    var h1 := h + mi1 / 60;
    assert ms == (ms / 1000) * 1000 + ms % 1000;
    assert s1 == (s1 / 60) * 60 + s1 % 60;
    assert mi1 == (mi1 / 60) * 60 + mi1 % 60;
    assert h1 == (h1 / 24) * 24 + h1 % 24;
  }

  /** For a month already in range MakeDay needs no folding. */
  lemma DayOfValidMonth(y: int, m: int, d: int)
    requires 0 <= m < 12
    ensures MakeDay(y, m, d) == DaysBefore(y, m) + d - 1
  {
    assert m / 12 == 0 && m % 12 == m;
  }

  /**
   * Chronological order of two instants, compared component by component;
   * on valid dates it is the order of their time values (TimeValueOrder).
   */
  predicate NotAfter(a: Timestamp, b: Timestamp) {
    if a.year != b.year then a.year < b.year
    else if a.month != b.month then a.month < b.month
    else if a.day != b.day then a.day < b.day
    else if a.hour != b.hour then a.hour < b.hour
    else if a.minute != b.minute then a.minute < b.minute
    else if a.second != b.second then a.second < b.second
    else a.millisecond <= b.millisecond
  }

  lemma NotAfterTotal(a: Timestamp, b: Timestamp)
    ensures NotAfter(a, b) || NotAfter(b, a)
  {
  }

  lemma NotAfterTransitive(a: Timestamp, b: Timestamp, c: Timestamp)
    requires NotAfter(a, b) && NotAfter(b, c)
    ensures NotAfter(a, c)
  {
  }

  lemma NotAfterAntisymmetric(a: Timestamp, b: Timestamp)
    requires NotAfter(a, b) && NotAfter(b, a)
    ensures a == b
  {
  }

  /** A month starts no earlier than the end of every month before it in the same year. */
  lemma {:induction false} DaysBeforeMonthGrows(y: int, m1: int, m2: int)
    requires 0 <= m1 < m2 <= 12
    ensures DaysBeforeMonth(y, m1) + DaysInMonth(y, m1) <= DaysBeforeMonth(y, m2)
    decreases m2 - m1
  {
    if m1 + 1 < m2 {
      DaysBeforeMonthGrows(y, m1, m2 - 1);
    }
  }

  /** A year starts no earlier than the end of every year before it. */
  lemma {:induction false} DaysBeforeYearGrows(y1: int, y2: int)
    requires y1 < y2
    ensures DaysBeforeYear(y1) + YearLength(y1) <= DaysBeforeYear(y2)
    decreases y2 - y1
  {
    YearStep(y1);
    if y1 + 1 < y2 {
      DaysBeforeYearGrows(y1 + 1, y2);
    }
  }

  /** Day d of month m of year y, as a day number. */
  function DayNumber(t: Date): int {
    DaysBefore(t.year, t.month) + t.day - 1
  }

  /** A valid date earlier in the calendar has a smaller day number. */
  lemma DayNumberOrder(a: Date, b: Date)
    requires a.year < b.year || (a.year == b.year && (a.month < b.month || (a.month == b.month && a.day < b.day)))
    ensures DayNumber(a) < DayNumber(b)
  {
    if a.year < b.year {
      DaysBeforeMonthGrows(a.year, a.month, 12);
      MonthsFillYear(a.year);
      DaysBeforeYearGrows(a.year, b.year);
      if b.month > 0 {
        DaysBeforeMonthGrows(b.year, 0, b.month);
      }
    } else if a.month < b.month {
      DaysBeforeMonthGrows(a.year, a.month, b.month);
    }
  }

  /** On valid dates, NotAfter is exactly the order of time values. */
  lemma TimeValueOrder(a: Date, b: Date)
    ensures NotAfter(a, b) <==> TimeValue(a) <= TimeValue(b)
  {
    DayOfValidMonth(a.year, a.month, a.day);
    DayOfValidMonth(b.year, b.month, b.day);
    assert TimeValue(a) == DayNumber(a) * 86400000 + MakeTime(a.hour, a.minute, a.second, a.millisecond);
    assert TimeValue(b) == DayNumber(b) * 86400000 + MakeTime(b.hour, b.minute, b.second, b.millisecond);
    if a.year < b.year || (a.year == b.year && (a.month < b.month || (a.month == b.month && a.day < b.day))) {
      DayNumberOrder(a, b);
    } else if b.year < a.year || (a.year == b.year && (b.month < a.month || (a.month == b.month && b.day < a.day))) {
      DayNumberOrder(b, a);
    }
  }

  /** Distinct valid dates have distinct time values. */
  lemma TimeValueInjective(a: Date, b: Date)
    requires TimeValue(a) == TimeValue(b)
    ensures a == b
  {
    TimeValueOrder(a, b);
    TimeValueOrder(b, a);
    NotAfterAntisymmetric(a, b);
  }

  /** In-range components are taken as they are. */
  lemma MakeLocalDateInRange(y: int, m: int, d: int, h: int, mi: int, s: int, ms: int)
    requires Timestamp(y, m, d, h, mi, s, ms).Valid()
    ensures MakeLocalDate(y, m, d, h, mi, s, ms) == Timestamp(y, m, d, h, mi, s, ms)
  {
    var t: Date := Timestamp(y, m, d, h, mi, s, ms);
    var u := MakeLocalDate(y, m, d, h, mi, s, ms);
    MakeLocalDateTimeValue(y, m, d, h, mi, s, ms);
    assert TimeValue(u) == TimeValue(t);
    TimeValueInjective(u, t);
  }

  /**
   * Day 0 of month m + 1 is the last day of month m: the idiom
   * `new Date(y, m + 1, 0)` yields DaysInMonth(y, m), also across December.
   */
  lemma DayZeroIsLastDay(y: int, m: int, h: int, mi: int, s: int, ms: int)
    requires 0 <= m < 12
    requires 0 <= h < 24 && 0 <= mi < 60 && 0 <= s < 60 && 0 <= ms < 1000
    ensures MakeLocalDate(y, m + 1, 0, h, mi, s, ms) == Timestamp(y, m, DaysInMonth(y, m), h, mi, s, ms)
  {
    var last: Date := Timestamp(y, m, DaysInMonth(y, m), h, mi, s, ms);
    DayZeroDayNumber(y, m);
    MakeLocalDateTimeValue(y, m + 1, 0, h, mi, s, ms);
    TimeValueInjective(MakeLocalDate(y, m + 1, 0, h, mi, s, ms), last);
  }

  /** Day 0 of month m + 1 has the day number of the last day of month m. */
  lemma DayZeroDayNumber(y: int, m: int)
    requires 0 <= m < 12
    ensures MakeDay(y, m + 1, 0) == MakeDay(y, m, DaysInMonth(y, m))
  {
    var ny, nm := y + (m + 1) / 12, (m + 1) % 12;
    assert MakeDay(y, m + 1, 0) == DaysBefore(ny, nm) - 1;
    if m == 11 {
      assert ny == y + 1 && nm == 0;
    } else {
      assert ny == y && nm == m + 1;
    }
    MonthStep(y, m);
    DayOfValidMonth(y, m, DaysInMonth(y, m));
  }

  /** `new Date(y, ...)` with a two-digit year y lands in year 1900 + y; other years are kept. */
  lemma NewDateYear(y: int, m: int, d: int, h: int, mi: int, s: int, ms: int)
    requires 0 <= y <= 99 ==> Timestamp(1900 + y, m, d, h, mi, s, ms).Valid()
    requires !(0 <= y <= 99) ==> Timestamp(y, m, d, h, mi, s, ms).Valid()
    ensures 0 <= y <= 99 ==> NewDate(y, m, d, h, mi, s, ms) == Timestamp(1900 + y, m, d, h, mi, s, ms)
    ensures !(0 <= y <= 99) ==> NewDate(y, m, d, h, mi, s, ms) == Timestamp(y, m, d, h, mi, s, ms)
  {
    MakeLocalDateInRange(ConstructorYear(y), m, d, h, mi, s, ms);
  }
}
