/**
 * Wall-clock date-times as Python's `datetime` holds them (years 1 to 9999,
 * an optional fixed UTC offset in minutes) and `datetime + timedelta(minutes=n)`.
 */
module Calendar {
  import opened Common

  predicate IsLeap(y: int)
  {
    y % 4 == 0 && (y % 100 != 0 || y % 400 == 0)
  }

  function DaysInMonth(y: int, m: int): (n: int)
    requires 1 <= m <= 12
    ensures 28 <= n <= 31
  {
    if m == 2 then (if IsLeap(y) then 29 else 28)
    else if m == 4 || m == 6 || m == 9 || m == 11 then 30
    else 31
  }

  datatype Date = Date(year: int, month: int, day: int)

  /** A day of the proleptic Gregorian calendar, in any year. */
  predicate IsCalendarDate(d: Date)
  {
    1 <= d.month <= 12 && 1 <= d.day <= DaysInMonth(d.year, d.month)
  }

  /** A day Python's `date` can hold. */
  predicate ValidDate(d: Date)
  {
    IsCalendarDate(d) && 1 <= d.year <= 9999
  }

  /** Days from 0001-01-01 to January 1st of year `y`. */
  function DaysBeforeYear(y: int): int
  {
    365 * (y - 1) + (y - 1) / 4 - (y - 1) / 100 + (y - 1) / 400
  }

  /** Days from January 1st to the first of month `m`. */
  function DaysBeforeMonth(y: int, m: int): int
    requires 1 <= m <= 12
  {
    var leap := if IsLeap(y) then 1 else 0;
    if m == 1 then 0 else if m == 2 then 31
    else leap + (if m == 3 then 59 else if m == 4 then 90 else if m == 5 then 120
      else if m == 6 then 151 else if m == 7 then 181 else if m == 8 then 212
      else if m == 9 then 243 else if m == 10 then 273 else if m == 11 then 304 else 334)
  }

  /** The day's distance from 0001-01-01: an independent count to check date stepping against. */
  function DayNumber(d: Date): int
    requires IsCalendarDate(d)
  {
    DaysBeforeYear(d.year) + DaysBeforeMonth(d.year, d.month) + d.day - 1
  }

  lemma YearLength(y: int)
    ensures DaysBeforeYear(y + 1) == DaysBeforeYear(y) + 365 + (if IsLeap(y) then 1 else 0)
  {
    assert y / 4 - (y - 1) / 4 == if y % 4 == 0 then 1 else 0;
    assert y / 100 - (y - 1) / 100 == if y % 100 == 0 then 1 else 0;
    assert y / 400 - (y - 1) / 400 == if y % 400 == 0 then 1 else 0;
    assert y % 100 == 0 ==> y % 4 == 0;
    assert y % 400 == 0 ==> y % 100 == 0;
  }

  /** Every day of year `y` lies between the first day of `y` and the first of `y + 1`. */
  lemma DayNumberInYear(d: Date)
    requires IsCalendarDate(d)
    ensures DaysBeforeYear(d.year) <= DayNumber(d) < DaysBeforeYear(d.year + 1)
  {
    YearLength(d.year);
  }

  lemma {:induction false} DaysBeforeYearMonotone(a: int, b: int)
    requires a <= b
    ensures DaysBeforeYear(a) <= DaysBeforeYear(b)
    decreases b - a
  {
    if a < b {
      YearLength(a);
      DaysBeforeYearMonotone(a + 1, b);
    }
  }

  /** The day after `d`. */
  function NextDay(d: Date): (r: Date)
    requires IsCalendarDate(d)
    ensures IsCalendarDate(r) && DayNumber(r) == DayNumber(d) + 1
  {
    if d.day < DaysInMonth(d.year, d.month) then Date(d.year, d.month, d.day + 1)
    else if d.month < 12 then Date(d.year, d.month + 1, 1)
    else YearLength(d.year); Date(d.year + 1, 1, 1)
  }

  /** The day before `d`. */
  function PrevDay(d: Date): (r: Date)
    requires IsCalendarDate(d)
    ensures IsCalendarDate(r) && DayNumber(r) == DayNumber(d) - 1
  {
    if d.day > 1 then Date(d.year, d.month, d.day - 1)
    else if d.month > 1 then Date(d.year, d.month - 1, DaysInMonth(d.year, d.month - 1))
    else YearLength(d.year - 1); Date(d.year - 1, 12, 31)
  }

  /** `k` days after `d` (before it when `k < 0`). */
  function AddDays(d: Date, k: int): (r: Date)
    requires IsCalendarDate(d)
    ensures IsCalendarDate(r) && DayNumber(r) == DayNumber(d) + k
    decreases if k < 0 then -k else k
  {
    if k == 0 then d
    else if k > 0 then AddDays(NextDay(d), k - 1)
    else AddDays(PrevDay(d), k + 1)
  }

  /** A `datetime` with whole seconds and, when aware, an offset of whole minutes. */
  datatype DateTime = DateTime(date: Date, hour: int, minute: int, second: int, offset: Option<int>)

  /** What Python's `datetime` and `timezone` accept: offsets strictly inside one day. */
  predicate ValidOffset(offset: Option<int>)
  {
    offset.Some? ==> -1440 < offset.value < 1440
  }

  predicate ValidDateTime(t: DateTime)
  {
    ValidDate(t.date) && 0 <= t.hour < 24 && 0 <= t.minute < 60 && 0 <= t.second < 60
    && ValidOffset(t.offset)
  }

  /** Wall-clock minutes since 0001-01-01T00:00 (seconds and offset aside). */
  function Ordinal(t: DateTime): int
    requires IsCalendarDate(t.date)
  {
    DayNumber(t.date) * 1440 + t.hour * 60 + t.minute
  }

  /** One past the largest `Ordinal` a valid `DateTime` can have. */
  const OrdinalLimit: int := 1440 * DaysBeforeYear(10000)

  /**
   * `t + timedelta(minutes=n)`: the wall clock moves by `n` minutes, seconds and
   * offset stay; `None` is the `OverflowError` raised when the year leaves 1..9999.
   */
  function AddMinutes(t: DateTime, n: int): (r: Option<DateTime>)
    requires ValidDateTime(t)
    ensures r.Some? ==> ValidDateTime(r.value) && Ordinal(r.value) == Ordinal(t) + n
                        && r.value.second == t.second && r.value.offset == t.offset
    ensures r.None? <==> !(0 <= Ordinal(t) + n < OrdinalLimit)
  {
    var total := t.hour * 60 + t.minute + n;
    var date := AddDays(t.date, total / 1440);
    var rest := total % 1440;
    DayNumberInYear(date);
    if date.year < 1 then
      DaysBeforeYearMonotone(date.year + 1, 1);
      None
    else if date.year > 9999 then
      DaysBeforeYearMonotone(10000, date.year);
      None
    else
      DaysBeforeYearMonotone(1, date.year);
      DaysBeforeYearMonotone(date.year + 1, 10000);
      Some(DateTime(date, rest / 60, rest % 60, t.second, t.offset))
  }
}
