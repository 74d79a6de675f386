/** Proleptic Gregorian dates and instants, as Python's `datetime.date` and
    (UTC) `datetime.datetime` use them. An instant is a date plus the second of
    that day; the sub-second part is not modelled. */
module Calendar {
  import opened Wrappers

  datatype Date = Date(year: int, month: int, day: int)

  /** Python's `date.min.year` and `date.max.year`. */
  const MinYear: int := 1
  const MaxYear: int := 9999

  const SecondsPerDay: int := 86400

  predicate IsLeapYear(y: int) {
    y % 4 == 0 && (y % 100 != 0 || y % 400 == 0)
  }

  function DaysInMonth(y: int, m: int): (n: int)
    ensures 28 <= n <= 31
  {
    if m == 2 then (if IsLeapYear(y) then 29 else 28)
    else if m == 4 || m == 6 || m == 9 || m == 11 then 30
    else 31
  }

  predicate ValidDate(d: Date) {
    && MinYear <= d.year <= MaxYear
    && 1 <= d.month <= 12
    && 1 <= d.day <= DaysInMonth(d.year, d.month)
  }

  /** Python's `date(y, m, d)`; None stands for the ValueError it raises. */
  function MakeDate(y: int, m: int, d: int): (r: Option<Date>)
    ensures r.Some? <==> ValidDate(Date(y, m, d))
    ensures r.Some? ==> r.value == Date(y, m, d)
  {
    if ValidDate(Date(y, m, d)) then Some(Date(y, m, d)) else None
  }

  /** Python's `d.replace(day=k)`; None stands for the ValueError. */
  function ReplaceDay(d: Date, k: int): Option<Date> {
    MakeDate(d.year, d.month, k)
  }

  /** Strict chronological order of dates (Python's `<` on `date`). */
  predicate Before(a: Date, b: Date) {
    || a.year < b.year
    || (a.year == b.year && a.month < b.month)
    || (a.year == b.year && a.month == b.month && a.day < b.day)
  }

  function NextDay(d: Date): Date {
    if d.day < DaysInMonth(d.year, d.month) then Date(d.year, d.month, d.day + 1)
    else if d.month < 12 then Date(d.year, d.month + 1, 1)
    else Date(d.year + 1, 1, 1)
  }

  function PrevDay(d: Date): Date {
    if d.day > 1 then Date(d.year, d.month, d.day - 1)
    else if d.month > 1 then Date(d.year, d.month - 1, DaysInMonth(d.year, d.month - 1))
    else Date(d.year - 1, 12, 31)
  }

  /** The day after a valid date is later, is valid unless the year runs out,
      and the day before it is the date again. */
  lemma NextDayFacts(d: Date)
    requires ValidDate(d)
    ensures Before(d, NextDay(d))
    ensures d.year < MaxYear ==> ValidDate(NextDay(d))
    ensures PrevDay(NextDay(d)) == d
  {
  }

  /** `d + timedelta(days=n)`. */
  function AddDays(d: Date, n: nat): Date
    decreases n
  {
    if n == 0 then d else AddDays(NextDay(d), n - 1)
  }

  /** `d - timedelta(days=n)`. */
  function SubDays(d: Date, n: nat): Date
    decreases n
  {
    if n == 0 then d else SubDays(PrevDay(d), n - 1)
  }

  lemma {:induction false} AddDaysSplit(d: Date, a: nat, b: nat)
    ensures AddDays(d, a + b) == AddDays(AddDays(d, a), b)
    decreases a
  {
    if a > 0 {
      AddDaysSplit(NextDay(d), a - 1, b);
    }
  }

  /** Adding days without leaving the month only moves the day of month. */
  lemma {:induction false} AddDaysWithinMonth(d: Date, n: nat)
    requires 1 <= d.month <= 12 && 1 <= d.day
    requires d.day + n <= DaysInMonth(d.year, d.month)
    ensures AddDays(d, n) == Date(d.year, d.month, d.day + n)
    decreases n
  {
    if n > 0 {
      AddDaysWithinMonth(NextDay(d), n - 1);
    }
  }

  function FirstOfMonth(d: Date): Date {
    Date(d.year, d.month, 1)
  }

  /** The dashboard's upper bound: the first of the month plus 32 days, with
      the day then replaced by 1 (apps/core/views.py:70-72). */
  function FirstOfNextMonth(d: Date): Date {
    var t := AddDays(FirstOfMonth(d), 32);
    Date(t.year, t.month, 1)
  }

  /** Day 1 plus 32 days always lands in the following month, because every
      month has 28 to 31 days. */
  lemma NextMonthIsFollowingMonth(d: Date)
    requires 1 <= d.month <= 12
    ensures FirstOfNextMonth(d)
            == if d.month < 12 then Date(d.year, d.month + 1, 1) else Date(d.year + 1, 1, 1)
  {
    var f := FirstOfMonth(d);
    var dim := DaysInMonth(d.year, d.month);
    AddDaysSplit(f, dim - 1, 33 - dim);
    AddDaysWithinMonth(f, dim - 1);
    var last := Date(d.year, d.month, dim);
    assert AddDays(last, 33 - dim) == AddDays(NextDay(last), 32 - dim);
    var next := NextDay(last);
    assert next == if d.month < 12 then Date(d.year, d.month + 1, 1) else Date(d.year + 1, 1, 1);
    AddDaysWithinMonth(next, 32 - dim);
  }

  datatype Instant = Instant(date: Date, second: int)

  predicate ValidInstant(t: Instant) {
    ValidDate(t.date) && 0 <= t.second < SecondsPerDay
  }

  /** Strict chronological order of instants. */
  predicate InstantBefore(a: Instant, b: Instant) {
    Before(a.date, b.date) || (a.date == b.date && a.second < b.second)
  }

  /** Instants are totally ordered: `InstantBefore` is a strict weak order
      whose incomparable pairs are equal. */
  lemma InstantOrder(a: Instant, b: Instant, c: Instant)
    ensures !InstantBefore(a, a)
    ensures InstantBefore(a, b) ==> !InstantBefore(b, a)
    ensures InstantBefore(a, b) && InstantBefore(b, c) ==> InstantBefore(a, c)
    ensures !InstantBefore(a, b) && !InstantBefore(b, c) ==> !InstantBefore(a, c)
  {
  }

  /** `t - timedelta(seconds=s)` for at most one day. */
  function MinusSeconds(t: Instant, s: nat): Instant
    requires s <= SecondsPerDay
  {
    if t.second >= s then Instant(t.date, t.second - s)
    else Instant(PrevDay(t.date), t.second + SecondsPerDay - s)
  }

  /** `t + timedelta(seconds=s)` for at most one day. */
  function PlusSeconds(t: Instant, s: nat): Instant
    requires s <= SecondsPerDay
  {
    if t.second + s < SecondsPerDay then Instant(t.date, t.second + s)
    else Instant(NextDay(t.date), t.second + s - SecondsPerDay)
  }

  /** No valid date lies strictly between a date and the next one. */
  lemma BeforeNextDay(x: Date, d: Date)
    requires ValidDate(x) && ValidDate(d)
    ensures Before(x, NextDay(d)) <==> Before(x, d) || x == d
  {
  }

  /** No valid date lies strictly between the previous day and a date. */
  lemma AfterPrevDay(x: Date, d: Date)
    requires ValidDate(x) && ValidDate(d)
    ensures Before(PrevDay(d), x) <==> Before(d, x) || x == d
  {
  }

  /** Moving one instant back by `s` seconds and the other forward by `s`
      seconds keeps their order: `now - s < t` exactly when `now < t + s`. */
  lemma MinusBeforeIffBeforePlus(now: Instant, t: Instant, s: nat)
    requires ValidInstant(now) && ValidInstant(t) && s <= SecondsPerDay
    ensures InstantBefore(MinusSeconds(now, s), t) <==> InstantBefore(now, PlusSeconds(t, s))
  {
    BeforeNextDay(now.date, t.date);
    AfterPrevDay(t.date, now.date);
    NextDayFacts(t.date);
    if now.date == NextDay(t.date) {
      assert PrevDay(now.date) == t.date;
    }
  }

  /** `t - timedelta(days=n)`. */
  function MinusDays(t: Instant, n: nat): Instant {
    Instant(SubDays(t.date, n), t.second)
  }

  /** The dashboard's revenue window: from midnight on the first of `now`'s
      month up to, but excluding, midnight on the first of the next month. */
  predicate InMonthWindow(t: Instant, now: Instant) {
    && !InstantBefore(t, Instant(FirstOfMonth(now.date), 0))
    && InstantBefore(t, Instant(FirstOfNextMonth(now.date), 0))
  }

  /** The window is exactly the calendar month of `now`. */
  lemma MonthWindowIsCalendarMonth(t: Instant, now: Instant)
    requires ValidInstant(t) && ValidDate(now.date)
    ensures InMonthWindow(t, now) <==> t.date.year == now.date.year && t.date.month == now.date.month
  {
    NextMonthIsFollowingMonth(now.date);
  }
}
