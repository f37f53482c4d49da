/**
  Calendar dates, times of day and naive datetimes, as Python's `date`,
  `time` and `datetime` represent them, with Python's ordering on them:
  field by field, most significant field first.
 */
module Calendar {

  datatype Date = Date(year: int, month: int, day: int)

  datatype Time = Time(hour: int, minute: int, second: int, microsecond: int)

  datatype DateTime = DateTime(date: Date, time: Time)

  /** `datetime.min.time()`: the first instant of a day. */
  const MinTime := Time(0, 0, 0, 0)

  /** `datetime.max.time()`: the last representable instant of a day. */
  const MaxTime := Time(23, 59, 59, 999999)

  predicate IsLeapYear(year: int) {
    year % 4 == 0 && (year % 100 != 0 || year % 400 == 0)
  }

  function DaysInMonth(year: int, month: int): (n: int)
    requires 1 <= month <= 12
    ensures 28 <= n <= 31
    ensures n == 29 <==> month == 2 && IsLeapYear(year)
  {
    if month == 2 then (if IsLeapYear(year) then 29 else 28)
    else if month == 4 || month == 6 || month == 9 || month == 11 then 30
    else 31
  }

  /** The values Python's `date` constructor accepts: February 29 only in leap years. */
  predicate ValidDate(d: Date)
    ensures ValidDate(d) ==> 1 <= d.day <= 31
    ensures ValidDate(d) && d.month == 2 && d.day == 29 ==> IsLeapYear(d.year)
    ensures 1 <= d.year <= 9999 && 1 <= d.month <= 12 && 1 <= d.day <= 28 ==> ValidDate(d)
  {
    1 <= d.year <= 9999 && 1 <= d.month <= 12 && 1 <= d.day <= DaysInMonth(d.year, d.month)
  }

  /** The values Python's `time` constructor accepts: from `MinTime` to `MaxTime`. */
  predicate ValidTime(t: Time)
    ensures t == MinTime || t == MaxTime ==> ValidTime(t)
    ensures ValidTime(t) ==> 0 <= t.hour <= 23 && 0 <= t.microsecond <= 999999
  {
    0 <= t.hour < 24 && 0 <= t.minute < 60 && 0 <= t.second < 60 && 0 <= t.microsecond < 1000000
  }

  predicate ValidDateTime(t: DateTime) {
    ValidDate(t.date) && ValidTime(t.time)
  }

  /** `datetime.combine(d, t)`: the instant at time `t` on day `d`. */
  function Combine(d: Date, t: Time): DateTime {
    DateTime(d, t)
  }

  predicate DateBefore(a: Date, b: Date) {
    a.year < b.year
    || (a.year == b.year && (a.month < b.month || (a.month == b.month && a.day < b.day)))
  }

  predicate TimeBefore(a: Time, b: Time) {
    a.hour < b.hour
    || (a.hour == b.hour && (a.minute < b.minute
    || (a.minute == b.minute && (a.second < b.second
    || (a.second == b.second && a.microsecond < b.microsecond)))))
  }

  /** `a < b` on naive datetimes: the earlier day first, and within a day the earlier time. */
  predicate Before(a: DateTime, b: DateTime)
    ensures a.date != b.date ==> (Before(a, b) <==> DateBefore(a.date, b.date))
    ensures a.date == b.date ==> (Before(a, b) <==> TimeBefore(a.time, b.time))
  {
    DateBefore(a.date, b.date) || (a.date == b.date && TimeBefore(a.time, b.time))
  }

  /** `<` on datetimes is a strict total order. */
  lemma BeforeIsStrictTotalOrder(a: DateTime, b: DateTime, c: DateTime)
    ensures !Before(a, a)
    ensures Before(a, b) ==> !Before(b, a)
    ensures a == b || Before(a, b) || Before(b, a)
    ensures Before(a, b) && Before(b, c) ==> Before(a, c)
  {
  }

  /** Midnight comes no later than any valid time of day, and is the only time not after it. */
  lemma MinTimeIsFirst(t: Time)
    requires ValidTime(t)
    ensures !TimeBefore(t, MinTime)
    ensures t != MinTime ==> TimeBefore(MinTime, t)
  {
  }

  /** 23:59:59.999999 comes no earlier than any valid time of day. */
  lemma MaxTimeIsLast(t: Time)
    requires ValidTime(t)
    ensures !TimeBefore(MaxTime, t)
    ensures t != MaxTime ==> TimeBefore(t, MaxTime)
  {
  }

  /** The first and the last instant of a day bracket every instant of that day. */
  lemma DayBounds(d: Date, t: Time)
    requires ValidTime(t)
    ensures !Before(Combine(d, t), Combine(d, MinTime))
    ensures !Before(Combine(d, MaxTime), Combine(d, t))
    ensures Before(Combine(d, MinTime), Combine(d, MaxTime))
  {
  }
}
