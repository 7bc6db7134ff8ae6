/**
 * Calendar dates and second-precision timestamps, compared the way Python
 * compares `datetime` objects: field by field, most significant first.
 */
module DateTimes {

  /** What `datetime.strptime(s, '%Y-%m-%d')` yields, before the time part is added. */
  datatype Date = Date(year: int, month: int, day: int)

  /** A `YYYY-MM-DD HH:MM:SS` timestamp as a tuple of its fields. */
  datatype DateTime = DateTime(year: int, month: int, day: int, hour: int, minute: int, second: int)

  /** The field ranges of a timestamp that `strftime('%Y-%m-%d %H:%M:%S')` can print. */
  predicate Valid(t: DateTime) {
    && 1 <= t.month <= 12 && 1 <= t.day <= 31
    && 0 <= t.hour <= 23 && 0 <= t.minute <= 59 && 0 <= t.second <= 59
  }

  /** The lexicographic order on (year, month, day, hour, minute, second). */
  predicate LessEq(a: DateTime, b: DateTime) {
    if a.year != b.year then a.year < b.year
    else if a.month != b.month then a.month < b.month
    else if a.day != b.day then a.day < b.day
    else if a.hour != b.hour then a.hour < b.hour
    else if a.minute != b.minute then a.minute < b.minute
    else a.second <= b.second
  }

  /** A bare date denotes 00:00:00 of that day. */
  function Midnight(d: Date): DateTime {
    DateTime(d.year, d.month, d.day, 0, 0, 0)
  }

  predicate SameDay(t: DateTime, d: Date) {
    t.year == d.year && t.month == d.month && t.day == d.day
  }

  /** LessEq is a total order on timestamps. */
  lemma LessEqIsTotalOrder(a: DateTime, b: DateTime, c: DateTime)
    ensures LessEq(a, a)
    ensures LessEq(a, b) && LessEq(b, a) ==> a == b
    ensures LessEq(a, b) && LessEq(b, c) ==> LessEq(a, c)
    ensures LessEq(a, b) || LessEq(b, a)
  {
  }

  /** A day's midnight is no later than any valid timestamp of that day. */
  lemma MidnightStartsTheDay(d: Date, t: DateTime)
    requires Valid(t) && SameDay(t, d)
    ensures LessEq(Midnight(d), t)
  {
  }

  /**
   * A timestamp of the same day lies at or before that day's midnight
   * exactly when it is midnight itself: a date used as an upper bound
   * excludes the rest of its own day.
   */
  lemma AtOrBeforeMidnightOfSameDay(d: Date, t: DateTime)
    requires Valid(t) && SameDay(t, d)
    ensures LessEq(t, Midnight(d)) <==> t == Midnight(d)
  {
  }
}
