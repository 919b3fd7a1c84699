// java.time as the transit system uses it. A LocalDateTime is a number of
// nanoseconds since midnight of day 0, and a LocalDate is a day number. The
// calendar (years, months, printed dates, Period) is not computed here: it is
// an oracle handed in by the caller.

module Clock {

  /** A LocalDateTime: nanoseconds since the start of day 0. */
  type DateTime = int

  /** A LocalDate: days since day 0. */
  type Date = int

  const NanosPerMinute: int := 60_000_000_000
  const NanosPerDay: int := 86_400_000_000_000

  /** LocalDateTime.toLocalDate: the day the instant falls in. */
  function DateOf(t: DateTime): (d: Date)
    ensures d * NanosPerDay <= t < (d + 1) * NanosPerDay
  {
    t / NanosPerDay
  }

  /** a.until(b, ChronoUnit.MINUTES): the whole minutes from a to b, truncated toward zero. */
  function MinutesBetween(a: DateTime, b: DateTime): (m: int)
    ensures a <= b ==> 0 <= m && m * NanosPerMinute <= b - a < (m + 1) * NanosPerMinute
    ensures b <= a ==> m <= 0 && (m - 1) * NanosPerMinute < b - a <= m * NanosPerMinute
  {
    var d := b - a;
    if d >= 0 then d / NanosPerMinute else -((-d) / NanosPerMinute)
  }

  /**
   * The calendar computations the code takes from java.time: the year and
   * the month of a date, LocalDate.toString, and Period.between(a, b).getDays().
   */
  datatype Calendar = Calendar(
    yearOf: Date -> int,
    monthOf: Date -> int,
    dateText: Date -> string,
    periodDays: (Date, Date) -> int)
}
