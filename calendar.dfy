/**
 * Dates and times as integers.
 *
 * A LocalDate is its epoch day (0 is 1970-01-01); a LocalDateTime is its
 * second since the epoch. The JPQL functions YEAR() and MONTH() and the
 * YearMonth helpers atDay/atEndOfMonth go through the proleptic Gregorian
 * calendar (days_from_civil / civil_from_days).
 */
module Calendar {

  type Day = int
  type Instant = int

  const SecondsPerDay: int := 86400

  datatype YearMonth = YearMonth(year: int, month: int)

  /** The day an instant falls on (floor division: Dafny's / is Euclidean). */
  function DayOf(t: Instant): Day {
    t / SecondsPerDay
  }

  /** ChronoUnit.DAYS.between(from, to): negative when `to` is before `from`. */
  function DaysBetween(from: Day, to: Day): int {
    to - from
  }

  predicate IsLeapYear(y: int) {
    y % 4 == 0 && (y % 100 != 0 || y % 400 == 0)
  }

  function DaysInMonth(y: int, m: int): int {
    if m == 2 then (if IsLeapYear(y) then 29 else 28)
    else if m == 4 || m == 6 || m == 9 || m == 11 then 30
    else 31
  }

  /** Epoch day of the civil date y-m-d. */
  function DaysFromCivil(y: int, m: int, d: int): Day {
    var y' := if m <= 2 then y - 1 else y;
    var era := y' / 400;
    var yoe := y' - era * 400;
    var mp := if m > 2 then m - 3 else m + 9;
    var doy := (153 * mp + 2) / 5 + d - 1;
    var doe := yoe * 365 + yoe / 4 - yoe / 100 + doy;
    era * 146097 + doe - 719468
  }

  /** The calendar year and month of an epoch day: YEAR(d) and MONTH(d). */
  function YearMonthOf(days: Day): (r: YearMonth)
    ensures 1 <= r.month <= 12
  {
    var z := days + 719468;
    var era := z / 146097;
    var doe := z - era * 146097;
    var yoe := (doe - doe / 1460 + doe / 36524 - doe / 146096) / 365;
    var doy := doe - (365 * yoe + yoe / 4 - yoe / 100);
    var mp := (5 * doy + 2) / 153;
    var m := if mp < 10 then mp + 3 else mp - 9;
    var y := yoe + era * 400;
    YearMonth(if m <= 2 then y + 1 else y, m)
  }

  /** YEAR()/MONTH() of a timestamp. */
  function YearMonthOfInstant(t: Instant): YearMonth {
    YearMonthOf(DayOf(t))
  }

  /** yearMonth.atDay(d): day d of the month is d - 1 days after its first day. */
  function AtDay(ym: YearMonth, d: int): (n: Day)
    ensures n == DaysFromCivil(ym.year, ym.month, 1) + (d - 1)
  {
    DaysFromCivilShift(ym.year, ym.month, 1, d);
    DaysFromCivil(ym.year, ym.month, d)
  }

  /**
   * yearMonth.atEndOfMonth(): the month's length minus one day after
   * atDay(1), so at least 27 days after it.
   */
  function AtEndOfMonth(ym: YearMonth): (n: Day)
    ensures n == AtDay(ym, 1) + DaysInMonth(ym.year, ym.month) - 1
    ensures n >= AtDay(ym, 1) + 27
  {
    DaysFromCivilShift(ym.year, ym.month, 1, DaysInMonth(ym.year, ym.month));
    DaysFromCivil(ym.year, ym.month, DaysInMonth(ym.year, ym.month))
  }

  /** Within one month, epoch days advance one for one with the day of the month. */
  lemma DaysFromCivilShift(y: int, m: int, d1: int, d2: int)
    ensures DaysFromCivil(y, m, d2) - DaysFromCivil(y, m, d1) == d2 - d1
  {
  }
}
