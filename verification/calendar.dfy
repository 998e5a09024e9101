/**
 * UTC calendar arithmetic for the instants the reports filter and group by.
 *
 * `toISOString().slice(0, 10)` names the UTC day of an instant; the day is
 * represented here by its number of days since 1970-01-01, which orders and
 * distinguishes days exactly as the `yyyy-mm-dd` text does.
 */
module Calendar {
  import opened Ledger

  const MsPerDay: int := 86_400_000

  /** The UTC day containing `t`. */
  function DayOf(t: Instant): (d: int)
    ensures d * MsPerDay <= t < (d + 1) * MsPerDay
  {
    t / MsPerDay
  }

  lemma DayOfMonotone(a: Instant, b: Instant)
    requires a <= b
    ensures DayOf(a) <= DayOf(b)
  {
  }

  /**
   * The number of days from 1970-01-01 to the given proleptic Gregorian date
   * (the days-from-civil algorithm: years counted from March, in 400-year eras).
   */
  function DaysFromCivil(year: int, month: int, day: int): int
    requires 1 <= month <= 12 && 1 <= day <= 31
  {
    var y := if month <= 2 then year - 1 else year;
    var era := y / 400;
    var yoe := y - era * 400;
    var doy := (153 * (if month > 2 then month - 3 else month + 9) + 2) / 5 + day - 1;
    var doe := yoe * 365 + yoe / 4 - yoe / 100 + doy;
    era * 146097 + doe - 719468
  }

  /** The instant `new Date("yyyy-mm-dd")` denotes: midnight UTC at the start of that day. */
  function MidnightUtc(year: int, month: int, day: int): (t: Instant)
    requires 1 <= month <= 12 && 1 <= day <= 31
    ensures DayOf(t) == DaysFromCivil(year, month, day)
    ensures t % MsPerDay == 0
  {
    DaysFromCivil(year, month, day) * MsPerDay
  }

  /** New Year's Day directly follows December 31 of the year before. */
  lemma NewYearFollowsDecember31(year: int)
    ensures DaysFromCivil(year + 1, 1, 1) == DaysFromCivil(year, 12, 31) + 1
  {
  }

  /** The formula agrees with the calendar at the epoch and at the first two month starts of 2024. */
  lemma KnownDays()
    ensures DaysFromCivil(1970, 1, 1) == 0
    ensures DaysFromCivil(2024, 1, 1) == 19723
    ensures DaysFromCivil(2024, 2, 1) == 19754
  {
  }

  /** The last day of 2024 and the first of 2025. */
  lemma KnownYearEnd2024()
    ensures DaysFromCivil(2024, 12, 31) == 20088
    ensures DaysFromCivil(2025, 1, 1) == 20089
  {
  }

  /** A month of a year, standing for the label `toLocaleString` gives it ("Jan 2024"). */
  datatype MonthKey = MonthKey(year: int, month: int)

  predicate ValidMonth(k: MonthKey) {
    1 <= k.month <= 12
  }

  /** Months counted from year 0: the chronological order of month keys. */
  function MonthRank(k: MonthKey): int {
    k.year * 12 + (k.month - 1)
  }

  lemma MonthRankInjective(a: MonthKey, b: MonthKey)
    requires ValidMonth(a) && ValidMonth(b)
    requires MonthRank(a) == MonthRank(b)
    ensures a == b
  {
  }
}
