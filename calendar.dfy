/**
 * Instants are whole minutes since 1970-01-01T00:00Z.  Dafny's `/` and `%`
 * with a positive divisor round toward minus infinity, which is what
 * pandas' datetime accessors do for instants before the epoch as well.
 */
module Calendar {

  const MinutesPerHour: int := 60
  const MinutesPerDay: int := 1440

  /** `Timedelta.days` of a span of minutes: whole days, rounded toward minus infinity. */
  function WholeDays(minutes: int): int
  {
    minutes / MinutesPerDay
  }

  /** Midnight (00:00 UTC) of the day that contains t. */
  function Midnight(t: int): (r: int)
    ensures r <= t < r + MinutesPerDay
    ensures r % MinutesPerDay == 0
  {
    t - t % MinutesPerDay
  }

  /** `.dt.hour` */
  function HourOf(t: int): (r: int)
    ensures 0 <= r < 24
  {
    (t % MinutesPerDay) / MinutesPerHour
  }

  /** `.dt.dayofweek`: Monday is 0, Sunday is 6; 1970-01-01 was a Thursday (3). */
  function Weekday(t: int): (r: int)
    ensures 0 <= r < 7
  {
    (t / MinutesPerDay + 3) % 7
  }

  /** `.dt.day_name()` */
  function DayName(wd: int): string
    requires 0 <= wd < 7
  {
    ["Monday", "Tuesday", "Wednesday", "Thursday", "Friday", "Saturday", "Sunday"][wd]
  }

  /** `.dt.month`, by the proleptic Gregorian civil-from-days conversion. */
  function Month(t: int): (r: int)
    ensures 1 <= r <= 12
  {
    var z := t / MinutesPerDay + 719468;
    var era := z / 146097;
    var doe := z - era * 146097;
    var yoe := (doe - doe / 1460 + doe / 36524 - doe / 146096) / 365;
    var doy := doe - (365 * yoe + yoe / 4 - yoe / 100);
    var mp := (5 * doy + 2) / 153;
    if mp < 10 then mp + 3 else mp - 9
  }

  /** The hour-of-day and the midnight of an instant reconstruct it to the hour. */
  lemma MidnightPlusHours(day: int, h: int)
    requires day % MinutesPerDay == 0 && 0 <= h < 24
    ensures Midnight(day + h * MinutesPerHour) == day
    ensures HourOf(day + h * MinutesPerHour) == h
  {
  }
}
