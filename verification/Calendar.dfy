/** NSE session dates of internal/market/session.go: civil days in IST (UTC+5:30). */
module Calendar {
  import opened Common

  const SECONDS_PER_DAY := 86400
  const IST_OFFSET := 19800

  /** UTC midnight at or before t: Go's UTC().Truncate(24h). */
  function TruncateDay(t: Time): Time {
    t - t % SECONDS_PER_DAY
  }

  predicate IsDate(t: Time) {
    t % SECONDS_PER_DAY == 0
  }

  /** The instant of IST midnight that starts ts's NSE date. */
  function SessionDate(ts: Time): Time {
    TruncateDay(ts + IST_OFFSET) - IST_OFFSET
  }

  /** The same civil date, stored as a UTC midnight (a Postgres DATE). */
  function SessionCalendarUTC(ts: Time): Time {
    SessionDate(ts) + IST_OFFSET
  }

  predicate SameSession(a: Time, b: Time) {
    SessionDate(a) == SessionDate(b)
  }

  /** [start, end) of an IST day.  A UTC-located value names its own civil date; any other its IST date. */
  function ISTDayRangeUTC(day: Time, utc: bool): (Time, Time) {
    var d := if utc then TruncateDay(day) - IST_OFFSET else SessionDate(day);
    (d, d + SECONDS_PER_DAY)
  }

  function InclusiveDateRangeUTC(startDate: Time, endDate: Time): (Time, Time) {
    (ISTDayRangeUTC(startDate, true).0, ISTDayRangeUTC(endDate, true).1)
  }

  /** A day range is exactly the preimage of its date under SessionCalendarUTC. */
  lemma DayRangeIsPreimage(day: Time, ts: Time)
    requires IsDate(day)
    ensures var (from, until) := ISTDayRangeUTC(day, true); from <= ts < until <==> SessionCalendarUTC(ts) == day
  {
    var x := ts + IST_OFFSET;
    assert x == SECONDS_PER_DAY * (x / SECONDS_PER_DAY) + x % SECONDS_PER_DAY;
    assert day == SECONDS_PER_DAY * (day / SECONDS_PER_DAY);
  }

  /** An inclusive range of dates selects exactly the instants whose NSE date lies in it. */
  lemma InclusiveRangeIsPreimage(startDate: Time, endDate: Time, ts: Time)
    requires IsDate(startDate) && IsDate(endDate)
    ensures var (from, until) := InclusiveDateRangeUTC(startDate, endDate);
      from <= ts < until <==> startDate <= SessionCalendarUTC(ts) <= endDate
  {
    var x := ts + IST_OFFSET;
    assert x == SECONDS_PER_DAY * (x / SECONDS_PER_DAY) + x % SECONDS_PER_DAY;
    assert startDate == SECONDS_PER_DAY * (startDate / SECONDS_PER_DAY);
    assert endDate == SECONDS_PER_DAY * (endDate / SECONDS_PER_DAY);
  }

  lemma SessionsAreMonotone(a: Time, b: Time)
    requires a <= b
    ensures SessionCalendarUTC(a) <= SessionCalendarUTC(b)
    ensures IsDate(SessionCalendarUTC(a))
  {
    var x, y := a + IST_OFFSET, b + IST_OFFSET;
    assert x == SECONDS_PER_DAY * (x / SECONDS_PER_DAY) + x % SECONDS_PER_DAY;
    assert y == SECONDS_PER_DAY * (y / SECONDS_PER_DAY) + y % SECONDS_PER_DAY;
  }

  /** The session date of an instant is its date on a clock five and a half hours ahead of UTC. */
  lemma SessionDateIsIST(a: Time, b: Time)
    ensures SessionCalendarUTC(a) == (a + 19800) / 86400 * 86400 && TruncateDay(a) == a / 86400 * 86400
    ensures SameSession(a, b) <==> (a + 19800) / 86400 == (b + 19800) / 86400
  {
  }
}
