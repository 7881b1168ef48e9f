/** Where the clock's schedule meets the engine's calendar. */
module Schedule {
  import opened Common
  import opened Calendar
  import opened Market
  import opened Tape
  import opened Clock
  import opened Lifecycle

  /** Every trading day or bar of the market, whatever the simulation's range. */
  function MarketCalendar(h: History, hourly: bool): set<Time> {
    if hourly then BarTimes(h) else TradingDays(h)
  }

  /** What Start loads. */
  function ScheduleOf(h: History, hourly: bool, start: Time, end: Time): seq<Time> {
    if hourly then DistinctBars(h, start, end) else DistinctTradingDays(h, start, end)
  }

  function ConfigOf(h: History, hourly: bool, start: Time, end: Time, interval: nat, batch: bool): Config {
    Config(hourly, ScheduleOf(h, hourly, start, end), interval, batch)
  }

  predicate InRange(hourly: bool, start: Time, end: Time, t: Time) {
    start <= (if hourly then SessionCalendarUTC(t) else t) <= end
  }

  /** The schedule is the part of the market calendar whose session dates lie in the simulation's range. */
  lemma ScheduleIs(h: History, hourly: bool, start: Time, end: Time, t: Time)
    requires IsDate(start) && IsDate(end)
    ensures t in ScheduleOf(h, hourly, start, end) <==> t in MarketCalendar(h, hourly) && InRange(hourly, start, end, t)
  {
    InclusiveRangeIsPreimage(start, end, t);
  }

  lemma ScheduleIsValid(h: History, hourly: bool, start: Time, end: Time, interval: nat, batch: bool)
    requires WellFormed(h) && IsDate(start) && IsDate(end) && interval >= 1
    ensures ValidConfig(ConfigOf(h, hourly, start, end, interval, batch))
  {
    var s := ScheduleOf(h, hourly, start, end);
    if !hourly {
      forall i | 0 <= i < |s|
        ensures IsDate(s[i])
      {
        ScheduleIs(h, hourly, start, end, s[i]);
        var k :| k in h.daily && k.1 == s[i];
      }
    }
  }

  /** No trading day or bar of the market falls between two scheduled ones without being scheduled itself. */
  lemma ScheduleIsDense(h: History, hourly: bool, start: Time, end: Time, i: nat, t: Time)
    requires IsDate(start) && IsDate(end) && i < |ScheduleOf(h, hourly, start, end)|
    requires t in MarketCalendar(h, hourly)
    requires var s := ScheduleOf(h, hourly, start, end); t <= s[i] && (if i == 0 then s[0] <= t else s[i - 1] < t)
    ensures t == ScheduleOf(h, hourly, start, end)[i]
  {
    var s := ScheduleOf(h, hourly, start, end);
    var lower := if i == 0 then s[0] else s[i - 1];
    ScheduleIs(h, hourly, start, end, s[i]);
    ScheduleIs(h, hourly, start, end, lower);
    ScheduleIs(h, hourly, start, end, t);
    SessionsAreMonotone(lower, t);
    SessionsAreMonotone(t, s[i]);
    assert t in s;
    var j :| 0 <= j < |s| && s[j] == t;
    assert j == i;
  }

  /** The next scheduled entry is the market's own next trading day or bar. */
  lemma NextScheduled(h: History, hourly: bool, start: Time, end: Time, i: nat)
    requires IsDate(start) && IsDate(end) && i + 1 < |ScheduleOf(h, hourly, start, end)|
    ensures var s := ScheduleOf(h, hourly, start, end);
      (if hourly then NextBar(h, s[i]) else NextTradingDay(h, s[i])) == Some(s[i + 1])
  {
    var s := ScheduleOf(h, hourly, start, end);
    NextIsAdjacent(h, s[i]);
    ScheduleIs(h, hourly, start, end, s[i + 1]);
    assert s[i] < s[i + 1];
    var next := if hourly then NextBar(h, s[i]) else NextTradingDay(h, s[i]);
    ScheduleIsDense(h, hourly, start, end, i + 1, next.value);
  }

  // ----- Session bar counters -----

  /** Entries of the first n that share date's session. */
  function SessionBars(bars: seq<Time>, date: Time, n: nat): nat
    requires n <= |bars|
  {
    if n == 0 then 0 else SessionBars(bars, date, n - 1) + if SameSession(bars[n - 1], date) then 1 else 0
  }

  lemma {:induction false} NoMoreBars(bars: seq<Time>, date: Time, i: nat, n: nat)
    requires i <= n <= |bars|
    ensures SessionBars(bars, date, i) <= SessionBars(bars, date, n)
    ensures SessionBars(bars, date, i) == SessionBars(bars, date, n)
      <==> forall j :: i <= j < n ==> !SameSession(bars[j], date)
    decreases n - i
  {
    if i < n {
      NoMoreBars(bars, date, i, n - 1);
      assert i <= n - 1 < n;
    }
  }

  /** The engine asks the whole market for the next bar, the clock only its own schedule. */
  lemma EngineClosesWithClock(h: History, start: Time, end: Time, interval: nat, batch: bool, i: nat)
    requires IsDate(start) && IsDate(end) && i < |DistinctBars(h, start, end)|
    ensures var cfg := ConfigOf(h, true, start, end, interval, batch);
      NextMatch(h, cfg.schedule[i]).None? <==> EndsSession(cfg, i)
  {
    var s := ConfigOf(h, true, start, end, interval, batch).schedule;
    if i + 1 < |s| {
      NextScheduled(h, true, start, end, i);
    } else if NextMatch(h, s[i]).Some? {
      var next := NextBar(h, s[i]).value;
      NextIsAdjacent(h, s[i]);
      ScheduleIs(h, true, start, end, s[i]);
      ScheduleIs(h, true, start, end, next);
      assert false;
    }
  }

  /** The bar counters meet exactly at the last bar of a session, since sessions are contiguous in a sorted schedule. */
  lemma CountersMeet(s: seq<Time>, i: nat)
    requires i < |s| && forall j, k :: 0 <= j < k < |s| ==> s[j] < s[k]
    ensures SessionBars(s, s[i], i + 1) == SessionBars(s, s[i], |s|)
      <==> i + 1 == |s| || !SameSession(s[i + 1], s[i])
  {
    NoMoreBars(s, s[i], i + 1, |s|);
    forall j | i + 1 <= j < |s|
      ensures SameSession(s[j], s[i]) ==> SameSession(s[i + 1], s[i])
    {
      if j > i + 1 {
        SessionsAreMonotone(s[i], s[i + 1]);
        SessionsAreMonotone(s[i + 1], s[j]);
      }
    }
  }

  /**
   * The engine closes a session (writes snapshots, expires day orders) exactly when the clock says the bar is the
   * last of its session, and both say so exactly when the bar counters meet.
   */
  lemma EngineAgreesWithClock(h: History, start: Time, end: Time, interval: nat, batch: bool, i: nat)
    requires WellFormed(h) && IsDate(start) && IsDate(end) && interval >= 1
    requires i < |DistinctBars(h, start, end)|
    ensures var cfg := ConfigOf(h, true, start, end, interval, batch);
      var s := cfg.schedule;
      && (NextMatch(h, s[i]).None? <==> EndsSession(cfg, i))
      && (EndsSession(cfg, i) <==> SessionBars(s, s[i], i + 1) == SessionBars(s, s[i], |s|))
  {
    var s := ConfigOf(h, true, start, end, interval, batch).schedule;
    EngineClosesWithClock(h, start, end, interval, batch, i);
    ScheduleIsValid(h, true, start, end, interval, batch);
    CountersMeet(s, i);
  }
}
