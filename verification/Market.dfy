/** Price history and the queries of internal/market/data.go over it. */
module Market {
  import opened Common
  import opened Calendar

  type Symbol = string

  datatype Bar = Bar(open: real, high: real, low: real, close: real, volume: int) {
    predicate WellFormed() {
      0.0 < low && low <= open <= high && low <= close <= high
    }
  }

  /** The ohlcv and ohlcv_bars tables, and the fixed tradable universe. */
  datatype History = History(
    listed: set<Symbol>,
    daily: map<(Symbol, Time), Bar>,
    hourly: map<(Symbol, Time), Bar>)

  ghost predicate WellFormed(h: History) {
    && (forall k :: k in h.daily ==> h.daily[k].WellFormed() && IsDate(k.1))
    && (forall k :: k in h.hourly ==> h.hourly[k].WellFormed())
  }

  function Symbols(h: History): set<Symbol> {
    (set k | k in h.daily :: k.0) + (set k | k in h.hourly :: k.0)
  }

  function TradingDays(h: History): set<Time> {
    set k | k in h.daily :: k.1
  }

  function BarTimes(h: History): set<Time> {
    set k | k in h.hourly :: k.1
  }

  /** ORDER BY t ASC over distinct instants. */
  function Sorted(s: set<Time>): (r: seq<Time>)
    ensures Ascending(r)
    ensures forall t :: t in r <==> t in s
  {
    if s == {} then [] else
      var first := MinOf(s);
      var rest := Sorted(s - {first});
      assert forall t :: t in [first] + rest <==> t in s;
      [first] + rest
  }

  function DistinctTradingDays(h: History, start: Time, end: Time): seq<Time> {
    Sorted(set t | t in TradingDays(h) && start <= t <= end)
  }

  function DistinctBars(h: History, start: Time, end: Time): seq<Time> {
    var (from, until) := InclusiveDateRangeUTC(start, end);
    Sorted(set t | t in BarTimes(h) && from <= t < until)
  }

  function Earliest(s: set<Time>): Option<Time> {
    if s == {} then None else Some(MinOf(s))
  }

  function NextTradingDay(h: History, day: Time): Option<Time> {
    Earliest(set t | t in TradingDays(h) && t > day)
  }

  function NextBar(h: History, ts: Time): Option<Time> {
    Earliest(set t | t in BarTimes(h) && t > ts)
  }

  function Find(table: map<(Symbol, Time), Bar>, s: Symbol, t: Time): Option<Bar> {
    if (s, t) in table then Some(table[(s, t)]) else None
  }

  function LatestOf(table: map<(Symbol, Time), Bar>, s: Symbol, times: set<Time>): Option<Bar>
    requires forall t :: t in times ==> (s, t) in table
  {
    if times == {} then None else Some(table[(s, MaxOf(times))])
  }

  function BarOnDate(h: History, s: Symbol, day: Time): Option<Bar> {
    Find(h.daily, s, day)
  }

  function PrevTradingDayBar(h: History, s: Symbol, day: Time): Option<Bar> {
    LatestOf(h.daily, s, set k | k in h.daily && k.0 == s && k.1 < day :: k.1)
  }

  function IntradayBarOnTs(h: History, s: Symbol, ts: Time): Option<Bar> {
    Find(h.hourly, s, ts)
  }

  function IntradayBarAtOrBefore(h: History, s: Symbol, asOf: Time): Option<Bar> {
    LatestOf(h.hourly, s, set k | k in h.hourly && k.0 == s && k.1 <= asOf :: k.1)
  }

  /** The instants of s's bars on the NSE session of sessionTs, up to asOf, oldest first. */
  function SessionBarsUpTo(h: History, s: Symbol, sessionTs: Time, asOf: Time): seq<Time> {
    var (from, until) := ISTDayRangeUTC(SessionCalendarUTC(sessionTs), true);
    Sorted(set k | k in h.hourly && k.0 == s && from <= k.1 < until && k.1 <= asOf :: k.1)
  }

  /** A session scan returns exactly the symbol's bars that share the NSE date and are not in the future. */
  lemma SessionBarsAre(h: History, s: Symbol, sessionTs: Time, asOf: Time, t: Time)
    ensures t in SessionBarsUpTo(h, s, sessionTs, asOf)
      <==> (s, t) in h.hourly && SameSession(t, sessionTs) && t <= asOf
  {
    SessionsAreMonotone(sessionTs, sessionTs);
    DayRangeIsPreimage(SessionCalendarUTC(sessionTs), t);
    if (s, t) in h.hourly && SameSession(t, sessionTs) && t <= asOf {
      var k := (s, t);
      assert k in h.hourly && k.0 == s && k.1 == t;
    }
  }

  lemma LatestIsWellFormed(h: History, s: Symbol, t: Time)
    requires WellFormed(h)
    ensures PrevTradingDayBar(h, s, t).Some? ==> PrevTradingDayBar(h, s, t).value.WellFormed()
    ensures IntradayBarAtOrBefore(h, s, t).Some? ==> IntradayBarAtOrBefore(h, s, t).value.WellFormed()
  {
  }

  /** The next session is a trading day strictly later than day, with no trading day in between. */
  lemma NextIsAdjacent(h: History, t: Time)
    ensures match NextTradingDay(h, t)
      case Some(n) => n in TradingDays(h) && n > t && forall m :: m in TradingDays(h) && t < m ==> n <= m
      case None => forall m :: m in TradingDays(h) ==> m <= t
    ensures match NextBar(h, t)
      case Some(n) => n in BarTimes(h) && n > t && forall m :: m in BarTimes(h) && t < m ==> n <= m
      case None => forall m :: m in BarTimes(h) ==> m <= t
  {
    var days := set m | m in TradingDays(h) && m > t;
    var bars := set m | m in BarTimes(h) && m > t;
    assert NextTradingDay(h, t) == Earliest(days) && NextBar(h, t) == Earliest(bars);
    assert forall m :: m in TradingDays(h) && t < m ==> m in days;
    assert forall m :: m in BarTimes(h) && t < m ==> m in bars;
  }

  /** The bar b of s at t is its last one before an instant or, with `upTo`, not after it: none of s lies in between. */
  ghost predicate IsLastBar(table: map<(Symbol, Time), Bar>, s: Symbol, bound: Time, upTo: bool, t: Time, b: Bar) {
    && (s, t) in table && table[(s, t)] == b && (t < bound || (upTo && t == bound))
    && forall u :: t < u && (u < bound || (upTo && u == bound)) ==> (s, u) !in table
  }

  /** The previous trading day's bar is the last one strictly before the day, and missing only if there is none. */
  lemma PreviousBarIsLast(h: History, s: Symbol, day: Time)
    ensures match PrevTradingDayBar(h, s, day)
      case Some(b) => exists t :: IsLastBar(h.daily, s, day, false, t, b)
      case None => forall t :: t < day ==> (s, t) !in h.daily
  {
    var times := set k | k in h.daily && k.0 == s && k.1 < day :: k.1;
    forall t | t < day && (s, t) in h.daily
      ensures t in times
    {
      var k := (s, t);
      assert k in h.daily && k.0 == s && k.1 == t;
    }
    if times != {} {
      assert IsLastBar(h.daily, s, day, false, MaxOf(times), PrevTradingDayBar(h, s, day).value);
    }
  }

  /** A holding's hourly mark is the last bar not after the instant, and missing only if there is none. */
  lemma MarkIsLast(h: History, s: Symbol, asOf: Time)
    ensures match IntradayBarAtOrBefore(h, s, asOf)
      case Some(b) => exists t :: IsLastBar(h.hourly, s, asOf, true, t, b)
      case None => forall t :: t <= asOf ==> (s, t) !in h.hourly
  {
    var times := set k | k in h.hourly && k.0 == s && k.1 <= asOf :: k.1;
    forall t | t <= asOf && (s, t) in h.hourly
      ensures t in times
    {
      var k := (s, t);
      assert k in h.hourly && k.0 == s && k.1 == t;
    }
    if times != {} {
      assert IsLastBar(h.hourly, s, asOf, true, MaxOf(times), IntradayBarAtOrBefore(h, s, asOf).value);
    }
  }

  /** A bar on a date, or at an instant, is the one in the table. */
  lemma BarIsTheTables(h: History, s: Symbol, t: Time, b: Bar)
    ensures BarOnDate(h, s, t) == Some(b) <==> (s, t) in h.daily && h.daily[(s, t)] == b
    ensures IntradayBarOnTs(h, s, t) == Some(b) <==> (s, t) in h.hourly && h.hourly[(s, t)] == b
  {
  }

  lemma LastBarIsUnique(table: map<(Symbol, Time), Bar>, s: Symbol, bound: Time, upTo: bool, t: Time, b: Bar, t': Time,
                        b': Bar)
    requires IsLastBar(table, s, bound, upTo, t, b) && IsLastBar(table, s, bound, upTo, t', b')
    ensures t == t' && b == b'
  {
    assert t < t' ==> (s, t') !in table;
    assert t' < t ==> (s, t) !in table;
  }

  /** So the queries return a bar exactly when it is the last one. */
  lemma LastBarIsReturned(h: History, s: Symbol, bound: Time, t: Time, b: Bar)
    ensures IsLastBar(h.daily, s, bound, false, t, b) ==> PrevTradingDayBar(h, s, bound) == Some(b)
    ensures IsLastBar(h.hourly, s, bound, true, t, b) ==> IntradayBarAtOrBefore(h, s, bound) == Some(b)
  {
    PreviousBarIsLast(h, s, bound);
    MarkIsLast(h, s, bound);
    if IsLastBar(h.daily, s, bound, false, t, b) {
      var u :| IsLastBar(h.daily, s, bound, false, u, PrevTradingDayBar(h, s, bound).value);
      LastBarIsUnique(h.daily, s, bound, false, t, b, u, PrevTradingDayBar(h, s, bound).value);
    }
    if IsLastBar(h.hourly, s, bound, true, t, b) {
      var u :| IsLastBar(h.hourly, s, bound, true, u, IntradayBarAtOrBefore(h, s, bound).value);
      LastBarIsUnique(h.hourly, s, bound, true, t, b, u, IntradayBarAtOrBefore(h, s, bound).value);
    }
  }
}
