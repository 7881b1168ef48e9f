/** The information barrier: the future of the market does not reach the past of a simulation. */
module LookAhead {
  import opened Common
  import opened Calendar
  import opened Market
  import opened Ledger
  import opened Tape
  import opened Runs

  /**
   * Two histories a simulation cannot yet tell apart: the same universe and the same calendar of days and bars, the
   * same daily bars before `day`, and the same hourly bars up to `ts`.
   */
  ghost predicate AgreeBefore(h1: History, h2: History, day: Time, ts: Time) {
    && h1.listed == h2.listed && TradingDays(h1) == TradingDays(h2) && BarTimes(h1) == BarTimes(h2)
    && (forall s, t :: t < day ==> Find(h1.daily, s, t) == Find(h2.daily, s, t))
    && (forall s, t :: t <= ts ==> Find(h1.hourly, s, t) == Find(h2.hourly, s, t))
  }

  lemma SamePast(h1: History, h2: History, day: Time, ts: Time, s: Symbol, d: Time, t: Time)
    requires AgreeBefore(h1, h2, day, ts) && d <= day && t <= ts
    ensures PrevTradingDayBar(h1, s, d) == PrevTradingDayBar(h2, s, d)
    ensures IntradayBarAtOrBefore(h1, s, t) == IntradayBarAtOrBefore(h2, s, t)
  {
    var p1 := set k | k in h1.daily && k.0 == s && k.1 < d :: k.1;
    var p2 := set k | k in h2.daily && k.0 == s && k.1 < d :: k.1;
    forall e
      ensures e in p1 <==> e in p2
    {
      assert (s, e).0 == s && (s, e).1 == e;
      assert e < d ==> Find(h1.daily, s, e) == Find(h2.daily, s, e);
    }
    assert p1 == p2;
    assert p1 != {} ==> Find(h1.daily, s, MaxOf(p1)) == Find(h2.daily, s, MaxOf(p1));
    var q1 := set k | k in h1.hourly && k.0 == s && k.1 <= t :: k.1;
    var q2 := set k | k in h2.hourly && k.0 == s && k.1 <= t :: k.1;
    forall e
      ensures e in q1 <==> e in q2
    {
      assert (s, e).0 == s && (s, e).1 == e;
      assert e <= t ==> Find(h1.hourly, s, e) == Find(h2.hourly, s, e);
    }
    assert q1 == q2;
    assert q1 != {} ==> Find(h1.hourly, s, MaxOf(q1)) == Find(h2.hourly, s, MaxOf(q1));
  }

  lemma SameNext(h1: History, h2: History, t: Time)
    requires TradingDays(h1) == TradingDays(h2) && BarTimes(h1) == BarTimes(h2)
    ensures NextTradingDay(h1, t) == NextTradingDay(h2, t) && NextBar(h1, t) == NextBar(h2, t)
  {
  }

  lemma SamePrevBars(h1: History, h2: History, day: Time, ts: Time, d: Time)
    requires AgreeBefore(h1, h2, day, ts) && d <= day
    ensures PrevBars(h1, d) == PrevBars(h2, d)
  {
    forall s
      ensures s in PrevBars(h1, d) <==> s in PrevBars(h2, d)
      ensures s in PrevBars(h1, d) ==> PrevBars(h1, d)[s] == PrevBars(h2, d)[s]
    {
      SamePast(h1, h2, day, ts, s, d, ts);
      QueriesNameTheirSymbols(h1, s, d);
      QueriesNameTheirSymbols(h2, s, d);
    }
  }

  lemma SameDayRow(h1: History, h2: History, day: Time, ts: Time, d: Time, s: Symbol)
    requires AgreeBefore(h1, h2, day, ts) && d < day
    ensures BarOnDate(h1, s, d) == BarOnDate(h2, s, d)
    ensures DayHalted(h1, s, d) <==> DayHalted(h2, s, d)
    ensures (BarOnDate(h1, s, d).Some? || DayHalted(h1, s, d)) ==> s in Symbols(h1) && s in Symbols(h2)
  {
    SamePast(h1, h2, day, ts, s, d, ts);
    assert Find(h1.daily, s, d) == Find(h2.daily, s, d);
    QueriesNameTheirSymbols(h1, s, d);
    QueriesNameTheirSymbols(h2, s, d);
  }

  /** A daily session reads daily bars up to its own date. */
  lemma SameDayView(h1: History, h2: History, day: Time, ts: Time, d: Time)
    requires AgreeBefore(h1, h2, day, ts) && d < day
    ensures DayView(h1, d) == DayView(h2, d)
  {
    var v1, v2 := DayView(h1, d), DayView(h2, d);
    SamePrevBars(h1, h2, day, ts, d);
    SameNext(h1, h2, d);
    forall s
      ensures BarOnDate(h1, s, d) == BarOnDate(h2, s, d)
      ensures s in v1.bars <==> s in v2.bars
      ensures s in v1.halted <==> s in v2.halted
    {
      SameDayRow(h1, h2, day, ts, d, s);
    }
    assert v1.bars == v2.bars && v1.halted == v2.halted && v1.marks == v2.marks;
  }

  lemma SameSessionHalt(h1: History, h2: History, day: Time, ts: Time, s: Symbol, t: Time)
    requires AgreeBefore(h1, h2, day, ts) && t <= ts && SessionCalendarUTC(t) <= day
    ensures SessionHalted(h1, s, t) <==> SessionHalted(h2, s, t)
  {
    SamePast(h1, h2, day, ts, s, SessionCalendarUTC(t), t);
    forall u
      ensures u in SessionBarsUpTo(h1, s, t, t) <==> u in SessionBarsUpTo(h2, s, t, t)
      ensures u in SessionBarsUpTo(h1, s, t, t) ==>
        BreachAt(h1, s, u, SessionCalendarUTC(t)) == BreachAt(h2, s, u, SessionCalendarUTC(t))
    {
      SessionBarsAre(h1, s, t, t, u);
      SessionBarsAre(h2, s, t, t, u);
      assert u <= t ==> Find(h1.hourly, s, u) == Find(h2.hourly, s, u);
    }
  }

  lemma SameHourBars(h1: History, h2: History, day: Time, ts: Time, t: Time, rate: real)
    requires AgreeBefore(h1, h2, day, ts) && t <= ts
    ensures HourView(h1, t, rate).bars == HourView(h2, t, rate).bars
  {
    forall s
      ensures IntradayBarOnTs(h1, s, t) == IntradayBarOnTs(h2, s, t)
      ensures s in HourView(h1, t, rate).bars <==> s in HourView(h2, t, rate).bars
    {
      assert Find(h1.hourly, s, t) == Find(h2.hourly, s, t);
      QueriesNameTheirSymbols(h1, s, t);
      QueriesNameTheirSymbols(h2, s, t);
    }
  }

  lemma SameHourMarks(h1: History, h2: History, day: Time, ts: Time, t: Time, rate: real)
    requires AgreeBefore(h1, h2, day, ts) && t <= ts
    ensures HourView(h1, t, rate).marks == HourView(h2, t, rate).marks
  {
    forall s
      ensures IntradayBarAtOrBefore(h1, s, t) == IntradayBarAtOrBefore(h2, s, t)
      ensures s in HourView(h1, t, rate).marks <==> s in HourView(h2, t, rate).marks
    {
      SamePast(h1, h2, day, ts, s, day, t);
      QueriesNameTheirSymbols(h1, s, t);
      QueriesNameTheirSymbols(h2, s, t);
    }
  }

  lemma HaltedIsListedInBars(h: History, s: Symbol, t: Time)
    ensures SessionHalted(h, s, t) ==> s in Symbols(h)
  {
    if SessionHalted(h, s, t) {
      var u :| u in SessionBarsUpTo(h, s, t, t) && BreachAt(h, s, u, SessionCalendarUTC(t));
      QueriesNameTheirSymbols(h, s, u);
    }
  }

  /** An hourly step reads hourly bars up to its own, and no daily bar of its own session. */
  lemma SameHourView(h1: History, h2: History, day: Time, ts: Time, t: Time, rate: real)
    requires AgreeBefore(h1, h2, day, ts) && t <= ts && SessionCalendarUTC(t) <= day
    ensures HourView(h1, t, rate) == HourView(h2, t, rate)
  {
    var v1, v2 := HourView(h1, t, rate), HourView(h2, t, rate);
    SamePrevBars(h1, h2, day, ts, v1.day);
    SameNext(h1, h2, t);
    SameHourBars(h1, h2, day, ts, t, rate);
    SameHourMarks(h1, h2, day, ts, t, rate);
    forall s
      ensures s in v1.halted <==> s in v2.halted
    {
      SameSessionHalt(h1, h2, day, ts, s, t);
      HaltedIsListedInBars(h1, s, t);
      HaltedIsListedInBars(h2, s, t);
    }
    assert v1.halted == v2.halted;
  }

  /** An event happens by (day, ts) when its session reads nothing later. */
  predicate HappensBy(e: Event, hourly: bool, day: Time, ts: Time) {
    e.Match? ==> if hourly then e.key <= ts && SessionCalendarUTC(e.key) <= day else e.key < day
  }

  /**
   * No look-ahead.  Any run of events up to a point leaves the same orders, portfolios and snapshots on two histories
   * that agree up to that point, although each step consults the next trading day or bar of the calendar.
   */
  lemma {:induction false} NoLookAhead(m1: Setup, m2: Setup, events: seq<Event>, w: World, day: Time, ts: Time)
    requires AgreeBefore(m1.history, m2.history, day, ts) && m1.hourly == m2.hourly && m1.rate == m2.rate
    requires forall i :: 0 <= i < |events| ==> HappensBy(events[i], m1.hourly, day, ts)
    ensures Run(m1, w, events) == Run(m2, w, events)
  {
    if events != [] {
      var n := |events| - 1;
      NoLookAhead(m1, m2, events[..n], w, day, ts);
      if events[n].Match? {
        if m1.hourly {
          SameHourView(m1.history, m2.history, day, ts, events[n].key, m1.rate);
        } else {
          SameDayView(m1.history, m2.history, day, ts, events[n].key);
        }
      }
    }
  }
}
