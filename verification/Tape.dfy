/** What one matching step may read of the market: the queries it issues, collected into a value. */
module Tape {
  import opened Common
  import opened Calendar
  import opened Market
  import opened Rules
  import opened Path

  /**
   * The market seen by one session.  `now` is the trade date (daily) or bar instant (hourly), `next` the match key a
   * deferred order moves to; hourly it is None exactly on the session's last bar.
   */
  datatype View = View(
    hourly: bool, rate: real, now: Time, day: Time, listed: set<Symbol>,
    bars: map<Symbol, Bar>, prev: map<Symbol, Bar>, halted: set<Symbol>, marks: map<Symbol, real>, next: Option<Time>)
  {
    function PrevClose(s: Symbol): real {
      if s in prev then prev[s].close else 0.0
    }

    function PrevVolume(s: Symbol): int {
      if s in prev then prev[s].volume else 0
    }

    /** A daily session also halts a symbol that did not trade on the date. */
    predicate BreakerOn(s: Symbol) {
      s in halted || (!hourly && s !in bars)
    }

    /** Snapshots are written at the end of a day, or on the last bar of an hourly session. */
    predicate ClosesSession() {
      !hourly || next.None?
    }

    function PrevMarks(symbols: set<Symbol>): map<Symbol, real> {
      map s | s in symbols :: PrevClose(s)
    }

    /** Facts every view taken from well-formed history has. */
    ghost predicate Sound() {
      && (forall s :: s in bars ==> bars[s].WellFormed())
      && (forall s :: s in prev ==> prev[s].WellFormed())
      && (forall s :: s in marks ==> marks[s] > 0.0)
      && (hourly ==> forall s :: s in bars && s !in halted ==>
            !CircuitBandBreached(bars[s].high, bars[s].low, PrevClose(s)))
    }
  }

  function PrevBars(h: History, day: Time): map<Symbol, Bar> {
    map s | s in Symbols(h) && PrevTradingDayBar(h, s, day).Some? :: PrevTradingDayBar(h, s, day).value
  }

  function PrevCloseOf(h: History, s: Symbol, day: Time): real {
    match PrevTradingDayBar(h, s, day)
    case Some(b) => b.close
    case None => 0.0
  }

  predicate DayHalted(h: History, s: Symbol, day: Time) {
    match (BarOnDate(h, s, day), PrevTradingDayBar(h, s, day))
    case (Some(b), Some(p)) => CircuitTriggered(b.open, p.close)
    case _ => false
  }

  function DayView(h: History, day: Time): View {
    var bars := map s | s in Symbols(h) && BarOnDate(h, s, day).Some? :: BarOnDate(h, s, day).value;
    View(false, 0.0, day, day, h.listed, bars, PrevBars(h, day),
         set s | s in Symbols(h) && DayHalted(h, s, day),
         map s | s in bars :: bars[s].close,
         NextTradingDay(h, day))
  }

  /** True once some bar of the session so far printed outside the band. */
  ghost predicate SessionHalted(h: History, s: Symbol, ts: Time) {
    exists t :: t in SessionBarsUpTo(h, s, ts, ts) && BreachAt(h, s, t, SessionCalendarUTC(ts))
  }

  predicate BreachAt(h: History, s: Symbol, t: Time, day: Time) {
    match Find(h.hourly, s, t)
    case Some(b) => CircuitBandBreached(b.high, b.low, PrevCloseOf(h, s, day))
    case None => false
  }

  /** The key of a later bar of the same session, if the market has one. */
  function NextMatch(h: History, ts: Time): Option<Time> {
    match NextBar(h, ts)
    case Some(n) => if SameSession(ts, n) then Some(n) else None
    case None => None
  }

  ghost function HourView(h: History, ts: Time, rate: real): View {
    var day := SessionCalendarUTC(ts);
    View(true, rate, ts, day, h.listed,
         map s | s in Symbols(h) && IntradayBarOnTs(h, s, ts).Some? :: IntradayBarOnTs(h, s, ts).value,
         PrevBars(h, day),
         set s | s in Symbols(h) && SessionHalted(h, s, ts),
         map s | s in Symbols(h) && IntradayBarAtOrBefore(h, s, ts).Some?
           :: IntradayBarAtOrBefore(h, s, ts).value.close,
         NextMatch(h, ts))
  }

  lemma QueriesNameTheirSymbols(h: History, s: Symbol, t: Time)
    ensures BarOnDate(h, s, t).Some? ==> s in Symbols(h)
    ensures PrevTradingDayBar(h, s, t).Some? ==> s in Symbols(h)
    ensures IntradayBarOnTs(h, s, t).Some? ==> s in Symbols(h)
    ensures IntradayBarAtOrBefore(h, s, t).Some? ==> s in Symbols(h)
  {
    if (s, t) in h.daily {
      assert (s, t).0 == s;
    }
    if (s, t) in h.hourly {
      assert (s, t).0 == s;
    }
    var before := set k | k in h.daily && k.0 == s && k.1 < t :: k.1;
    if before != {} {
      var d := AnyOf(before);
      assert (s, d) in h.daily && (s, d).0 == s;
    }
    var upTo := set k | k in h.hourly && k.0 == s && k.1 <= t :: k.1;
    if upTo != {} {
      var d := AnyOf(upTo);
      assert (s, d) in h.hourly && (s, d).0 == s;
    }
  }

  lemma DayViewIsSound(h: History, day: Time)
    requires WellFormed(h)
    ensures DayView(h, day).Sound()
  {
    forall s
      ensures PrevTradingDayBar(h, s, day).Some? ==> PrevTradingDayBar(h, s, day).value.WellFormed()
    {
      LatestIsWellFormed(h, s, day);
    }
  }

  lemma HourViewIsSound(h: History, ts: Time, rate: real)
    requires WellFormed(h)
    ensures HourView(h, ts, rate).Sound()
  {
    var v := HourView(h, ts, rate);
    forall s
      ensures PrevTradingDayBar(h, s, v.day).Some? ==> PrevTradingDayBar(h, s, v.day).value.WellFormed()
      ensures IntradayBarAtOrBefore(h, s, ts).Some? ==> IntradayBarAtOrBefore(h, s, ts).value.WellFormed()
    {
      LatestIsWellFormed(h, s, ts);
      LatestIsWellFormed(h, s, v.day);
    }
    forall s | s in v.bars && s !in v.halted
      ensures !CircuitBandBreached(v.bars[s].high, v.bars[s].low, v.PrevClose(s))
    {
      SessionBarsAre(h, s, ts, ts, ts);
      QueriesNameTheirSymbols(h, s, v.day);
      assert !BreachAt(h, s, ts, v.day);
    }
  }
}
