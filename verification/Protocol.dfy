/** What requests to a simulation do, spelled out: placing an order, starting, pausing, ticking and proceeding. */
module Protocol {
  import opened Common
  import opened Calendar
  import opened Market
  import opened Rules
  import opened Ledger
  import opened Runs
  import opened Clock
  import opened Lifecycle
  import opened Schedule
  import opened Simulation

  // ----- Orders -----

  /** A request names a tradable symbol, a side, a type with its price, and up to a million shares. */
  predicate WellMade(q: Request, listed: set<Symbol>) {
    && q.symbol in listed && (q.side == Buy || q.side == Sell) && 1 <= q.quantity <= 1000000
    && (q.otype == MarketOrder
        || ((q.otype == LimitOrder || q.otype == StopOrder) && q.price.Some? && q.price.value > 0.0))
  }

  /** The clock's own session is still to be matched, or its window is open. */
  predicate OwnSession(m: Plant, r: Registry)
    requires r.clock.Some?
  {
    var date := r.clock.value.date;
    r.windowOpen || r.lastMatched.None?
    || (if m.hourly then r.lastMatched.value < date else r.lastMatched.value / 86400 < date / 86400)
  }

  function OwnKey(m: Plant, date: Time): Time {
    if m.hourly then date else date / 86400 * 86400
  }

  /** There is a session for a new order: the clock's own, or a later one of the market. */
  ghost predicate HasSession(m: Plant, r: Registry)
    requires r.clock.Some?
  {
    OwnSession(m, r)
    || exists t :: t in MarketCalendar(m.history, m.hourly) && OwnKey(m, r.clock.value.date) < t
  }

  lemma OwnIffFills(m: Plant, r: Registry)
    requires r.clock.Some?
    ensures OwnSession(m, r) <==> OrderFillsOnCurrentDate(m.Cfg(), r)
    ensures OwnKey(m, r.clock.value.date) == if m.hourly then r.clock.value.date else TruncateDay(r.clock.value.date)
  {
    var date := r.clock.value.date;
    SessionDateIsIST(date, date);
    if r.lastMatched.Some? {
      SessionDateIsIST(r.lastMatched.value, date);
      assert r.lastMatched.value / 86400 < date / 86400
        <==> r.lastMatched.value / 86400 * 86400 < date / 86400 * 86400;
    }
  }

  lemma SessionIffKey(m: Plant, r: Registry)
    requires r.clock.Some?
    ensures HasSession(m, r) <==> PlacementKey(m, r).Some?
  {
    var own := OwnKey(m, r.clock.value.date);
    OwnIffFills(m, r);
    NextIsAdjacent(m.history, own);
    if NextSession(m, r.clock.value.date).Some? {
      var next := NextSession(m, r.clock.value.date).value;
      assert next in MarketCalendar(m.history, m.hourly) && own < next;
    }
  }

  lemma WellMadeIffValid(m: Plant, q: Request)
    ensures WellMade(q, m.history.listed) <==> ValidOrder(m.history.listed, BuildOrder(m, q, 0))
  {
    var o := BuildOrder(m, q, 0);
    assert o == NewOrder(o.agent, o.symbol, o.otype, o.side, o.quantity, o.price, o.matchDate, o.matchTs);
    assert o.symbol == q.symbol && o.side == q.side && o.otype == q.otype;
    assert o.quantity == q.quantity && o.price == q.price;
  }

  /** An order is accepted exactly when it is well made and in time, its agent may trade, and the database is up. */
  lemma AcceptedExactly(m: Plant, s: Sim, q: Request, dbOk: bool)
    ensures PlaceSim(m, s, q, dbOk).1 == Accepted <==>
      && s.reg.clock.Some? && (s.reg.clock.value.status == Running || s.reg.clock.value.status == Paused)
      && WellMade(q, m.history.listed)
      && (q.agent in s.world.accounts ==> !s.world.accounts[q.agent].disqualified)
      && (q.agent in s.orderCounts ==> s.orderCounts[q.agent] < 10)
      && HasSession(m, s.reg) && dbOk
  {
    WellMadeIffValid(m, q);
    if s.reg.clock.Some? {
      SessionIffKey(m, s.reg);
    }
  }

  /** An accepted order is stored last, as it was sent, with nothing filled; any other changes nothing. */
  lemma StoredAsSent(m: Plant, s: Sim, q: Request, dbOk: bool)
    ensures var (s', result) := PlaceSim(m, s, q, dbOk);
      if result != Accepted then s' == s
      else
        var n := |s.world.orders|;
        && |s'.world.orders| == n + 1 && s'.world.orders[..n] == s.world.orders
        && s' == s.(world := s.world.(orders := s'.world.orders), orderCounts := s'.orderCounts)
        && (var taken := if q.agent in s.orderCounts then s.orderCounts[q.agent] else 0;
            s'.orderCounts == s.orderCounts[q.agent := taken + 1])
        && var o := s'.world.orders[n];
           && o.agent == q.agent && o.symbol == q.symbol && o.otype == q.otype && o.side == q.side
           && o.quantity == q.quantity && o.price == q.price && o.status == Pending
           && o.filledQty == 0 && o.remaining == Some(q.quantity) && o.filledPrice == 0.0 && o.filledAt == None
           && o.tradeValue == 0.0 && o.fees.total == 0.0 && o.reason == None
           && s.reg.clock.Some? && (o.matchTs.Some? <==> m.hourly)
           && (m.hourly ==> o.matchTs == PlacementKey(m, s.reg)
                            && o.matchDate == (o.matchTs.value + 19800) / 86400 * 86400)
           && (!m.hourly ==> Some(o.matchDate) == PlacementKey(m, s.reg))
  {
    var (s', result) := PlaceSim(m, s, q, dbOk);
    if result == Accepted {
      var key := PlacementKey(m, s.reg).value;
      SessionDateIsIST(key, key);
      assert s'.world.orders[..|s.world.orders|] == s.world.orders;
    }
  }

  /** A new order is for the clock's own session while that is open or unmatched, and else for the market's next one. */
  lemma KeyInFigures(m: Plant, r: Registry)
    requires r.clock.Some? && PlacementKey(m, r).Some?
    ensures var own, key := OwnKey(m, r.clock.value.date), PlacementKey(m, r).value;
      if OwnSession(m, r) then key == own
      else key > own && key in MarketCalendar(m.history, m.hourly)
           && forall t :: t in MarketCalendar(m.history, m.hourly) && own < t ==> key <= t
  {
    OwnIffFills(m, r);
    NextIsAdjacent(m.history, OwnKey(m, r.clock.value.date));
  }

  /** A call counts until the agent has made a hundred; registering opens a portfolio once. */
  lemma CallsAndRegistrations(m: Plant, s: Sim, a: AgentId)
    ensures var calls := if a in s.apiCalls then s.apiCalls[a] else 0;
      SimStep(m, s, CallApi(a)) == if calls >= 100 then s else s.(apiCalls := s.apiCalls[a := calls + 1])
    ensures var s' := SimStep(m, s, Register(a));
      if a in s.world.accounts then s' == s
      else s' == s.(world := s.world.(accounts := s.world.accounts[a := OpenAccount(m.start)]))
  {
  }

  // ----- The clock -----

  /** Pausing closes the window where the clock stands, and a paused clock does not tick. */
  lemma PauseStops(cfg: Config, r: Registry, f: Outcomes)
    requires r.clock.Some? && r.clock.value.status != Completed
    ensures var (r', err) := Pause(cfg, r);
      && err == None && r'.clock == Some(r.clock.value.(status := Paused)) && !r'.windowOpen
      && r'.db.status == Paused && r'.db.lastMatched == r.db.lastMatched && r'.matched == r.matched
      && Tick(cfg, r', f) == (r', Some(ClockNotRunning))
  {
  }

  /** Starting a paused clock goes on where it stood, without a window and without moving the marker. */
  lemma StartResumes(cfg: Config, r: Registry, publishOk: bool)
    requires r.clock.Some? && r.clock.value.status == Paused && r.db.status != Completed && cfg.schedule != []
    ensures var (r', err) := Start(cfg, r, publishOk);
      && r'.clock == Some(r.clock.value.(status := Running)) && r'.db.status == Running
      && r'.windowOpen == r.windowOpen && r'.lastMatched == r.lastMatched && r'.matched == r.matched
      && (err == None <==> publishOk)
  {
  }

  /** A simulation without days, or one that is completed, does not start; a running one is left alone. */
  lemma StartRefused(cfg: Config, r: Registry, publishOk: bool)
    ensures r.db.status == Completed ==> Start(cfg, r, publishOk) == (r, Some(ClockCompleted))
    ensures r.db.status != Completed && cfg.schedule == [] ==> Start(cfg, r, publishOk) == (r, Some(NoTradingDays))
    ensures r.db.status != Completed && cfg.schedule != [] && r.clock.Some? && r.clock.value.status == Running ==>
      Start(cfg, r, publishOk) == (r, None)
  {
  }

  /** Proceed answers only an awaited checkpoint: it opens the gate, starts a new segment, and starts the clock. */
  lemma ProceedOnlyAwaited(cfg: Config, r: Registry, publishOk: bool)
    ensures !r.db.awaiting ==> Proceed(cfg, r, publishOk) == (r, Some(NotAwaitingProceed))
    ensures r.db.awaiting ==>
      Proceed(cfg, r, publishOk) == Start(cfg, r.(db := r.db.(awaiting := false, daysSince := 0)), publishOk)
      && !Proceed(cfg, r, publishOk).0.db.awaiting && Proceed(cfg, r, publishOk).0.db.daysSince == 0
  {
  }

  /**
   * Where a tick opens the next window: at the clock's session while that is unmatched, at the next one after it, and
   * nowhere past the last, where the simulation is completed and its clock dropped.
   */
  lemma NextWindowInFigures(cfg: Config, r: Registry, k: nat)
    requires RegAt(cfg, r, k, 2) && r.clock.Some? && r.clock.value.status == Running && !r.windowOpen
    ensures var (r', result) := OpenNext(cfg, r, true);
      var i, n := r.clock.value.index, |cfg.schedule|;
      var j := if r.lastMatched.Some? && cfg.schedule[i] <= r.lastMatched.value then i + 1 else i;
      if j < n then
        && result == Opened && r'.windowOpen && r'.windowDate == cfg.schedule[j]
        && r'.clock == Some(SimClock(j, cfg.schedule[j], Running))
      else result == Finished && r'.clock == None && !r'.windowOpen && r'.db.status == Completed
  {
    AdvancesIffReached(cfg, r, k, 2);
    var i := r.clock.value.index;
    assert i < k - 1 ==> cfg.schedule[i] < cfg.schedule[k - 1];
    assert k - 1 < i && k > 0 ==> cfg.schedule[k - 1] < cfg.schedule[i];
  }
}
