/** Which session an order waits for: when an order is left behind by the clock, and when none is. */
module Stranding {
  import opened Common
  import opened Calendar
  import opened Market
  import opened Rules
  import opened Ledger
  import opened Tape
  import opened Matching
  import opened Runs
  import opened Clock
  import opened Lifecycle
  import opened SessionOrder
  import opened Schedule
  import opened Simulation
  import Hourly

  function KeyOf(hourly: bool, o: Order): Option<Time> {
    if hourly then o.matchTs else Some(o.matchDate)
  }

  /** A pending order waits for a session of the market that is still to be matched. */
  ghost predicate Waiting(m: Plant, lastMatched: Option<Time>, o: Order) {
    o.IsPending() ==>
      && KeyOf(m.hourly, o).Some?
      && var key := KeyOf(m.hourly, o).value;
         && key in MarketCalendar(m.history, m.hourly)
         && m.Cfg().schedule != [] && m.Cfg().schedule[0] <= key
         && (lastMatched.Some? ==> key > lastMatched.value)
  }

  ghost predicate NoneStranded(m: Plant, orders: seq<Order>, lastMatched: Option<Time>) {
    forall i :: 0 <= i < |orders| ==> Waiting(m, lastMatched, orders[i])
  }

  // ----- Matching -----

  /** A matched order is closed or moves to the session's successor. */
  lemma StepMovesOn(w: World, v: View, i: nat)
    requires i < |w.orders| && Due(v, w.orders[i])
    ensures var o := MatchStep(w, v, i).orders[i];
      o.IsPending() ==> v.next.Some? && KeyOf(v.hourly, o) == v.next
  {
  }

  lemma SessionMovesOn(w: World, v: View, i: nat)
    requires i < |w.orders|
    ensures var o := MatchFrom(w, v, 0).orders[i];
      if Due(v, w.orders[i]) then o.IsPending() ==> v.next.Some? && KeyOf(v.hourly, o) == v.next
      else o == w.orders[i]
  {
    Hourly.RowInSession(w, v, i);
    var here := Hourly.MatchUpTo(w, v, 0, i);
    if Due(v, w.orders[i]) {
      StepMovesOn(here, v, i);
    }
  }

  /** The key a deferred order moves to is a later session of the market. */
  lemma DeferralIsForward(m: Plant, key: Time)
    ensures var v := ViewAt(m.Market(), key);
      v.next.Some? ==> v.next.value > key && v.next.value in MarketCalendar(m.history, m.hourly)
  {
    NextIsAdjacent(m.history, key);
  }

  /** A pending key at or after the next session to match, and not that session, is beyond it. */
  lemma BeyondNext(m: Plant, k: nat, key: Time)
    requires m.Valid() && k < |m.Cfg().schedule| && key in MarketCalendar(m.history, m.hourly)
    requires m.Cfg().schedule[0] <= key && (k > 0 ==> key > m.Cfg().schedule[k - 1]) && key != m.Cfg().schedule[k]
    ensures key > m.Cfg().schedule[k]
  {
    if key <= m.Cfg().schedule[k] {
      ScheduleIsDense(m.history, m.hourly, m.start, m.end, k, key);
    }
  }

  /** The orders pending for session k or later, once session k has been matched. */
  lemma MatchingStrandsNone(m: Plant, w: World, k: nat)
    requires m.Valid() && k < |m.Cfg().schedule|
    requires NoneStranded(m, w.orders, if k == 0 then None else Some(m.Cfg().schedule[k - 1]))
    requires ProcessSession(w, ViewAt(m.Market(), m.Cfg().schedule[k])).Some?
    ensures NoneStranded(m, ProcessSession(w, ViewAt(m.Market(), m.Cfg().schedule[k])).value.orders,
                         Some(m.Cfg().schedule[k]))
  {
    var now := m.Cfg().schedule[k];
    var v := ViewAt(m.Market(), now);
    var w' := ProcessSession(w, v).value;
    assert w'.orders == MatchFrom(w, v, 0).orders;
    ScheduleIsValid(m.history, m.hourly, m.start, m.end, m.interval, m.batch);
    forall i | 0 <= i < |w'.orders|
      ensures Waiting(m, Some(now), w'.orders[i])
    {
      SessionMovesOn(w, v, i);
      DeferralIsForward(m, now);
      var o := w.orders[i];
      assert m.Cfg().schedule[0] <= now;
      if o.IsPending() && !Due(v, o) {
        BeyondNext(m, k, KeyOf(m.hourly, o).value);
      }
    }
  }

  /** Matching a session again touches no order: none is due. */
  lemma RematchTouchesNone(m: Plant, w: World, now: Time)
    requires NoneStranded(m, w.orders, Some(now)) && ProcessSession(w, ViewAt(m.Market(), now)).Some?
    ensures ProcessSession(w, ViewAt(m.Market(), now)).value.orders == w.orders
  {
    var v := ViewAt(m.Market(), now);
    var w' := ProcessSession(w, v).value;
    forall i | 0 <= i < |w.orders|
      ensures w'.orders[i] == w.orders[i]
    {
      SessionMovesOn(w, v, i);
      assert Waiting(m, Some(now), w.orders[i]);
    }
  }

  // ----- Registry steps -----

  /** Sessions up to k - 1 have been reached, the clock is at most two behind, and no order is stranded. */
  ghost predicate Ahead(m: Plant, s: Sim, k: nat) {
    && m.Valid() && RegAt(m.Cfg(), s.reg, k, 2)
    && NoneStranded(m, s.world.orders, s.reg.db.lastMatched)
  }

  /** A committed match of the open window, whether it is session k or session k - 1 once more. */
  lemma WindowStrandsNone(m: Plant, r: Registry, w: World, k: nat)
    requires m.Valid() && RegAt(m.Cfg(), r, k, 2) && r.windowOpen && NoneStranded(m, w.orders, r.db.lastMatched)
    requires ProcessSession(w, ViewAt(m.Market(), r.windowDate)).Some?
    ensures var k' := Reach(r, k, true);
      0 < k' <= |m.Cfg().schedule|
      && NoneStranded(m, ProcessSession(w, ViewAt(m.Market(), r.windowDate)).value.orders,
                      Some(m.Cfg().schedule[k' - 1]))
  {
    if r.clock.value.index == k {
      MatchingStrandsNone(m, w, k);
    } else {
      RematchTouchesNone(m, w, r.windowDate);
    }
  }

  lemma AttemptStrandsNone(m: Plant, s: Sim, dbOk: bool, k: nat)
    requires Ahead(m, s, k) && s.reg.windowOpen
    ensures var (w, ok) := Attempt(m, s, dbOk);
      var k' := Reach(s.reg, k, ok);
      && (ok ==> 0 < k' <= |m.Cfg().schedule|)
      && NoneStranded(m, w.orders, if ok then Some(m.Cfg().schedule[k' - 1]) else s.reg.db.lastMatched)
  {
    var noted := RecordMissed(s.world, s.apiCalls, m.missedLimit);
    assert noted.orders == s.world.orders;
    if Attempt(m, s, dbOk).1 {
      WindowStrandsNone(m, s.reg, noted, k);
    }
  }

  lemma CloseStrandsNone(m: Plant, s: Sim, dbOk: bool, publishOk: bool, k: nat)
    requires Ahead(m, s, k)
    ensures var s' := CloseSim(m, s, dbOk, publishOk);
      Ahead(m, s', Reach(s.reg, k, Attempt(m, s, dbOk).1)) && !s'.reg.windowOpen
  {
    if s.reg.windowOpen {
      var (w, ok) := Attempt(m, s, dbOk);
      var s', k' := CloseSim(m, s, dbOk, publishOk), Reach(s.reg, k, ok);
      assert RegAt(m.Cfg(), s'.reg, k', 2) && !s'.reg.windowOpen by {
        CloseWindowKeeps(m.Cfg(), s.reg, ok, publishOk, k, 2);
      }
      AttemptStrandsNone(m, s, dbOk, k);
      assert s'.world == w;
    }
  }

  lemma RestStrandsNone(m: Plant, s1: Sim, f: Outcomes, k: nat)
    requires Ahead(m, s1, k) && !s1.reg.windowOpen
    ensures var t := TickRest(m, s1, f); NoneStranded(m, t.world.orders, t.reg.db.lastMatched)
  {
    var (r2, result) := OpenNext(m.Cfg(), s1.reg, f.tickPublish);
    OpenNextKeeps(m.Cfg(), s1.reg, f.tickPublish, k, 2);
    assert r2.db.lastMatched == s1.reg.db.lastMatched;
    if result == Opened && m.batch {
      CloseStrandsNone(m, Sim(r2, s1.world, map[], map[]), f.secondMatch, f.secondPublish, k);
    }
  }

  /** Restoring the clock after a failed second close changes neither the orders nor the marker. */
  lemma TickStrandsNone(m: Plant, s: Sim, f: Outcomes, k: nat)
    requires Ahead(m, s, k)
    ensures var t := TickSim(m, s, f); NoneStranded(m, t.world.orders, t.reg.db.lastMatched)
  {
    CloseStrandsNone(m, s, f.firstMatch, f.firstPublish, k);
    if !CloseFails(m, s, f.firstMatch, f.firstPublish) {
      RestStrandsNone(m, CloseSim(m, s, f.firstMatch, f.firstPublish), f,
                      Reach(s.reg, k, Attempt(m, s, f.firstMatch).1));
    }
  }

  // ----- Placement -----

  /** The session a new order would be for is already matched: the open one, or the one after the clock's. */
  predicate Behind(cfg: Config, r: Registry) {
    && r.clock.Some? && r.db.lastMatched.Some?
    && var c, last := r.clock.value, r.db.lastMatched.value;
       if r.windowOpen then c.date <= last
       else c.index + 1 < |cfg.schedule| && cfg.schedule[c.index + 1] <= last
  }

  /**
   * Even with a lost checkpoint behind it, a new order's key is strictly after the last matched session exactly when
   * the clock is not two sessions behind (or one, while a window is open on an already matched session).
   */
  lemma PlacementExactly(m: Plant, r: Registry, k: nat)
    requires m.Valid() && RegAt(m.Cfg(), r, k, 2) && r.clock.Some? && r.db.lastMatched.Some?
    requires PlacementKey(m, r).Some?
    ensures PlacementKey(m, r).value > r.db.lastMatched.value <==>
      if r.windowOpen then r.clock.value.index == k else r.clock.value.index + 1 >= k
  {
    var cfg, c := m.Cfg(), r.clock.value;
    var s := cfg.schedule;
    AdvancesIffReached(cfg, r, k, 2);
    NextIsAdjacent(m.history, c.date);
    if c.index + 1 < |s| {
      NextScheduled(m.history, m.hourly, m.start, m.end, c.index);
    }
    assert c.index < k - 1 ==> s[c.index] < s[k - 1];
    assert k - 1 < c.index ==> s[k - 1] < s[c.index];
  }

  lemma BehindIsPositional(cfg: Config, r: Registry, k: nat)
    requires RegAt(cfg, r, k, 2) && r.clock.Some? && r.db.lastMatched.Some?
    ensures !Behind(cfg, r) <==> if r.windowOpen then r.clock.value.index == k else r.clock.value.index + 1 >= k
  {
    var s, i := cfg.schedule, r.clock.value.index;
    assert i > k - 1 ==> s[k - 1] < s[i];
    assert i + 1 < |s| && i + 1 > k - 1 ==> s[k - 1] < s[i + 1];
  }

  /** A new order's key is a session of the market's calendar, not before the schedule begins. */
  lemma PlacementIsOnMarket(m: Plant, r: Registry, k: nat)
    requires m.Valid() && RegAt(m.Cfg(), r, k, 2) && r.clock.Some? && PlacementKey(m, r).Some?
    ensures var key := PlacementKey(m, r).value;
      key in MarketCalendar(m.history, m.hourly) && m.Cfg().schedule[0] <= key
  {
    var cfg, c := m.Cfg(), r.clock.value;
    assert cfg.schedule[0] <= c.date;
    if OrderFillsOnCurrentDate(cfg, r) {
      ScheduleIs(m.history, m.hourly, m.start, m.end, c.date);
    } else {
      NextIsAdjacent(m.history, c.date);
    }
  }

  /** In step, a new order is always ahead of the marker. */
  lemma InStepIsNotBehind(cfg: Config, r: Registry)
    requires RegInv(cfg, r)
    ensures !Behind(cfg, r)
  {
    var s := cfg.schedule;
    if r.clock.Some? && r.db.lastMatched.Some? {
      var i, k := r.clock.value.index, |r.matched|;
      assert i > k - 1 ==> s[k - 1] < s[i];
      assert i + 1 < |s| ==> s[k - 1] < s[i + 1];
    }
  }

  /** The order a request stores, if it stores one while the clock is behind, is stranded from the start. */
  ghost predicate StoredBehind(m: Plant, s: Sim, a: SimAction) {
    a.Submit? && PlaceSim(m, s, a.request, a.dbOk).1 == Accepted && Behind(m.Cfg(), s.reg)
  }

  lemma PlaceStrandsExactly(m: Plant, s: Sim, a: SimAction, k: nat)
    requires Ahead(m, s, k) && a.Submit?
    ensures NoneStranded(m, SimStep(m, s, a).world.orders, s.reg.db.lastMatched) <==> !StoredBehind(m, s, a)
  {
    if PlaceSim(m, s, a.request, a.dbOk).1 == Accepted {
      var orders, o := s.world.orders, BuildOrder(m, a.request, PlacementKey(m, s.reg).value);
      assert SimStep(m, s, a).world.orders == orders + [o];
      assert (orders + [o])[|orders|] == o && o.IsPending();
      PlacementIsOnMarket(m, s.reg, k);
      if s.reg.db.lastMatched.Some? {
        PlacementExactly(m, s.reg, k);
        BehindIsPositional(m.Cfg(), s.reg, k);
      }
      assert Waiting(m, s.reg.db.lastMatched, o) <==> !Behind(m.Cfg(), s.reg);
    }
  }

  // ----- Runs -----

  /** Withdrawals, calls, registrations and clock requests strand nothing: keys and marker stay. */
  lemma RequestsStrandNone(m: Plant, s: Sim, a: SimAction, k: nat)
    requires Ahead(m, s, k) && !a.TickNow? && !a.CloseNow? && !a.Submit?
    ensures var s' := SimStep(m, s, a); NoneStranded(m, s'.world.orders, s'.reg.db.lastMatched)
  {
    assert SimStep(m, s, a).reg.db.lastMatched == s.reg.db.lastMatched;
  }

  lemma StepStrandsExactly(m: Plant, s: Sim, a: SimAction, k: nat)
    requires Ahead(m, s, k)
    ensures var s' := SimStep(m, s, a);
      NoneStranded(m, s'.world.orders, s'.reg.db.lastMatched) <==> !StoredBehind(m, s, a)
  {
    if a.Submit? {
      PlaceStrandsExactly(m, s, a, k);
    } else if a.TickNow? {
      TickStrandsNone(m, s, a.outcomes, k);
    } else if a.CloseNow? {
      CloseStrandsNone(m, s, a.dbOk, a.publishOk, k);
    } else {
      RequestsStrandNone(m, s, a, k);
    }
  }

  /** In every state along the run, every pending order's key is still to be matched. */
  ghost predicate NoneStrandedThroughout(m: Plant, actions: seq<SimAction>) {
    && (actions != [] ==> NoneStrandedThroughout(m, actions[..|actions| - 1]))
    && NoneStranded(m, SimAfter(m, actions).world.orders, SimAfter(m, actions).reg.db.lastMatched)
  }

  /** No order of the run is stored while the clock is behind. */
  ghost predicate NoneStoredBehind(m: Plant, actions: seq<SimAction>) {
    actions != [] ==>
      var prior, a := actions[..|actions| - 1], actions[|actions| - 1];
      NoneStoredBehind(m, prior) && !StoredBehind(m, SimAfter(m, prior), a)
  }

  /** Where a run of the simulation stands, lost checkpoints included. */
  lemma RegistryReaches(m: Plant, actions: seq<SimAction>) returns (k: nat)
    requires m.Valid()
    ensures RegAt(m.Cfg(), SimAfter(m, actions).reg, k, 2)
  {
    ScheduleIsValid(m.history, m.hourly, m.start, m.end, m.interval, m.batch);
    RunRefinesRegistry(m, actions);
    k := NeverSkipped(m.Cfg(), RegActions(m, actions));
  }

  /**
   * No order is stranded behind the clock.  All along a run of the whole simulation every pending order's match key
   * is a session of the market strictly after the last one matched, exactly when no order is stored while the session
   * it would be for has already been matched.
   */
  lemma {:induction false} NoOrderStranded(m: Plant, actions: seq<SimAction>)
    requires m.Valid()
    ensures NoneStrandedThroughout(m, actions) <==> NoneStoredBehind(m, actions)
  {
    if actions != [] {
      var n := |actions| - 1;
      NoOrderStranded(m, actions[..n]);
      if NoneStrandedThroughout(m, actions[..n]) {
        var k := RegistryReaches(m, actions[..n]);
        StepStrandsExactly(m, SimAfter(m, actions[..n]), actions[n], k);
      }
    }
  }

  /** Where no checkpoint event is lost the clock is never behind, so nothing is stranded. */
  lemma {:induction false} KeptCheckpointsStrandNone(m: Plant, actions: seq<SimAction>)
    requires m.Valid() && NoneLost(m.Cfg(), RegActions(m, actions))
    ensures NoneStrandedThroughout(m, actions) && RegInv(m.Cfg(), SimAfter(m, actions).reg)
  {
    ScheduleIsValid(m.history, m.hourly, m.start, m.end, m.interval, m.batch);
    InOrderExactly(m.Cfg(), RegActions(m, actions));
    RunRefinesRegistry(m, actions);
    if actions != [] {
      var n := |actions| - 1;
      LostEarlier(m, actions);
      KeptCheckpointsStrandNone(m, actions[..n]);
      var s := SimAfter(m, actions[..n]);
      InStepIsNotBehind(m.Cfg(), s.reg);
      NoOrderStranded(m, actions[..n]);
      NoOrderStranded(m, actions);
    }
  }

  lemma LostEarlier(m: Plant, actions: seq<SimAction>)
    requires actions != [] && NoneLost(m.Cfg(), RegActions(m, actions))
    ensures NoneLost(m.Cfg(), RegActions(m, actions[..|actions| - 1]))
  {
    var n := |actions| - 1;
    match ActionOf(m, SimAfter(m, actions[..n]), actions[n])
    case Some(b) =>
      var done := RegActions(m, actions[..n]);
      assert (done + [b])[..|done|] == done;
    case None =>
  }

  /** Once a session's last bar is matched, every order due at a bar of that session is closed. */
  lemma SessionLeavesNothingPending(m: Plant, s: Sim, i: nat)
    requires NoneStranded(m, s.world.orders, s.reg.db.lastMatched) && m.hourly && i < |s.world.orders|
    requires s.reg.db.lastMatched.Some? && NextMatch(m.history, s.reg.db.lastMatched.value).None?
    requires s.world.orders[i].matchTs.Some?
    requires SameSession(s.world.orders[i].matchTs.value, s.reg.db.lastMatched.value)
    ensures !s.world.orders[i].IsPending()
  {
    var last, key := s.reg.db.lastMatched.value, s.world.orders[i].matchTs.value;
    assert Waiting(m, s.reg.db.lastMatched, s.world.orders[i]);
    if s.world.orders[i].IsPending() {
      NextIsAdjacent(m.history, last);
      var next := NextBar(m.history, last).value;
      SessionsAreMonotone(last, next);
      SessionsAreMonotone(next, key);
      assert false;
    }
  }

  // ----- A stranded order -----

  const DEMO_BAR := Bar(100.0, 100.0, 100.0, 100.0, 1000)
  const DEMO_DAYS := map[("INFY.NS", 0) := DEMO_BAR, ("INFY.NS", 86400) := DEMO_BAR, ("INFY.NS", 172800) := DEMO_BAR]
  const DEMO_PLANT := Plant(History({"INFY.NS"}, DEMO_DAYS, map[]), false, 0.1, 0, 172800, 2, true, 5)
  const DEMO_REQUEST := Request(7, "INFY.NS", MarketOrder, Buy, 1, None)

  lemma DemoDays()
    ensures DEMO_PLANT.Valid() && DEMO_PLANT.Cfg() == DEMO && TradingDays(DEMO_PLANT.history) == {0, 86400, 172800}
  {
    var h := DEMO_PLANT.history;
    assert ("INFY.NS", 0) in h.daily && ("INFY.NS", 86400) in h.daily && ("INFY.NS", 172800) in h.daily;
    assert ("INFY.NS", 0).1 == 0 && ("INFY.NS", 86400).1 == 86400 && ("INFY.NS", 172800).1 == 172800;
    assert TradingDays(h) == {0, 86400, 172800};
    ThreeInOrder(DEMO_PLANT.Cfg().schedule);
  }

  lemma ThreeInOrder(s: seq<Time>)
    requires Ascending(s) && forall t :: t in s <==> t in {0, 86400, 172800}
    ensures s == [0, 86400, 172800]
  {
    assert 0 in s && 86400 in s && 172800 in s;
    assert s[0] in s && s[0] == 0;
    assert s[1] in s && s[1] == 86400;
    assert s[2] in s && s[2] == 172800;
    assert |s| == 3 by {
      if |s| > 3 {
        NothingFurther(s, s[3]);
      }
    }
  }

  lemma NothingFurther(s: seq<Time>, last: Time)
    requires forall t :: t in s <==> t in {0, 86400, 172800}
    ensures last in s ==> last <= 172800
  {
  }

  /** A match with no account and no order due commits and changes nothing. */
  lemma QuietMatch(m: Plant, s: Sim)
    requires s.world.accounts == map[]
    requires forall i :: 0 <= i < |s.world.orders| ==> !Due(ViewAt(m.Market(), s.reg.windowDate), s.world.orders[i])
    ensures Attempt(m, s, true) == (s.world, true)
  {
    var noted := RecordMissed(s.world, s.apiCalls, m.missedLimit);
    var v := ViewAt(m.Market(), s.reg.windowDate);
    assert noted == s.world;
    var w' := MatchFrom(noted, v, 0);
    forall i | 0 <= i < |noted.orders|
      ensures w'.orders[i] == noted.orders[i]
    {
      SessionMovesOn(noted, v, i);
    }
    assert w'.orders == noted.orders && w'.accounts == map[];
    assert ProcessSession(noted, v).value.accounts == map[];
  }

  /** A tick from a closed window that matches quietly. */
  lemma QuietTick(m: Plant, s: Sim, f: Outcomes)
    requires s.world.accounts == map[] && !s.reg.windowOpen && m.batch && f.secondMatch
    requires !m.hourly && OpenNext(m.Cfg(), s.reg, f.tickPublish).1 == Opened
    requires forall i :: 0 <= i < |s.world.orders| ==>
      s.world.orders[i].matchDate != OpenNext(m.Cfg(), s.reg, f.tickPublish).0.windowDate
    ensures TickSim(m, s, f) == Sim(Tick(m.Cfg(), s.reg, f).0, s.world, map[], map[])
  {
    var r2 := OpenNext(m.Cfg(), s.reg, f.tickPublish).0;
    QuietMatch(m, Sim(r2, s.world, map[], map[]));
    assert CloseSim(m, s, f.firstMatch, f.firstPublish) == s;
  }

  const DEMO_ORDER := BuildOrder(DEMO_PLANT, DEMO_REQUEST, 86400)
  const DEMO_6 := Registry(Some(SimClock(1, 86400, Running)), false, 86400, Some(86400),
                           Db(Running, Some(86400), None, Some(86400), 2, true), [0, 86400], [2])

  lemma DemoSubmit()
    ensures PlaceSim(DEMO_PLANT, Early(DEMO_3), DEMO_REQUEST, true)
      == (Placed(DEMO_3), Accepted)
  {
    DemoDays();
    NextIsAdjacent(DEMO_PLANT.history, 0);
    assert NextTradingDay(DEMO_PLANT.history, 0) == Some(86400);
    assert [] + [DEMO_ORDER] == [DEMO_ORDER];
  }

  /** What a registry is paired with along the run: before the order, with it, and after a restart. */
  function Early(r: Registry): Sim {
    Sim(r, EMPTY_WORLD, map[], map[])
  }

  function Placed(r: Registry): Sim {
    Sim(r, World([DEMO_ORDER], map[]), map[], map[7 := 1])
  }

  function Late(r: Registry): Sim {
    Sim(r, World([DEMO_ORDER], map[]), map[], map[])
  }

  lemma Reached(actions: seq<SimAction>, a: SimAction, s: Sim, s': Sim) returns (longer: seq<SimAction>)
    requires SimAfter(DEMO_PLANT, actions) == s && SimStep(DEMO_PLANT, s, a) == s'
    ensures longer == actions + [a] && SimAfter(DEMO_PLANT, longer) == s'
  {
    longer := actions + [a];
    assert longer[..|actions|] == actions;
  }

  /** A tick of the demonstration that has nothing to match. */
  lemma DemoTick(s: Sim, f: Outcomes)
    requires s.world.accounts == map[] && !s.reg.windowOpen && f.secondMatch
    requires OpenNext(DEMO, s.reg, f.tickPublish).1 == Opened
    requires forall i :: 0 <= i < |s.world.orders| ==>
      s.world.orders[i].matchDate != OpenNext(DEMO, s.reg, f.tickPublish).0.windowDate
    ensures SimStep(DEMO_PLANT, s, TickNow(f)) == Sim(Tick(DEMO, s.reg, f).0, s.world, map[], map[])
  {
    DemoDays();
    QuietTick(DEMO_PLANT, s, f);
  }

  lemma DemoStarted() returns (actions: seq<SimAction>)
    ensures |actions| == 1 && SimAfter(DEMO_PLANT, actions) == Early(DEMO_1)
  {
    DemoDays();
    DemoFirstTick();
    actions := Reached([], StartNow(true), NEW_SIM, Early(DEMO_1));
  }

  lemma DemoTicked() returns (actions: seq<SimAction>)
    ensures |actions| == 2 && SimAfter(DEMO_PLANT, actions) == Early(DEMO_2)
  {
    var before := DemoStarted();
    DemoFirstTick();
    DemoTick(Early(DEMO_1), ALL_WELL);
    actions := Reached(before, TickNow(ALL_WELL), Early(DEMO_1), Early(DEMO_2));
  }

  lemma DemoLost() returns (actions: seq<SimAction>)
    ensures |actions| == 3 && SimAfter(DEMO_PLANT, actions) == Early(DEMO_3)
  {
    var before := DemoTicked();
    DemoLostCheckpoint();
    DemoTick(Early(DEMO_2), DEMO_LOST);
    actions := Reached(before, TickNow(DEMO_LOST), Early(DEMO_2), Early(DEMO_3));
  }

  lemma DemoPlaced() returns (actions: seq<SimAction>)
    ensures |actions| == 4 && actions[3].Submit? && SimAfter(DEMO_PLANT, actions) == Placed(DEMO_3)
  {
    var before := DemoLost();
    DemoSubmit();
    actions := Reached(before, Submit(DEMO_REQUEST, true), Early(DEMO_3), Placed(DEMO_3));
  }

  lemma DemoRestart()
    ensures Start(DEMO, Crash(DEMO_3), true).0 == DEMO_6
    ensures OpenNext(DEMO, DEMO_6, true).1 == Opened && OpenNext(DEMO, DEMO_6, true).0.windowDate == 172800
    ensures Tick(DEMO, DEMO_6, ALL_WELL).0.matched == [0, 86400, 172800]
  {
    assert StartIndex(DEMO, DEMO_3.db) == 1;
    var open := OpenNext(DEMO, DEMO_6, true).0;
    assert open.windowOpen && open.windowDate == 172800 && open.matched == [0, 86400];
    assert [0, 86400] + [172800] == [0, 86400, 172800];
  }

  lemma DemoRestarted(before: seq<SimAction>) returns (actions: seq<SimAction>)
    requires SimAfter(DEMO_PLANT, before) == Placed(DEMO_3)
    ensures |actions| == |before| + 2 && actions[..|before|] == before && SimAfter(DEMO_PLANT, actions) == Late(DEMO_6)
  {
    DemoDays();
    DemoRestart();
    actions := Reached(before, Restart, Placed(DEMO_3), Late(Crash(DEMO_3)));
    actions := Reached(actions, StartNow(true), Late(Crash(DEMO_3)), Late(DEMO_6));
  }

  /**
   * Start, tick, a tick that loses its checkpoint event, and an order: its key is the session just matched.  After a
   * restart the simulation matches its last session, and the order is still pending for a session it has passed.
   */
  lemma OrderIsStranded() returns (actions: seq<SimAction>)
    ensures |actions| == 7 && actions[3].Submit? && DEMO_ORDER.IsPending()
    ensures var s := SimAfter(DEMO_PLANT, actions[..4]);
      s.world.orders == [DEMO_ORDER] && s.reg.db.lastMatched == Some(DEMO_ORDER.matchDate)
    ensures var s := SimAfter(DEMO_PLANT, actions);
      s.world.orders == [DEMO_ORDER] && s.reg.matched == [0, 86400, 172800] == DEMO_PLANT.Cfg().schedule
  {
    var four := DemoPlaced();
    actions := DemoRestarted(four);
    DemoRestart();
    DemoTick(Late(DEMO_6), ALL_WELL);
    var s := Late(DEMO_6);
    actions := Reached(actions, TickNow(ALL_WELL), s, Sim(Tick(DEMO, s.reg, ALL_WELL).0, s.world, map[], map[]));
    assert actions[..4] == four;
    DemoDays();
  }
}
