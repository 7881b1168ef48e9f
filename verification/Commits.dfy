/** When a match commits: what the snapshots need, and what that means for whole runs in either mode. */
module Commits {
  import opened Common
  import opened Market
  import opened Ledger
  import opened Tape
  import opened Matching
  import opened Books
  import opened Runs
  import opened Clock
  import opened Lifecycle
  import opened Checkpoints
  import opened Simulation
  import Stranding
  import Independence
  import Delivery

  // ----- One session -----

  /** Holdings the session's close could not mark. */
  function Unmarked(acc: Account, v: View): set<Symbol> {
    set s | s in acc.holdings && s !in v.marks
  }

  /** A trade needs a bar, and changes no other holding. */
  lemma TradeNeedsBar(w: World, v: View, o: Order)
    requires TryFill(w, v, o).Traded?
    ensures o.symbol in v.bars && o.agent in w.accounts
    ensures var acc, acc' := w.accounts[o.agent], TryFill(w, v, o).account;
      acc'.disqualified == acc.disqualified && forall s :: s != o.symbol ==> (s in acc'.holdings <==> s in acc.holdings)
  {
  }

  /** Outside the symbols with a bar, everyone holds what it held. */
  ghost predicate HoldsAlike(acc: Account, acc': Account, v: View) {
    acc'.disqualified == acc.disqualified && forall s :: s !in v.bars ==> (s in acc'.holdings <==> s in acc.holdings)
  }

  lemma StepHoldsAlike(w: World, v: View, i: nat, a: AgentId)
    requires i < |w.orders| && a in w.accounts
    ensures a in MatchStep(w, v, i).accounts && HoldsAlike(w.accounts[a], MatchStep(w, v, i).accounts[a], v)
  {
    if Due(v, w.orders[i]) && TryFill(w, v, w.orders[i]).Traded? {
      TradeNeedsBar(w, v, w.orders[i]);
    }
  }

  lemma {:induction false} MatchingHoldsAlike(w: World, v: View, i: nat, a: AgentId)
    requires i <= |w.orders| && a in w.accounts
    ensures a in MatchFrom(w, v, i).accounts && HoldsAlike(w.accounts[a], MatchFrom(w, v, i).accounts[a], v)
    decreases |w.orders| - i
  {
    if i < |w.orders| {
      StepHoldsAlike(w, v, i, a);
      MatchingHoldsAlike(MatchStep(w, v, i), v, i + 1, a);
    }
  }

  lemma MatchingKeepsUnmarked(w: World, v: View, a: AgentId)
    requires v.bars.Keys <= v.marks.Keys && a in w.accounts
    ensures a in MatchFrom(w, v, 0).accounts
    ensures Markable(MatchFrom(w, v, 0).accounts[a], v)
      <==> w.accounts[a].disqualified || Unmarked(w.accounts[a], v) == {}
  {
    MatchingHoldsAlike(w, v, 0, a);
    var acc, acc' := w.accounts[a], MatchFrom(w, v, 0).accounts[a];
    assert Unmarked(acc', v) == Unmarked(acc, v);
    assert Unmarked(acc', v) == {} <==> acc'.holdings.Keys <= v.marks.Keys by {
      if Unmarked(acc', v) == {} {
        forall s | s in acc'.holdings
          ensures s in v.marks
        {
          assert s !in Unmarked(acc', v);
        }
      }
    }
  }

  /** Whatever trades, a bar of the session is a mark. */
  lemma BarsAreMarks(m: Setup, key: Time)
    ensures ViewAt(m, key).bars.Keys <= ViewAt(m, key).marks.Keys
  {
    if m.hourly {
      forall s | s in ViewAt(m, key).bars
        ensures s in ViewAt(m, key).marks
      {
        PrintedAt(m.history, s, key, key);
      }
    }
  }

  lemma PrintedAt(h: History, s: Symbol, at: Time, t: Time)
    requires (s, at) in h.hourly && at <= t
    ensures IntradayBarAtOrBefore(h, s, t).Some? && s in Symbols(h)
  {
    var key := (s, at);
    var times := set k | k in h.hourly && k.0 == s && k.1 <= t :: k.1;
    assert key.1 in times by {
      assert key in h.hourly && key.0 == s && key.1 <= t;
    }
    assert IntradayBarAtOrBefore(h, s, t) == LatestOf(h.hourly, s, times);
    QueriesNameTheirSymbols(h, s, t);
  }

  /**
   * A match commits exactly when it closes no session, or every active agent holds before it only what the session's
   * close can mark: nothing traded in the session itself can make it fail, or save it.
   */
  lemma CommitsExactly(m: Setup, w: World, key: Time)
    ensures var v := ViewAt(m, key);
      ProcessSession(w, v).Some? <==>
        !v.ClosesSession()
        || forall a :: a in w.accounts ==> w.accounts[a].disqualified || Unmarked(w.accounts[a], v) == {}
  {
    var v := ViewAt(m, key);
    var matched := MatchFrom(w, v, 0);
    BarsAreMarks(m, key);
    forall a | a in w.accounts
      ensures a in matched.accounts
      ensures Markable(matched.accounts[a], v) <==> w.accounts[a].disqualified || Unmarked(w.accounts[a], v) == {}
    {
      MatchingKeepsUnmarked(w, v, a);
    }
  }

  /** In daily mode: exactly when every symbol an active agent holds has a bar on the date. */
  lemma DailyCommitsExactly(m: Setup, w: World, day: Time)
    requires !m.hourly
    ensures ProcessSession(w, ViewAt(m, day)).Some? <==>
      forall a, s :: a in w.accounts && !w.accounts[a].disqualified && s in w.accounts[a].holdings ==>
        BarOnDate(m.history, s, day).Some?
  {
    var v := ViewAt(m, day);
    CommitsExactly(m, w, day);
    forall s
      ensures s in v.marks <==> BarOnDate(m.history, s, day).Some?
    {
      QueriesNameTheirSymbols(m.history, s, day);
    }
    forall a | a in w.accounts
      ensures Unmarked(w.accounts[a], v) == {} <==> forall s :: s in w.accounts[a].holdings ==> s in v.marks
    {
      assert forall s :: s in Unmarked(w.accounts[a], v) <==> s in w.accounts[a].holdings && s !in v.marks;
    }
  }

  // ----- Hourly runs -----

  ghost predicate PrintedBy(h: History, s: Symbol, lastMatched: Option<Time>) {
    lastMatched.Some? && IntradayBarAtOrBefore(h, s, lastMatched.value).Some?
  }

  /** Every symbol anyone holds has printed at or before the last bar matched. */
  ghost predicate Printed(m: Plant, accounts: map<AgentId, Account>, lastMatched: Option<Time>) {
    forall a, s :: a in accounts && s in accounts[a].holdings ==> PrintedBy(m.history, s, lastMatched)
  }

  lemma MissedTicksPrint(m: Plant, w: World, calls: map<AgentId, nat>, lastMatched: Option<Time>)
    requires Printed(m, w.accounts, lastMatched)
    ensures Printed(m, RecordMissed(w, calls, m.missedLimit).accounts, lastMatched)
  {
    var noted := RecordMissed(w, calls, m.missedLimit);
    forall a, s | a in noted.accounts && s in noted.accounts[a].holdings
      ensures PrintedBy(m.history, s, lastMatched)
    {
      assert noted.accounts[a].holdings == w.accounts[a].holdings;
    }
  }

  lemma PrintedLater(h: History, s: Symbol, t: Time, later: Time)
    requires IntradayBarAtOrBefore(h, s, t).Some? && t <= later
    ensures IntradayBarAtOrBefore(h, s, later).Some? && s in Symbols(h)
  {
    var times := set k | k in h.hourly && k.0 == s && k.1 <= t :: k.1;
    assert times != {};
    PrintedAt(h, s, AnyOf(times), later);
  }

  /** Nothing that can be held then is without a mark at a bar from the marker on. */
  lemma PrintedCommits(m: Plant, w: World, lastMatched: Option<Time>, ts: Time)
    requires m.hourly && Printed(m, w.accounts, lastMatched) && (lastMatched.Some? ==> lastMatched.value <= ts)
    ensures ProcessSession(w, ViewAt(m.Market(), ts)).Some?
  {
    var v := ViewAt(m.Market(), ts);
    CommitsExactly(m.Market(), w, ts);
    forall a | a in w.accounts
      ensures Unmarked(w.accounts[a], v) == {}
    {
      forall s | s in w.accounts[a].holdings
        ensures s in v.marks
      {
        assert PrintedBy(m.history, s, lastMatched);
        PrintedLater(m.history, s, lastMatched.value, ts);
      }
    }
  }

  lemma ClosingKeepsHoldings(w: World, v: View)
    requires ProcessSession(w, v).Some?
    ensures var w', matched := ProcessSession(w, v).value, MatchFrom(w, v, 0);
      w'.accounts.Keys == matched.accounts.Keys
      && forall a :: a in w'.accounts ==> w'.accounts[a].holdings == matched.accounts[a].holdings
  {
  }

  /** After a bar is matched, everything held has printed by then. */
  lemma MatchPrints(m: Plant, w: World, lastMatched: Option<Time>, ts: Time)
    requires m.hourly && Printed(m, w.accounts, lastMatched) && (lastMatched.Some? ==> lastMatched.value <= ts)
    requires ProcessSession(w, ViewAt(m.Market(), ts)).Some?
    ensures Printed(m, ProcessSession(w, ViewAt(m.Market(), ts)).value.accounts, Some(ts))
  {
    var v := ViewAt(m.Market(), ts);
    var w' := ProcessSession(w, v).value;
    ClosingKeepsHoldings(w, v);
    forall a, s | a in w'.accounts && s in w'.accounts[a].holdings
      ensures PrintedBy(m.history, s, Some(ts))
    {
      MatchingHoldsAlike(w, v, 0, a);
      if s in v.bars {
        PrintedAt(m.history, s, ts, ts);
      } else {
        assert PrintedBy(m.history, s, lastMatched);
        PrintedLater(m.history, s, lastMatched.value, ts);
      }
    }
  }

  /** A simulation in which everything held has printed by the marker, and sessions up to k - 1 have been reached. */
  ghost predicate InPrint(m: Plant, s: Sim, k: nat) {
    m.hourly && RegAt(m.Cfg(), s.reg, k, 2) && Printed(m, s.world.accounts, s.reg.db.lastMatched)
  }

  lemma WindowIsNotBefore(m: Plant, r: Registry, k: nat)
    requires RegAt(m.Cfg(), r, k, 2) && r.windowOpen
    ensures r.db.lastMatched.Some? ==> r.db.lastMatched.value <= r.windowDate
  {
    var s, i := m.Cfg().schedule, r.clock.value.index;
    assert i == k ==> k > 0 ==> s[k - 1] < s[i];
  }

  /** An open hourly window always commits when the database is up. */
  lemma WindowCommits(m: Plant, s: Sim, k: nat)
    requires InPrint(m, s, k) && s.reg.windowOpen
    ensures Attempt(m, s, true).1
  {
    var noted := RecordMissed(s.world, s.apiCalls, m.missedLimit);
    MissedTicksPrint(m, s.world, s.apiCalls, s.reg.db.lastMatched);
    WindowIsNotBefore(m, s.reg, k);
    PrintedCommits(m, noted, s.reg.db.lastMatched, s.reg.windowDate);
  }

  lemma AttemptPrints(m: Plant, s: Sim, dbOk: bool, k: nat)
    requires InPrint(m, s, k) && s.reg.windowOpen
    ensures var (w, ok) := Attempt(m, s, dbOk);
      Printed(m, w.accounts, if ok then Some(s.reg.windowDate) else s.reg.db.lastMatched)
  {
    MissedTicksPrint(m, s.world, s.apiCalls, s.reg.db.lastMatched);
    if Attempt(m, s, dbOk).1 {
      WindowIsNotBefore(m, s.reg, k);
      MatchPrints(m, RecordMissed(s.world, s.apiCalls, m.missedLimit), s.reg.db.lastMatched, s.reg.windowDate);
    }
  }

  lemma ClosingMovesMarker(cfg: Config, r: Registry, matchOk: bool, publishOk: bool)
    requires cfg.hourly && r.windowOpen
    ensures CloseWindow(cfg, r, matchOk, publishOk).0.db.lastMatched ==
      if matchOk then Some(r.windowDate) else r.db.lastMatched
  {
  }

  lemma CloseKeepsPrint(m: Plant, s: Sim, dbOk: bool, publishOk: bool, k: nat)
    requires InPrint(m, s, k)
    ensures var s' := CloseSim(m, s, dbOk, publishOk);
      InPrint(m, s', Reach(s.reg, k, Attempt(m, s, dbOk).1)) && !s'.reg.windowOpen
  {
    if s.reg.windowOpen {
      var ok := Attempt(m, s, dbOk).1;
      var s' := CloseSim(m, s, dbOk, publishOk);
      assert RegAt(m.Cfg(), s'.reg, Reach(s.reg, k, ok), 2) && !s'.reg.windowOpen by {
        CloseWindowKeeps(m.Cfg(), s.reg, ok, publishOk, k, 2);
      }
      assert Printed(m, s'.world.accounts, s'.reg.db.lastMatched) by {
        AttemptPrints(m, s, dbOk, k);
        ClosingMovesMarker(m.Cfg(), s.reg, ok, publishOk);
      }
    }
  }

  lemma OpenKeepsPrint(m: Plant, s: Sim, publishOk: bool, k: nat)
    requires InPrint(m, s, k) && !s.reg.windowOpen
    ensures InPrint(m, Sim(OpenNext(m.Cfg(), s.reg, publishOk).0, s.world, map[], map[]), k)
  {
    OpenNextKeeps(m.Cfg(), s.reg, publishOk, k, 2);
  }

  lemma RestPrints(m: Plant, s1: Sim, f: Outcomes, k: nat)
    requires InPrint(m, s1, k) && !s1.reg.windowOpen
    ensures var t := TickRest(m, s1, f); Printed(m, t.world.accounts, t.reg.db.lastMatched)
  {
    OpenKeepsPrint(m, s1, f.tickPublish, k);
    var (r2, result) := OpenNext(m.Cfg(), s1.reg, f.tickPublish);
    if result == Opened && m.batch {
      CloseKeepsPrint(m, Sim(r2, s1.world, map[], map[]), f.secondMatch, f.secondPublish, k);
    }
  }

  lemma TickPrints(m: Plant, s: Sim, f: Outcomes, k: nat)
    requires InPrint(m, s, k)
    ensures var t := TickSim(m, s, f); Printed(m, t.world.accounts, t.reg.db.lastMatched)
  {
    CloseKeepsPrint(m, s, f.firstMatch, f.firstPublish, k);
    if !CloseFails(m, s, f.firstMatch, f.firstPublish) {
      RestPrints(m, CloseSim(m, s, f.firstMatch, f.firstPublish), f, Reach(s.reg, k, Attempt(m, s, f.firstMatch).1));
    }
  }

  /** Requests move no holding and no marker. */
  lemma RequestPrints(m: Plant, s: Sim, act: SimAction, k: nat)
    requires InPrint(m, s, k) && !act.TickNow? && !act.CloseNow?
    ensures var s' := SimStep(m, s, act); Printed(m, s'.world.accounts, s'.reg.db.lastMatched)
  {
    assert SimStep(m, s, act).reg.db.lastMatched == s.reg.db.lastMatched;
    if act.Register? {
      JoinPrints(m, s.world, act.agent, s.reg.db.lastMatched);
    } else {
      RequestsKeepAccounts(m, s, act);
    }
  }

  lemma RequestsKeepAccounts(m: Plant, s: Sim, act: SimAction)
    requires !act.TickNow? && !act.CloseNow? && !act.Register?
    ensures SimStep(m, s, act).world.accounts == s.world.accounts
  {
  }

  lemma JoinPrints(m: Plant, w: World, b: AgentId, lastMatched: Option<Time>)
    requires Printed(m, w.accounts, lastMatched)
    ensures Printed(m, Apply(m.Market(), w, Join(b, m.start)).accounts, lastMatched)
  {
    var w' := Apply(m.Market(), w, Join(b, m.start));
    assert forall a :: a in w'.accounts ==>
      w'.accounts[a].holdings == map[] || (a in w.accounts && w'.accounts[a] == w.accounts[a]);
  }

  lemma StepPrints(m: Plant, s: Sim, act: SimAction, k: nat)
    requires InPrint(m, s, k)
    ensures var s' := SimStep(m, s, act); Printed(m, s'.world.accounts, s'.reg.db.lastMatched)
  {
    if act.TickNow? {
      TickPrints(m, s, act.outcomes, k);
    } else if act.CloseNow? {
      CloseKeepsPrint(m, s, act.dbOk, act.publishOk, k);
    } else {
      RequestPrints(m, s, act, k);
    }
  }

  lemma {:induction false} AlwaysInPrint(m: Plant, actions: seq<SimAction>) returns (k: nat)
    requires m.Valid() && m.hourly
    ensures InPrint(m, SimAfter(m, actions), k)
  {
    k := Stranding.RegistryReaches(m, actions);
    if actions != [] {
      var n := |actions| - 1;
      var before := AlwaysInPrint(m, actions[..n]);
      StepPrints(m, SimAfter(m, actions[..n]), actions[n], before);
    }
  }

  /**
   * Hourly matches commit whenever the database is up, on every run: both the window a tick or a close finds open, and
   * the zero-length window a tick opens itself.
   */
  lemma HourlyMatchesCommit(m: Plant, actions: seq<SimAction>, f: Outcomes)
    requires m.Valid() && m.hourly
    ensures var s := SimAfter(m, actions);
      && (s.reg.windowOpen ==> Verdicts(m, s, f).firstMatch == f.firstMatch)
      && (OpenNext(m.Cfg(), CloseSim(m, s, f.firstMatch, f.firstPublish).reg, f.tickPublish).1 == Opened ==>
            Verdicts(m, s, f).secondMatch == f.secondMatch)
  {
    var s := SimAfter(m, actions);
    var k := AlwaysInPrint(m, actions);
    if s.reg.windowOpen {
      WindowCommits(m, s, k);
    }
    CloseKeepsPrint(m, s, f.firstMatch, f.firstPublish, k);
    if OpenNext(m.Cfg(), CloseSim(m, s, f.firstMatch, f.firstPublish).reg, f.tickPublish).1 == Opened {
      RestCommits(m, CloseSim(m, s, f.firstMatch, f.firstPublish), f,
                  Reach(s.reg, k, Attempt(m, s, f.firstMatch).1));
    }
  }

  lemma RestCommits(m: Plant, s1: Sim, f: Outcomes, k: nat)
    requires InPrint(m, s1, k) && !s1.reg.windowOpen && OpenNext(m.Cfg(), s1.reg, f.tickPublish).1 == Opened
    ensures Attempt(m, Sim(OpenNext(m.Cfg(), s1.reg, f.tickPublish).0, s1.world, map[], map[]), true).1
  {
    OpenKeepsPrint(m, s1, f.tickPublish, k);
    OpenNextKeeps(m.Cfg(), s1.reg, f.tickPublish, k, 2);
    WindowCommits(m, Sim(OpenNext(m.Cfg(), s1.reg, f.tickPublish).0, s1.world, map[], map[]), k);
  }

  // ----- Driving an hourly simulation -----

  /** A tick asks only for the verdicts of the windows it closes. */
  lemma TickIgnores(cfg: Config, r: Registry, f: Outcomes, g: Outcomes)
    requires g == f.(firstMatch := g.firstMatch, secondMatch := g.secondMatch)
    requires r.windowOpen ==> g.firstMatch == f.firstMatch
    requires OpenNext(cfg, CloseWindow(cfg, r, f.firstMatch, f.firstPublish).0, f.tickPublish).1 == Opened ==>
      g.secondMatch == f.secondMatch
    ensures Tick(cfg, r, g).0 == Tick(cfg, r, f).0
  {
    assert CloseWindow(cfg, r, g.firstMatch, g.firstPublish) == CloseWindow(cfg, r, f.firstMatch, f.firstPublish);
  }

  lemma HealthyTick(m: Plant, actions: seq<SimAction>)
    requires m.Valid() && m.hourly
    ensures var s := SimAfter(m, actions); TickSim(m, s, ALL_WELL).reg == Tick(m.Cfg(), s.reg, ALL_WELL).0
  {
    var s := SimAfter(m, actions);
    var g := Verdicts(m, s, ALL_WELL);
    HourlyMatchesCommit(m, actions, ALL_WELL);
    TickRefinesRegistry(m, s, ALL_WELL);
    CloseRefinesRegistry(m, s, true, true);
    assert CloseWindow(m.Cfg(), s.reg, g.firstMatch, true) == CloseWindow(m.Cfg(), s.reg, true, true);
    TickIgnores(m.Cfg(), s.reg, ALL_WELL, g);
  }

  function DriveAction(r: Registry): SimAction {
    if r.db.awaiting then ProceedNow(true) else TickNow(ALL_WELL)
  }

  /** The run continued by n drives, or until the simulation is completed. */
  ghost function Driven(m: Plant, actions: seq<SimAction>, n: nat): seq<SimAction>
    decreases n
  {
    var r := SimAfter(m, actions).reg;
    if n == 0 || r.db.status == Completed then actions else Driven(m, actions + [DriveAction(r)], n - 1)
  }

  lemma DriveRefines(m: Plant, actions: seq<SimAction>)
    requires m.Valid() && m.hourly
    ensures var r := SimAfter(m, actions).reg; SimAfter(m, actions + [DriveAction(r)]).reg == Drive(m.Cfg(), r)
  {
    var s := SimAfter(m, actions);
    var act := DriveAction(s.reg);
    assert SimAfter(m, actions + [act]) == SimStep(m, s, act) by {
      assert (actions + [act])[..|actions|] == actions;
    }
    if !s.reg.db.awaiting {
      HealthyTick(m, actions);
    }
  }

  lemma {:induction false} DrivenRefines(m: Plant, actions: seq<SimAction>, n: nat)
    requires m.Valid() && m.hourly
    ensures SimAfter(m, Driven(m, actions, n)).reg == DriveN(m.Cfg(), SimAfter(m, actions).reg, n)
    decreases n
  {
    var s := SimAfter(m, actions);
    if n > 0 && s.reg.db.status != Completed {
      DriveRefines(m, actions);
      DrivenRefines(m, actions + [DriveAction(s.reg)], n - 1);
    }
  }

  /**
   * Whatever was placed, refused or lost before, driving a live hourly simulation on a healthy database matches every
   * session once and completes it.
   */
  lemma HourlyDrivingCompletes(m: Plant, actions: seq<SimAction>, n: nat)
    requires m.Valid() && m.hourly && Live(m.Cfg(), SimAfter(m, actions).reg)
    requires n > Measure(m.Cfg(), SimAfter(m, actions).reg)
    ensures Done(m.Cfg(), SimAfter(m, Driven(m, actions, n)).reg)
  {
    DrivenRefines(m, actions, n);
    DrivingCompletes(m.Cfg(), SimAfter(m, actions).reg, n);
  }

  // ----- A daily match that cannot commit -----

  const OTHER_DAY := History({Delivery.TCS}, map[("INFY.NS", 0) := Delivery.LAST_BAR], map[])
  const OTHER_SETUP := Setup(OTHER_DAY, false, 0.1)
  const TWO_AGENTS := World([Delivery.OVERNIGHT_BUY], map[7 := Delivery.OWNER, 8 := OpenAccount(0)])

  lemma TwoAgentsBalance()
    ensures WorldInv(TWO_AGENTS, false)
  {
    Delivery.OpeningRows();
    var row, orders := Delivery.OVERNIGHT_BUY, TWO_AGENTS.orders;
    assert orders == [] + [row];
    forall s
      ensures SumInt(orders, SharesOf(7, s)) == Delivery.OWNER.HeldQty(s) && SumInt(orders, SharesOf(8, s)) == 0
      ensures SumReal(orders, FlowOf(7)) == Flow(row) && SumReal(orders, FlowOf(8)) == 0.0
    {
      SumAppend([], row, SharesOf(7, s), FlowOf(7));
      SumAppend([], row, SharesOf(8, s), FlowOf(8));
    }
    assert SumReal(orders, FlowOf(7)) == Flow(row) && SumReal(orders, FlowOf(8)) == 0.0 by {
      SumAppend([], row, SharesOf(7, ""), FlowOf(7));
      SumAppend([], row, SharesOf(8, ""), FlowOf(8));
    }
  }

  /**
   * It does happen: on a date on which a held symbol has no bar the match fails, and takes with it an agent that holds
   * nothing and would have committed alone.
   */
  lemma DailyMatchFails()
    ensures WorldInv(TWO_AGENTS, false) && ProcessSession(TWO_AGENTS, ViewAt(OTHER_SETUP, 0)).None?
    ensures ProcessSession(Independence.Alone(TWO_AGENTS, 8), ViewAt(OTHER_SETUP, 0)).Some?
  {
    TwoAgentsBalance();
    DailyCommitsExactly(OTHER_SETUP, TWO_AGENTS, 0);
    DailyCommitsExactly(OTHER_SETUP, Independence.Alone(TWO_AGENTS, 8), 0);
    assert 7 in TWO_AGENTS.accounts && Delivery.TCS in TWO_AGENTS.accounts[7].holdings;
    assert BarOnDate(OTHER_DAY, Delivery.TCS, 0).None?;
  }
}
