/** The per-tick limits on orders and API calls: what the registry's counters count, and when they let more through. */
module Limits {
  import opened Common
  import opened Market
  import opened Ledger
  import opened Tape
  import opened Matching
  import opened Runs
  import opened Clock
  import opened SessionOrder
  import opened Simulation
  import opened Stranding
  import Independence

  /** Two counters per agent, kept, checked and cleared alike. */
  datatype Budget = OrderBudget | CallBudget

  function Limit(b: Budget): nat {
    match b
    case OrderBudget => MAX_ORDERS_PER_TICK
    case CallBudget => MAX_API_CALLS_PER_TICK
  }

  function Used(s: Sim, b: Budget, a: AgentId): nat {
    match b
    case OrderBudget => CountOf(s.orderCounts, a)
    case CallBudget => CountOf(s.apiCalls, a)
  }

  /** The step stores an order of the agent, or lets a call of it through. */
  ghost predicate Granted(m: Plant, s: Sim, act: SimAction, b: Budget, a: AgentId) {
    match b
    case OrderBudget => act.Submit? && act.request.agent == a && PlaceSim(m, s, act.request, act.dbOk).1 == Accepted
    case CallBudget => act == CallApi(a) && CountOf(s.apiCalls, a) < MAX_API_CALLS_PER_TICK
  }

  ghost predicate CloseCommits(m: Plant, s: Sim, dbOk: bool) {
    s.reg.windowOpen && Attempt(m, s, dbOk).1
  }

  /** A tick opens a submission window. */
  ghost predicate Opens(m: Plant, s: Sim, act: SimAction) {
    && act.TickNow?
    && var f := act.outcomes;
       var s1 := CloseSim(m, s, f.firstMatch, f.firstPublish);
       !CloseFails(m, s, f.firstMatch, f.firstPublish) && OpenNext(m.Cfg(), s1.reg, f.tickPublish).1 == Opened
  }

  /** The step commits a match without opening a window, or restarts the registry: the counters are cleared. */
  ghost predicate ClearsEarly(m: Plant, s: Sim, act: SimAction) {
    !Opens(m, s, act)
    && match act
       case TickNow(f) => CloseCommits(m, s, f.firstMatch)
       case CloseNow(dbOk, _) => CloseCommits(m, s, dbOk)
       case Restart => true
       case _ => false
  }

  // ----- What the counters count -----

  /** Grants since the counters were last cleared, by whatever cleared them. */
  ghost function SinceCleared(m: Plant, actions: seq<SimAction>, b: Budget, a: AgentId): nat {
    if actions == [] then 0 else
      var prior, act := actions[..|actions| - 1], actions[|actions| - 1];
      var s := SimAfter(m, prior);
      if Opens(m, s, act) || ClearsEarly(m, s, act) then 0
      else SinceCleared(m, prior, b, a) + if Granted(m, s, act, b, a) then 1 else 0
  }

  /** Grants since a tick last opened a window: what the limit is about. */
  ghost function SinceOpened(m: Plant, actions: seq<SimAction>, b: Budget, a: AgentId): nat {
    if actions == [] then 0 else
      var prior, act := actions[..|actions| - 1], actions[|actions| - 1];
      var s := SimAfter(m, prior);
      if Opens(m, s, act) then 0 else SinceOpened(m, prior, b, a) + if Granted(m, s, act, b, a) then 1 else 0
  }

  /** A committed close or a restart has cleared the counters since a tick last opened a window. */
  ghost predicate ClearedSince(m: Plant, actions: seq<SimAction>) {
    && actions != []
    && var prior, act := actions[..|actions| - 1], actions[|actions| - 1];
       var s := SimAfter(m, prior);
       !Opens(m, s, act) && (ClearsEarly(m, s, act) || ClearedSince(m, prior))
  }

  /** Grants after that opening and before the last such clearing. */
  ghost function BeforeCleared(m: Plant, actions: seq<SimAction>, b: Budget, a: AgentId): nat {
    if actions == [] then 0 else
      var prior, act := actions[..|actions| - 1], actions[|actions| - 1];
      var s := SimAfter(m, prior);
      if Opens(m, s, act) then 0
      else if ClearsEarly(m, s, act) then SinceOpened(m, prior, b, a)
      else BeforeCleared(m, prior, b, a)
  }

  lemma CloseClears(m: Plant, s: Sim, dbOk: bool, publishOk: bool, b: Budget, a: AgentId)
    ensures Used(CloseSim(m, s, dbOk, publishOk), b, a) == if CloseCommits(m, s, dbOk) then 0 else Used(s, b, a)
  {
  }

  lemma RestClears(m: Plant, s1: Sim, f: Outcomes, b: Budget, a: AgentId)
    ensures Used(TickRest(m, s1, f), b, a) ==
      if OpenNext(m.Cfg(), s1.reg, f.tickPublish).1 == Opened then 0 else Used(s1, b, a)
  {
    var r2 := OpenNext(m.Cfg(), s1.reg, f.tickPublish).0;
    CloseClears(m, Sim(r2, s1.world, map[], map[]), f.secondMatch, f.secondPublish, b, a);
  }

  lemma TickClears(m: Plant, s: Sim, f: Outcomes, b: Budget, a: AgentId)
    ensures Used(TickSim(m, s, f), b, a) ==
      if Opens(m, s, TickNow(f)) || ClearsEarly(m, s, TickNow(f)) then 0 else Used(s, b, a)
  {
    CloseClears(m, s, f.firstMatch, f.firstPublish, b, a);
    RestClears(m, CloseSim(m, s, f.firstMatch, f.firstPublish), f, b, a);
  }

  lemma StepCounts(m: Plant, s: Sim, act: SimAction, b: Budget, a: AgentId)
    ensures Used(SimStep(m, s, act), b, a) ==
      if Opens(m, s, act) || ClearsEarly(m, s, act) then 0
      else Used(s, b, a) + if Granted(m, s, act, b, a) then 1 else 0
    ensures Granted(m, s, act, b, a) ==> Used(s, b, a) < Limit(b)
  {
    if act.TickNow? {
      TickClears(m, s, act.outcomes, b, a);
    }
  }

  /** On every run a counter is what it granted since it was last cleared, and never more than the limit. */
  lemma {:induction false} CountersAreTrue(m: Plant, actions: seq<SimAction>, b: Budget, a: AgentId)
    ensures Used(SimAfter(m, actions), b, a) == SinceCleared(m, actions, b, a) <= Limit(b)
  {
    if actions != [] {
      var n := |actions| - 1;
      CountersAreTrue(m, actions[..n], b, a);
      StepCounts(m, SimAfter(m, actions[..n]), actions[n], b, a);
    }
  }

  lemma {:induction false} GrantsSplit(m: Plant, actions: seq<SimAction>, b: Budget, a: AgentId)
    ensures SinceOpened(m, actions, b, a) == BeforeCleared(m, actions, b, a) + SinceCleared(m, actions, b, a)
    ensures !ClearedSince(m, actions) ==> BeforeCleared(m, actions, b, a) == 0
  {
    if actions != [] {
      GrantsSplit(m, actions[..|actions| - 1], b, a);
    }
  }

  // ----- When the limit is exceeded -----

  /** A further grant would exceed the limit: the counter was cleared early, and forgot what it needed to refuse. */
  ghost predicate ForgotEnough(m: Plant, actions: seq<SimAction>, b: Budget, a: AgentId) {
    ClearedSince(m, actions) && BeforeCleared(m, actions, b, a) + Used(SimAfter(m, actions), b, a) >= Limit(b)
  }

  /**
   * A grant is one too many between two openings exactly when a committed close or a restart has cleared the counter
   * since the window was opened, and what was granted before that makes up the limit with what the counter shows.
   */
  lemma OverLimitExactly(m: Plant, actions: seq<SimAction>, act: SimAction, b: Budget, a: AgentId)
    requires Granted(m, SimAfter(m, actions), act, b, a)
    ensures SinceOpened(m, actions, b, a) >= Limit(b) <==> ForgotEnough(m, actions, b, a)
  {
    CountersAreTrue(m, actions, b, a);
    GrantsSplit(m, actions, b, a);
    StepCounts(m, SimAfter(m, actions), act, b, a);
  }

  ghost predicate WithinLimitThroughout(m: Plant, actions: seq<SimAction>, b: Budget, a: AgentId) {
    && (actions != [] ==> WithinLimitThroughout(m, actions[..|actions| - 1], b, a))
    && SinceOpened(m, actions, b, a) <= Limit(b)
  }

  /** No grant of the run finds a counter that has forgotten enough. */
  ghost predicate NoneForgotten(m: Plant, actions: seq<SimAction>, b: Budget, a: AgentId) {
    actions != [] ==>
      var prior := actions[..|actions| - 1];
      NoneForgotten(m, prior, b, a)
      && !(Granted(m, SimAfter(m, prior), actions[|actions| - 1], b, a) && ForgotEnough(m, prior, b, a))
  }

  /** All along a run no agent has more than the limit between two openings, exactly when no counter forgets. */
  lemma {:induction false} LimitHoldsExactly(m: Plant, actions: seq<SimAction>, b: Budget, a: AgentId)
    ensures WithinLimitThroughout(m, actions, b, a) <==> NoneForgotten(m, actions, b, a)
  {
    if actions != [] {
      var n := |actions| - 1;
      LimitHoldsExactly(m, actions[..n], b, a);
      if Granted(m, SimAfter(m, actions[..n]), actions[n], b, a) {
        OverLimitExactly(m, actions[..n], actions[n], b, a);
      }
    }
  }

  // ----- The orders themselves -----

  function OneOf(a: AgentId): Order -> int {
    (o: Order) => if o.agent == a then 1 else 0
  }

  ghost function Rows(orders: seq<Order>, a: AgentId): int {
    SumInt(orders, OneOf(a))
  }

  /** Every order of the agent stored so far. */
  ghost function Stored(m: Plant, actions: seq<SimAction>, a: AgentId): nat {
    if actions == [] then 0 else
      var prior := actions[..|actions| - 1];
      Stored(m, prior, a)
      + if Granted(m, SimAfter(m, prior), actions[|actions| - 1], OrderBudget, a) then 1 else 0
  }

  lemma {:induction false} SameAgentsSameRows(orders: seq<Order>, orders': seq<Order>, a: AgentId)
    requires |orders'| == |orders| && forall i :: 0 <= i < |orders| ==> orders'[i].agent == orders[i].agent
    ensures Rows(orders', a) == Rows(orders, a)
  {
    if orders != [] {
      var n := |orders| - 1;
      SameAgentsSameRows(orders[..n], orders'[..n], a);
    }
  }

  lemma {:induction false} MatchingKeepsAgents(w: World, v: View, i: nat)
    requires i <= |w.orders|
    ensures forall j :: 0 <= j < |w.orders| ==> MatchFrom(w, v, i).orders[j].agent == w.orders[j].agent
    decreases |w.orders| - i
  {
    if i < |w.orders| {
      Independence.AttemptKeepsAgent(w, v, w.orders[i]);
      MatchingKeepsAgents(MatchStep(w, v, i), v, i + 1);
    }
  }

  /** Only a placement adds a row, and no event moves one to another agent. */
  lemma EventKeepsRows(m: Setup, w: World, e: Event, a: AgentId)
    requires !e.Place?
    ensures Rows(Apply(m, w, e).orders, a) == Rows(w.orders, a)
  {
    if e.Match? {
      MatchingKeepsAgents(w, ViewAt(m, e.key), 0);
    }
    SameAgentsSameRows(w.orders, Apply(m, w, e).orders, a);
  }

  lemma {:induction false} EventsKeepRows(m: Setup, w: World, events: seq<Event>, a: AgentId)
    requires forall i :: 0 <= i < |events| ==> !events[i].Place?
    ensures Rows(Run(m, w, events).orders, a) == Rows(w.orders, a)
  {
    if events != [] {
      var n := |events| - 1;
      EventsKeepRows(m, w, events[..n], a);
      EventKeepsRows(m, Run(m, w, events[..n]), events[n], a);
    }
  }

  lemma SubmitStores(m: Plant, s: Sim, q: Request, dbOk: bool, a: AgentId)
    ensures Rows(PlaceSim(m, s, q, dbOk).0.world.orders, a) ==
      Rows(s.world.orders, a) + if Granted(m, s, Submit(q, dbOk), OrderBudget, a) then 1 else 0
  {
    if PlaceSim(m, s, q, dbOk).1 == Accepted {
      SumAppend(s.world.orders, BuildOrder(m, q, PlacementKey(m, s.reg).value), OneOf(a), (r: Order) => 0.0);
    }
  }

  lemma CloseEventsPlaceNone(m: Plant, s: Sim, dbOk: bool)
    ensures forall i :: 0 <= i < |CloseEvents(m, s, dbOk)| ==> !CloseEvents(m, s, dbOk)[i].Place?
  {
  }

  lemma RestEventsPlaceNone(m: Plant, s1: Sim, f: Outcomes)
    ensures forall i :: 0 <= i < |RestEvents(m, s1, f)| ==> !RestEvents(m, s1, f)[i].Place?
  {
    CloseEventsPlaceNone(m, Sim(OpenNext(m.Cfg(), s1.reg, f.tickPublish).0, s1.world, map[], map[]), f.secondMatch);
  }

  lemma OnlySubmitsPlace(m: Plant, s: Sim, act: SimAction)
    requires !act.Submit?
    ensures forall i :: 0 <= i < |StepEvents(m, s, act)| ==> !StepEvents(m, s, act)[i].Place?
  {
    match act
    case TickNow(f) =>
      CloseEventsPlaceNone(m, s, f.firstMatch);
      RestEventsPlaceNone(m, CloseSim(m, s, f.firstMatch, f.firstPublish), f);
    case CloseNow(dbOk, _) => CloseEventsPlaceNone(m, s, dbOk);
    case _ =>
  }

  lemma StepStores(m: Plant, s: Sim, act: SimAction, a: AgentId)
    ensures Rows(SimStep(m, s, act).world.orders, a) ==
      Rows(s.world.orders, a) + if Granted(m, s, act, OrderBudget, a) then 1 else 0
  {
    if act.Submit? {
      SubmitStores(m, s, act.request, act.dbOk, a);
    } else {
      StepIsRun(m, s, act);
      OnlySubmitsPlace(m, s, act);
      EventsKeepRows(m.Market(), s.world, StepEvents(m, s, act), a);
    }
  }

  /** The order table holds exactly the orders granted: the counted submissions are the stored rows. */
  lemma {:induction false} StoredIsTable(m: Plant, actions: seq<SimAction>, a: AgentId)
    ensures Stored(m, actions, a) == Rows(SimAfter(m, actions).world.orders, a)
  {
    if actions != [] {
      var n := |actions| - 1;
      StoredIsTable(m, actions[..n], a);
      StepStores(m, SimAfter(m, actions[..n]), actions[n], a);
    }
  }

  // ----- Twice the limit -----

  /** With this registry and these portfolios, the action is granted whenever the counter allows it. */
  ghost predicate Admits(m: Plant, r: Registry, accounts: map<AgentId, Account>, act: SimAction, b: Budget, a: AgentId)
  {
    match b
    case CallBudget => act == CallApi(a)
    case OrderBudget =>
      && act.Submit? && act.dbOk && act.request.agent == a
      && r.clock.Some? && r.clock.value.status != Completed
      && ValidOrder(m.history.listed, BuildOrder(m, act.request, 0))
      && (a in accounts ==> !accounts[a].disqualified)
      && PlacementKey(m, r).Some?
  }

  lemma AdmitsOnce(m: Plant, s: Sim, act: SimAction, b: Budget, a: AgentId)
    requires Admits(m, s.reg, s.world.accounts, act, b, a) && Used(s, b, a) < Limit(b)
    ensures Granted(m, s, act, b, a) && !Opens(m, s, act) && !ClearsEarly(m, s, act)
    ensures var s' := SimStep(m, s, act);
      s'.reg == s.reg && s'.world.accounts == s.world.accounts && Used(s', b, a) == Used(s, b, a) + 1
  {
  }

  lemma Extended(m: Plant, actions: seq<SimAction>, act: SimAction, b: Budget, a: AgentId)
    ensures var s := SimAfter(m, actions);
      && SimAfter(m, actions + [act]) == SimStep(m, s, act)
      && SinceOpened(m, actions + [act], b, a) ==
           if Opens(m, s, act) then 0
           else SinceOpened(m, actions, b, a) + if Granted(m, s, act, b, a) then 1 else 0
  {
    assert (actions + [act])[..|actions|] == actions;
  }

  function Times(act: SimAction, n: nat): seq<SimAction> {
    if n == 0 then [] else Times(act, n - 1) + [act]
  }

  /** A run that has reached this registry and these portfolios, with so much of the budget used and granted. */
  ghost predicate At(m: Plant, actions: seq<SimAction>, r: Registry, accounts: map<AgentId, Account>, b: Budget,
                     a: AgentId, used: nat, granted: nat) {
    var s := SimAfter(m, actions);
    s.reg == r && s.world.accounts == accounts && Used(s, b, a) == used && SinceOpened(m, actions, b, a) == granted
  }

  /** One more request, if the counter allows it. */
  lemma OneMoreTime(m: Plant, actions: seq<SimAction>, r: Registry, accounts: map<AgentId, Account>, act: SimAction,
                    b: Budget, a: AgentId, used: nat, granted: nat)
    requires At(m, actions, r, accounts, b, a, used, granted)
    requires Admits(m, r, accounts, act, b, a) && used < Limit(b)
    ensures At(m, actions + [act], r, accounts, b, a, used + 1, granted + 1)
  {
    AdmitsOnce(m, SimAfter(m, actions), act, b, a);
    Extended(m, actions, act, b, a);
  }

  /** The same request, as often as the counter allows. */
  lemma {:induction false} Repeated(m: Plant, actions: seq<SimAction>, r: Registry, accounts: map<AgentId, Account>,
                                    act: SimAction, n: nat, b: Budget, a: AgentId, used: nat, granted: nat)
    requires At(m, actions, r, accounts, b, a, used, granted)
    requires Admits(m, r, accounts, act, b, a) && used + n <= Limit(b)
    ensures At(m, actions + Times(act, n), r, accounts, b, a, used + n, granted + n)
    decreases n
  {
    if n == 0 {
      assert actions + Times(act, n) == actions;
    } else {
      OneMoreTime(m, actions, r, accounts, act, b, a, used, granted);
      Repeated(m, actions + [act], r, accounts, act, n - 1, b, a, used + 1, granted + 1);
      OnceMore(actions, act, n);
    }
  }

  lemma {:induction false} OnceMore(actions: seq<SimAction>, act: SimAction, n: nat)
    requires n > 0
    ensures actions + Times(act, n) == actions + [act] + Times(act, n - 1)
  {
    TimesAre(act, n);
    TimesAre(act, n - 1);
  }

  /** The plant of the other demonstrations, with windows of positive length. */
  const SLOW := DEMO_PLANT.(batch := false)
  const OPEN_WINDOW := DEMO_1.(windowOpen := true)

  function Again(b: Budget): SimAction {
    match b
    case OrderBudget => Submit(DEMO_REQUEST, true)
    case CallBudget => CallApi(7)
  }

  lemma SlowConfig()
    ensures SLOW.Cfg() == DEMO.(batch := false) && NextTradingDay(SLOW.history, 0) == Some(86400)
  {
    DemoDays();
    NextIsAdjacent(SLOW.history, 0);
  }

  /** Without portfolios a match always commits. */
  lemma NobodyToSettle(m: Plant, s: Sim)
    requires s.world.accounts == map[]
    ensures Attempt(m, s, true).1 && Attempt(m, s, true).0.accounts == map[]
  {
    var noted := RecordMissed(s.world, s.apiCalls, m.missedLimit);
    var v := ViewAt(m.Market(), s.reg.windowDate);
    assert noted.accounts == map[];
    assert MatchFrom(noted, v, 0).accounts == map[];
    assert ProcessSession(noted, v).value.accounts == map[];
  }

  lemma SlowStart() returns (actions: seq<SimAction>)
    ensures |actions| == 2 && actions[1].TickNow?
    ensures SimAfter(SLOW, actions) == Early(OPEN_WINDOW)
    ensures forall b :: SinceOpened(SLOW, actions, b, 7) == 0
  {
    SlowConfig();
    DemoFirstTick();
    var start := [StartNow(true)];
    assert start[..0] == [];
    assert SimAfter(SLOW, start) == Early(DEMO_1);
    actions := start + [TickNow(ALL_WELL)];
    assert OpenNext(SLOW.Cfg(), DEMO_1, true) == (OPEN_WINDOW, Opened);
    forall b {
      Extended(SLOW, start, TickNow(ALL_WELL), b, 7);
    }
  }

  lemma SlowClose(actions: seq<SimAction>, b: Budget)
    requires SimAfter(SLOW, actions).reg == OPEN_WINDOW && SimAfter(SLOW, actions).world.accounts == map[]
    ensures var s := SimAfter(SLOW, actions + [CloseNow(true, true)]);
      s.reg == DEMO_2 && s.world.accounts == map[] && Used(s, b, 7) == 0
    ensures SinceOpened(SLOW, actions + [CloseNow(true, true)], b, 7) == SinceOpened(SLOW, actions, b, 7)
  {
    SlowConfig();
    NobodyToSettle(SLOW, SimAfter(SLOW, actions));
    Extended(SLOW, actions, CloseNow(true, true), b, 7);
    assert [] + [0] == [0];
    assert CloseWindow(SLOW.Cfg(), OPEN_WINDOW, true, true).0 == DEMO_2;
  }

  lemma SlowAdmits(s: Sim, b: Budget)
    requires s.reg == OPEN_WINDOW || s.reg == DEMO_2
    requires s.world.accounts == map[]
    ensures Admits(SLOW, s.reg, s.world.accounts, Again(b), b, 7)
  {
    SlowConfig();
  }

  /** As many requests as the limit allows, from a cleared counter. */
  lemma FillUp(actions: seq<SimAction>, b: Budget) returns (longer: seq<SimAction>)
    requires SimAfter(SLOW, actions).reg == OPEN_WINDOW || SimAfter(SLOW, actions).reg == DEMO_2
    requires SimAfter(SLOW, actions).world.accounts == map[] && Used(SimAfter(SLOW, actions), b, 7) == 0
    ensures longer == actions + Times(Again(b), Limit(b))
    ensures SimAfter(SLOW, longer).reg == SimAfter(SLOW, actions).reg && SimAfter(SLOW, longer).world.accounts == map[]
    ensures SinceOpened(SLOW, longer, b, 7) == SinceOpened(SLOW, actions, b, 7) + Limit(b)
  {
    SlowAdmits(SimAfter(SLOW, actions), b);
    var s := SimAfter(SLOW, actions);
    Repeated(SLOW, actions, s.reg, s.world.accounts, Again(b), Limit(b), b, 7, 0, SinceOpened(SLOW, actions, b, 7));
    longer := actions + Times(Again(b), Limit(b));
  }

  /** What is granted since the last opening is stored. */
  lemma {:induction false} GrantedIsStored(m: Plant, actions: seq<SimAction>, a: AgentId)
    ensures SinceOpened(m, actions, OrderBudget, a) <= Stored(m, actions, a)
  {
    if actions != [] {
      GrantedIsStored(m, actions[..|actions| - 1], a);
    }
  }

  /**
   * Start, one tick, as many requests as the limit allows, a committed close, and as many again: twice the limit is
   * granted, and twenty orders are in the table, with no second tick.
   */
  lemma TwiceTheLimit(b: Budget) returns (actions: seq<SimAction>)
    ensures SinceOpened(SLOW, actions, b, 7) == 2 * Limit(b)
    ensures b == OrderBudget ==> Rows(SimAfter(SLOW, actions).world.orders, 7) >= 20
    ensures forall i :: 2 <= i < |actions| ==> actions[i] == Again(b) || actions[i] == CloseNow(true, true)
  {
    var opening := SlowStart();
    var full := FillUp(opening, b);
    SlowClose(full, b);
    var closed := full + [CloseNow(true, true)];
    actions := FillUp(closed, b);
    OneTick(opening, full, closed, actions, b);
    if b == OrderBudget {
      GrantedIsStored(SLOW, actions, 7);
      StoredIsTable(SLOW, actions, 7);
    }
  }

  lemma OneTick(opening: seq<SimAction>, full: seq<SimAction>, closed: seq<SimAction>, all: seq<SimAction>, b: Budget)
    requires |opening| == 2 && full == opening + Times(Again(b), Limit(b))
    requires closed == full + [CloseNow(true, true)] && all == closed + Times(Again(b), Limit(b))
    ensures forall i :: 2 <= i < |all| ==> all[i] == Again(b) || all[i] == CloseNow(true, true)
  {
    TimesAre(Again(b), Limit(b));
  }

  lemma {:induction false} TimesAre(act: SimAction, n: nat)
    ensures |Times(act, n)| == n && forall i :: 0 <= i < n ==> Times(act, n)[i] == act
  {
    if n > 0 {
      TimesAre(act, n - 1);
    }
  }
}
