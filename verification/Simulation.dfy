/** The registry and the matching engine together: one simulation as a state machine. */
module Simulation {
  import opened Common
  import opened Calendar
  import opened Market
  import opened Rules
  import opened Ledger
  import opened Tape
  import opened Matching
  import opened Books
  import opened Runs
  import opened Clock
  import opened SessionOrder
  import opened Schedule

  const MAX_ORDERS_PER_TICK := 10
  const MAX_API_CALLS_PER_TICK := 100

  /** Fixed for a run. */
  datatype Plant = Plant(
    history: History, hourly: bool, rate: real, start: Time, end: Time, interval: nat, batch: bool, missedLimit: int)
  {
    function Cfg(): Config {
      ConfigOf(history, hourly, start, end, interval, batch)
    }

    function Market(): Setup {
      Setup(history, hourly, rate)
    }

    ghost predicate Valid() {
      WellFormed(history) && IsDate(start) && IsDate(end) && interval >= 1
    }
  }

  /** Registry, tables, and the counters the registry keeps between ticks. */
  datatype Sim = Sim(reg: Registry, world: World, apiCalls: map<AgentId, nat>, orderCounts: map<AgentId, nat>)

  const NEW_SIM := Sim(NEW_REGISTRY, EMPTY_WORLD, map[], map[])

  // ----- Ticks -----

  /** One call of the matcher: silence is recorded first and survives a failed match. */
  ghost function Attempt(m: Plant, s: Sim, dbOk: bool): (World, bool) {
    var noted := RecordMissed(s.world, s.apiCalls, m.missedLimit);
    match ProcessSession(noted, ViewAt(m.Market(), s.reg.windowDate))
    case Some(w) => if dbOk then (w, true) else (noted, false)
    case None => (noted, false)
  }

  ghost function CloseSim(m: Plant, s: Sim, dbOk: bool, publishOk: bool): Sim {
    if !s.reg.windowOpen then s else
      var (w, ok) := Attempt(m, s, dbOk);
      Sim(CloseWindow(m.Cfg(), s.reg, ok, publishOk).0, w,
          if ok then map[] else s.apiCalls, if ok then map[] else s.orderCounts)
  }

  ghost predicate CloseFails(m: Plant, s: Sim, dbOk: bool, publishOk: bool) {
    CloseWindow(m.Cfg(), s.reg, Attempt(m, s, dbOk).1, publishOk).1.Some?
  }

  /** A tick from the moment no window is open. */
  ghost function TickRest(m: Plant, s1: Sim, f: Outcomes): Sim {
    var (r2, result) := OpenNext(m.Cfg(), s1.reg, f.tickPublish);
    if result != Opened then s1.(reg := r2) else
      var s2 := Sim(r2, s1.world, map[], map[]);
      if !m.batch then s2 else
        var s3 := CloseSim(m, s2, f.secondMatch, f.secondPublish);
        if CloseFails(m, s2, f.secondMatch, f.secondPublish)
        then s3.(reg := Restore(s3.reg, s1.reg.clock.value)) else s3
  }

  ghost function TickSim(m: Plant, s: Sim, f: Outcomes): Sim {
    var s1 := CloseSim(m, s, f.firstMatch, f.firstPublish);
    if CloseFails(m, s, f.firstMatch, f.firstPublish) then s1 else TickRest(m, s1, f)
  }

  /** The outcomes the registry sees once the matcher's own verdicts are in. */
  ghost function Verdicts(m: Plant, s: Sim, f: Outcomes): Outcomes {
    var s1 := CloseSim(m, s, f.firstMatch, f.firstPublish);
    var s2 := Sim(OpenNext(m.Cfg(), s1.reg, f.tickPublish).0, s1.world, map[], map[]);
    f.(firstMatch := Attempt(m, s, f.firstMatch).1, secondMatch := Attempt(m, s2, f.secondMatch).1)
  }

  ghost predicate RestFails(m: Plant, s1: Sim, f: Outcomes) {
    var (r2, result) := OpenNext(m.Cfg(), s1.reg, f.tickPublish);
    result.Failed?
    || (result == Opened && m.batch
        && CloseFails(m, Sim(r2, s1.world, map[], map[]), f.secondMatch, f.secondPublish))
  }

  /** The tick returns an error: closing a window failed, or the clock could not be moved. */
  ghost predicate TickFails(m: Plant, s: Sim, f: Outcomes) {
    CloseFails(m, s, f.firstMatch, f.firstPublish)
    || RestFails(m, CloseSim(m, s, f.firstMatch, f.firstPublish), f)
  }

  lemma CloseRefinesRegistry(m: Plant, s: Sim, dbOk: bool, publishOk: bool)
    ensures CloseSim(m, s, dbOk, publishOk).reg == CloseWindow(m.Cfg(), s.reg, Attempt(m, s, dbOk).1, publishOk).0
  {
  }

  /** The registry part of a tick from the moment no window is open. */
  lemma RestStages(m: Plant, s1: Sim, f: Outcomes)
    ensures var (r2, result) := OpenNext(m.Cfg(), s1.reg, f.tickPublish);
      var ok := Attempt(m, Sim(r2, s1.world, map[], map[]), f.secondMatch).1;
      var (r3, e3) := CloseWindow(m.Cfg(), r2, ok, f.secondPublish);
      TickRest(m, s1, f).reg ==
        if result != Opened || !m.batch then r2
        else if e3.Some? then Restore(r3, s1.reg.clock.value)
        else r3
  {
    var r2 := OpenNext(m.Cfg(), s1.reg, f.tickPublish).0;
    CloseRefinesRegistry(m, Sim(r2, s1.world, map[], map[]), f.secondMatch, f.secondPublish);
  }

  /** The registry part of a tick, stage by stage. */
  lemma TickStages(m: Plant, s: Sim, f: Outcomes)
    ensures var g := Verdicts(m, s, f);
      var (r1, e1) := CloseWindow(m.Cfg(), s.reg, g.firstMatch, g.firstPublish);
      var (r2, result) := OpenNext(m.Cfg(), r1, g.tickPublish);
      var (r3, e3) := CloseWindow(m.Cfg(), r2, g.secondMatch, g.secondPublish);
      TickSim(m, s, f).reg ==
        if e1.Some? then r1
        else if result != Opened || !m.batch then r2
        else if e3.Some? then Restore(r3, r1.clock.value)
        else r3
  {
    CloseRefinesRegistry(m, s, f.firstMatch, f.firstPublish);
    RestStages(m, CloseSim(m, s, f.firstMatch, f.firstPublish), f);
  }

  /** A simulation's tick is the registry's own tick, with the matcher's verdicts for its outcomes. */
  lemma TickRefinesRegistry(m: Plant, s: Sim, f: Outcomes)
    ensures TickSim(m, s, f).reg == Tick(m.Cfg(), s.reg, Verdicts(m, s, f)).0
  {
    TickStages(m, s, f);
  }

  // ----- Requests -----

  datatype Request = Request(
    agent: AgentId, symbol: Symbol, otype: OrderType, side: Side, quantity: int, price: Option<real>)

  datatype PlaceResult = Accepted | Declined | TooMany | NoNextSession | NotPersisted

  function NextSession(m: Plant, date: Time): Option<Time> {
    if m.hourly then NextBar(m.history, date) else NextTradingDay(m.history, TruncateDay(date))
  }

  /** The match key PlaceOrder chooses: the current session if it has still to match, else the next one. */
  function PlacementKey(m: Plant, r: Registry): Option<Time>
    requires r.clock.Some?
  {
    var date := r.clock.value.date;
    if OrderFillsOnCurrentDate(m.Cfg(), r) then Some(if m.hourly then date else TruncateDay(date))
    else NextSession(m, date)
  }

  function BuildOrder(m: Plant, q: Request, key: Time): Order {
    if m.hourly
    then NewOrder(q.agent, q.symbol, q.otype, q.side, q.quantity, q.price, SessionCalendarUTC(key), Some(key))
    else NewOrder(q.agent, q.symbol, q.otype, q.side, q.quantity, q.price, key, None)
  }

  /** PlaceOrder, as one atomic step; a slot taken for an order that is not stored is given back. */
  ghost function PlaceSim(m: Plant, s: Sim, q: Request, dbOk: bool): (Sim, PlaceResult) {
    if s.reg.clock.None? || s.reg.clock.value.status == Completed then (s, Declined)
    else if !ValidOrder(m.history.listed, BuildOrder(m, q, 0)) then (s, Declined)
    else if q.agent in s.world.accounts && s.world.accounts[q.agent].disqualified then (s, Declined)
    else if CountOf(s.orderCounts, q.agent) >= MAX_ORDERS_PER_TICK then (s, TooMany)
    else
      match PlacementKey(m, s.reg)
      case None => (s, NoNextSession)
      case Some(key) =>
        if !dbOk then (s, NotPersisted) else
          (s.(world := s.world.(orders := s.world.orders + [BuildOrder(m, q, key)]),
              orderCounts := s.orderCounts[q.agent := CountOf(s.orderCounts, q.agent) + 1]), Accepted)
  }

  datatype SimAction =
    | StartNow(publishOk: bool)
    | PauseNow
    | TickNow(outcomes: Outcomes)
    | CloseNow(dbOk: bool, publishOk: bool)
    | ProceedNow(publishOk: bool)
    | Restart
    | Submit(request: Request, dbOk: bool)
    | CallApi(caller: AgentId)
    | Withdraw(rank: nat)
    | Register(agent: AgentId)

  ghost function SimStep(m: Plant, s: Sim, a: SimAction): Sim {
    match a
    case StartNow(ok) => s.(reg := Start(m.Cfg(), s.reg, ok).0)
    case PauseNow => s.(reg := Pause(m.Cfg(), s.reg).0)
    case TickNow(f) => TickSim(m, s, f)
    case CloseNow(dbOk, ok) => CloseSim(m, s, dbOk, ok)
    case ProceedNow(ok) => s.(reg := Proceed(m.Cfg(), s.reg, ok).0)
    case Restart => Sim(Crash(s.reg), s.world, map[], map[])
    case Submit(q, dbOk) => PlaceSim(m, s, q, dbOk).0
    case CallApi(a) =>
      if CountOf(s.apiCalls, a) >= MAX_API_CALLS_PER_TICK then s
      else s.(apiCalls := s.apiCalls[a := CountOf(s.apiCalls, a) + 1])
    case Withdraw(i) => s.(world := Apply(m.Market(), s.world, Cancel(i)))
    case Register(a) => s.(world := Apply(m.Market(), s.world, Join(a, m.start)))
  }

  ghost function SimAfter(m: Plant, actions: seq<SimAction>): Sim {
    if actions == [] then NEW_SIM
    else SimStep(m, SimAfter(m, actions[..|actions| - 1]), actions[|actions| - 1])
  }

  // ----- The registry inside the simulation -----

  /** The registry action a simulation step performs, with the matcher's verdicts filled in. */
  ghost function ActionOf(m: Plant, s: Sim, a: SimAction): Option<Action> {
    match a
    case StartNow(ok) => Some(DoStart(ok))
    case PauseNow => Some(DoPause)
    case TickNow(f) => Some(DoTick(Verdicts(m, s, f)))
    case CloseNow(dbOk, ok) => Some(DoCloseWindow(Attempt(m, s, dbOk).1, ok))
    case ProceedNow(ok) => Some(DoProceed(ok))
    case Restart => Some(DoCrash)
    case _ => None
  }

  lemma StepRefinesRegistry(m: Plant, s: Sim, a: SimAction)
    ensures SimStep(m, s, a).reg ==
      match ActionOf(m, s, a)
      case Some(b) => Step(m.Cfg(), s.reg, b)
      case None => s.reg
  {
    match a
    case TickNow(f) => TickRefinesRegistry(m, s, f);
    case CloseNow(dbOk, ok) => CloseRefinesRegistry(m, s, dbOk, ok);
    case _ =>
  }

  /** The registry's own run inside a run of the simulation. */
  ghost function RegActions(m: Plant, actions: seq<SimAction>): seq<Action> {
    if actions == [] then [] else
      var n := |actions| - 1;
      match ActionOf(m, SimAfter(m, actions[..n]), actions[n])
      case Some(b) => RegActions(m, actions[..n]) + [b]
      case None => RegActions(m, actions[..n])
  }

  /** The registry of a simulation is always where its own run leads, so all that holds of registry runs holds here. */
  lemma {:induction false} RunRefinesRegistry(m: Plant, actions: seq<SimAction>)
    ensures SimAfter(m, actions).reg == After(m.Cfg(), RegActions(m, actions))
  {
    if actions != [] {
      var n := |actions| - 1;
      RunRefinesRegistry(m, actions[..n]);
      var s := SimAfter(m, actions[..n]);
      StepRefinesRegistry(m, s, actions[n]);
      match ActionOf(m, s, actions[n])
      case Some(b) =>
        var done := RegActions(m, actions[..n]);
        assert (done + [b])[..|done|] == done;
      case None =>
    }
  }

  // ----- The tables inside the simulation -----

  /** What closing a window does to the tables: silence is recorded, and the session is tried if the database is up. */
  ghost function CloseEvents(m: Plant, s: Sim, dbOk: bool): seq<Event> {
    if !s.reg.windowOpen then []
    else [RecordMissedTicks(s.apiCalls, m.missedLimit)] + if dbOk then [Match(s.reg.windowDate)] else []
  }

  ghost function RestEvents(m: Plant, s1: Sim, f: Outcomes): seq<Event> {
    var (r2, result) := OpenNext(m.Cfg(), s1.reg, f.tickPublish);
    if result == Opened && m.batch then CloseEvents(m, Sim(r2, s1.world, map[], map[]), f.secondMatch) else []
  }

  ghost function StepEvents(m: Plant, s: Sim, a: SimAction): seq<Event> {
    match a
    case TickNow(f) =>
      CloseEvents(m, s, f.firstMatch)
      + if CloseFails(m, s, f.firstMatch, f.firstPublish) then []
        else RestEvents(m, CloseSim(m, s, f.firstMatch, f.firstPublish), f)
    case CloseNow(dbOk, _) => CloseEvents(m, s, dbOk)
    case Submit(q, dbOk) =>
      if PlaceSim(m, s, q, dbOk).1 == Accepted then [Place(BuildOrder(m, q, PlacementKey(m, s.reg).value))] else []
    case Withdraw(i) => [Cancel(i)]
    case Register(a) => [Join(a, m.start)]
    case _ => []
  }

  /** The run of the tables inside a run of the simulation. */
  ghost function EventsOf(m: Plant, actions: seq<SimAction>): seq<Event> {
    if actions == [] then [] else
      var n := |actions| - 1;
      EventsOf(m, actions[..n]) + StepEvents(m, SimAfter(m, actions[..n]), actions[n])
  }

  lemma CloseIsRun(m: Plant, s: Sim, dbOk: bool, publishOk: bool)
    ensures CloseSim(m, s, dbOk, publishOk).world == Run(m.Market(), s.world, CloseEvents(m, s, dbOk))
  {
    if s.reg.windowOpen {
      var noted := RecordMissed(s.world, s.apiCalls, m.missedLimit);
      RunOne(m.Market(), s.world, RecordMissedTicks(s.apiCalls, m.missedLimit));
      RunOne(m.Market(), noted, Match(s.reg.windowDate));
      RunsCompose(m.Market(), s.world, [RecordMissedTicks(s.apiCalls, m.missedLimit)], [Match(s.reg.windowDate)]);
    }
  }

  lemma RestIsRun(m: Plant, s1: Sim, f: Outcomes)
    ensures TickRest(m, s1, f).world == Run(m.Market(), s1.world, RestEvents(m, s1, f))
  {
    var r2 := OpenNext(m.Cfg(), s1.reg, f.tickPublish).0;
    CloseIsRun(m, Sim(r2, s1.world, map[], map[]), f.secondMatch, f.secondPublish);
  }

  lemma TickIsRun(m: Plant, s: Sim, f: Outcomes)
    ensures TickSim(m, s, f).world == Run(m.Market(), s.world, StepEvents(m, s, TickNow(f)))
  {
    var s1 := CloseSim(m, s, f.firstMatch, f.firstPublish);
    CloseIsRun(m, s, f.firstMatch, f.firstPublish);
    RestIsRun(m, s1, f);
    RunsCompose(m.Market(), s.world, CloseEvents(m, s, f.firstMatch), RestEvents(m, s1, f));
    assert CloseEvents(m, s, f.firstMatch) + [] == CloseEvents(m, s, f.firstMatch);
  }

  lemma SubmitIsRun(m: Plant, s: Sim, q: Request, dbOk: bool)
    ensures PlaceSim(m, s, q, dbOk).0.world == Run(m.Market(), s.world, StepEvents(m, s, Submit(q, dbOk)))
  {
    if PlaceSim(m, s, q, dbOk).1 == Accepted {
      RunOne(m.Market(), s.world, Place(BuildOrder(m, q, PlacementKey(m, s.reg).value)));
    }
  }

  lemma StepIsRun(m: Plant, s: Sim, a: SimAction)
    ensures SimStep(m, s, a).world == Run(m.Market(), s.world, StepEvents(m, s, a))
  {
    match a
    case TickNow(f) => TickIsRun(m, s, f);
    case CloseNow(dbOk, ok) => CloseIsRun(m, s, dbOk, ok);
    case Submit(q, dbOk) => SubmitIsRun(m, s, q, dbOk);
    case Withdraw(i) => RunOne(m.Market(), s.world, Cancel(i));
    case Register(a) => RunOne(m.Market(), s.world, Join(a, m.start));
    case _ =>
  }

  /**
   * The tables of a simulation are always where their own run leads, so all that holds of every run of the tables
   * (cash, shares, disqualification, halts, participation, tax splits, independence, no look-ahead) holds here.
   */
  lemma {:induction false} WorldIsRun(m: Plant, actions: seq<SimAction>)
    ensures SimAfter(m, actions).world == Run(m.Market(), EMPTY_WORLD, EventsOf(m, actions))
  {
    if actions != [] {
      var n := |actions| - 1;
      var s := SimAfter(m, actions[..n]);
      WorldIsRun(m, actions[..n]);
      StepIsRun(m, s, actions[n]);
      RunsCompose(m.Market(), EMPTY_WORLD, EventsOf(m, actions[..n]), StepEvents(m, s, actions[n]));
    }
  }

  /** Cash, shares, rows and solvency survive every run of the whole simulation, lost checkpoints included. */
  lemma BooksBalanceThroughout(m: Plant, actions: seq<SimAction>)
    requires WellFormed(m.history)
    ensures WorldInv(SimAfter(m, actions).world, m.hourly)
  {
    WorldIsRun(m, actions);
    BooksBalance(m.Market(), EventsOf(m, actions));
  }

  // ----- Zero-length windows and silence -----

  lemma {:induction false} MatchingKeepsStanding(w: World, v: View, i: nat, a: AgentId)
    requires i <= |w.orders| && a in w.accounts
    ensures var acc := MatchFrom(w, v, i).accounts[a];
      acc.missedTicks == w.accounts[a].missedTicks && acc.disqualified == w.accounts[a].disqualified
    decreases |w.orders| - i
  {
    if i < |w.orders| {
      MatchingKeepsStanding(MatchStep(w, v, i), v, i + 1, a);
    }
  }

  /** A matcher call charges a missed tick to every active agent without a counted call. */
  lemma AttemptCharges(m: Plant, s: Sim, dbOk: bool, a: AgentId)
    requires a in s.world.accounts && !s.world.accounts[a].disqualified
    ensures a in Attempt(m, s, dbOk).0.accounts
    ensures CountOf(s.apiCalls, a) == 0 ==> Charged(m, s.world.accounts[a], Attempt(m, s, dbOk).0.accounts[a])
    ensures CountOf(s.apiCalls, a) > 0 ==> Attempt(m, s, dbOk).0.accounts[a].missedTicks == 0
  {
    var noted := RecordMissed(s.world, s.apiCalls, m.missedLimit);
    var v := ViewAt(m.Market(), s.reg.windowDate);
    assert CountOf(s.apiCalls, a) == 0 ==> Charged(m, s.world.accounts[a], noted.accounts[a]);
    MatchingKeepsStanding(noted, v, 0, a);
    var matched := MatchFrom(noted, v, 0);
    if ProcessSession(noted, v).Some? && v.ClosesSession() {
      assert ProcessSession(noted, v).value.accounts[a] == CloseAccount(matched.accounts[a], v);
    }
  }

  predicate Charged(m: Plant, acc: Account, acc': Account) {
    acc'.missedTicks == acc.missedTicks + 1 && (acc'.missedTicks >= m.missedLimit ==> acc'.disqualified)
  }

  /**
   * With a zero-length window the tick clears the call counters before it closes the window it just opened, so every
   * active agent is charged a missed tick whatever calls it made.
   */
  lemma ZeroWindowIgnoresCalls(m: Plant, s: Sim, f: Outcomes, a: AgentId)
    requires m.batch && !s.reg.windowOpen && OpenNext(m.Cfg(), s.reg, f.tickPublish).1 == Opened
    requires a in s.world.accounts && !s.world.accounts[a].disqualified
    ensures a in TickSim(m, s, f).world.accounts
    ensures Charged(m, s.world.accounts[a], TickSim(m, s, f).world.accounts[a])
  {
    var s2 := Sim(OpenNext(m.Cfg(), s.reg, f.tickPublish).0, s.world, map[], map[]);
    AttemptCharges(m, s2, f.secondMatch, a);
    assert s2.reg.windowOpen;
    assert CloseSim(m, s, f.firstMatch, f.firstPublish) == s;
    assert TickSim(m, s, f).world == CloseSim(m, s2, f.secondMatch, f.secondPublish).world;
  }

  /** A window of positive length counts: closing it charges an active agent exactly when it made no call. */
  lemma OpenWindowCountsCalls(m: Plant, s: Sim, f: Outcomes, a: AgentId)
    requires !m.batch && s.reg.windowOpen
    requires a in s.world.accounts && !s.world.accounts[a].disqualified
    ensures a in TickSim(m, s, f).world.accounts
    ensures Charged(m, s.world.accounts[a], TickSim(m, s, f).world.accounts[a]) <==> CountOf(s.apiCalls, a) == 0
  {
    AttemptCharges(m, s, f.firstMatch, a);
    assert TickSim(m, s, f).world == Attempt(m, s, f.firstMatch).0;
  }
}
