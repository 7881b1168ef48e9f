/** Whole runs of the ledger: the books balance after any sequence of events. */
module Runs {
  import opened Common
  import opened Market
  import opened Rules
  import opened Ledger
  import opened Tape
  import opened Matching
  import opened Books

  // ----- One session -----

  lemma RowReplaced(w: World, i: nat, o': Order, a: AgentId)
    requires i < |w.orders| && o'.SameTerms(w.orders[i])
    ensures var rows := w.orders[i := o'];
      && SumReal(rows, FlowOf(a)) == SumReal(w.orders, FlowOf(a))
           + (if a == o'.agent then Flow(o') - Flow(w.orders[i]) else 0.0)
      && forall s :: SumInt(rows, SharesOf(a, s)) == SumInt(w.orders, SharesOf(a, s))
           + (if a == o'.agent && s == o'.symbol then Shares(o') - Shares(w.orders[i]) else 0)
  {
    SumRealUpdate(w.orders, i, o', FlowOf(a));
    forall s
      ensures SumInt(w.orders[i := o'], SharesOf(a, s)) == SumInt(w.orders, SharesOf(a, s))
        + (if a == o'.agent && s == o'.symbol then Shares(o') - Shares(w.orders[i]) else 0)
    {
      SumIntUpdate(w.orders, i, o', SharesOf(a, s));
    }
  }

  lemma RowKept(w: World, hourly: bool, i: nat, o': Order)
    requires WorldInv(w, hourly) && i < |w.orders|
    requires OrderInv(o') && Untraded(w.orders[i], o') && (!hourly ==> AllOrNothing(o'))
    ensures WorldInv(w.(orders := w.orders[i := o']), hourly)
  {
    forall a | a in w.accounts
      ensures Reconciled(w.orders[i := o'], a, w.accounts[a])
    {
      RowReplaced(w, i, o', a);
    }
  }

  lemma RowTraded(w: World, hourly: bool, i: nat, o': Order, acc: Account)
    requires WorldInv(w, hourly) && i < |w.orders| && w.orders[i].agent in w.accounts
    requires TradeEffect(w.orders[i], o', w.accounts[w.orders[i].agent], acc) && (!hourly ==> AllOrNothing(o'))
    ensures WorldInv(World(w.orders[i := o'], w.accounts[o'.agent := acc]), hourly)
  {
    var w' := World(w.orders[i := o'], w.accounts[o'.agent := acc]);
    forall a | a in w'.accounts
      ensures Solvent(w'.accounts[a]) && Reconciled(w'.orders, a, w'.accounts[a])
    {
      RowReplaced(w, i, o', a);
    }
  }

  /** What one attempt can do to its row and account. */
  lemma AttemptEffect(w: World, v: View, i: nat)
    requires WorldInv(w, v.hourly) && v.Sound() && i < |w.orders| && w.orders[i].IsPending()
    ensures match TryFill(w, v, w.orders[i])
      case Traded(o', acc) =>
        && w.orders[i].agent in w.accounts && !w.accounts[w.orders[i].agent].disqualified
        && TradeEffect(w.orders[i], o', w.accounts[w.orders[i].agent], acc) && (!v.hourly ==> AllOrNothing(o'))
      case _ => true
  {
    var o := w.orders[i];
    var out := TryFill(w, v, o);
    if out.Traded? {
      PlanFacts(v, o);
      var acc, p := w.accounts[o.agent], PlanFor(v, o);
      if o.side == Buy {
        FillBuyEffect(acc, v, o, p);
      } else {
        FillSellEffect(acc, v, o, p, FilledBuyQtyOnSession(w.orders, o.agent, o.symbol, v.day));
      }
      assert !v.hourly ==> AllOrNothing(out.order);
    }
  }

  lemma MatchStepKeepsBooks(w: World, v: View, i: nat)
    requires WorldInv(w, v.hourly) && v.Sound() && i < |w.orders|
    ensures WorldInv(MatchStep(w, v, i), v.hourly)
  {
    if Due(v, w.orders[i]) {
      var o := w.orders[i];
      AttemptEffect(w, v, i);
      match TryFill(w, v, o)
      case Refused(reason) =>
        RejectionKeepsRow(o, reason);
        RowKept(w, v.hourly, i, MarkRejected(o, reason));
      case Held =>
        PostponeKeepsRow(v, o);
        RowKept(w, v.hourly, i, Postpone(v, o));
      case Traded(o', acc) =>
        RowTraded(w, v.hourly, i, o', acc);
    }
  }

  lemma {:induction false} MatchFromKeepsBooks(w: World, v: View, i: nat)
    requires WorldInv(w, v.hourly) && v.Sound() && i <= |w.orders|
    ensures WorldInv(MatchFrom(w, v, i), v.hourly)
    decreases |w.orders| - i
  {
    if i < |w.orders| {
      MatchStepKeepsBooks(w, v, i);
      MatchFromKeepsBooks(MatchStep(w, v, i), v, i + 1);
    }
  }

  /** A solvent account is worth something at positive closes, so closing a session never disqualifies it. */
  lemma SolventAccountsSurvive(acc: Account, v: View)
    requires Solvent(acc) && v.Sound() && Markable(acc, v)
    ensures var c := CloseAccount(acc, v);
      && c.disqualified == acc.disqualified && c.cash == acc.cash && c.holdings == acc.holdings
      && (!acc.disqualified ==> c.snapshots[v.day].total > 0.0)
  {
    if !acc.disqualified {
      MarkedValueSign(acc.holdings, v.marks);
    }
  }

  lemma SessionKeepsBooks(w: World, v: View)
    requires WorldInv(w, v.hourly) && v.Sound() && ProcessSession(w, v).Some?
    ensures WorldInv(ProcessSession(w, v).value, v.hourly)
  {
    MatchFromKeepsBooks(w, v, 0);
    var m := MatchFrom(w, v, 0);
    if v.ClosesSession() {
      forall a | a in m.accounts
        ensures Solvent(CloseAccount(m.accounts[a], v)) && Reconciled(m.orders, a, CloseAccount(m.accounts[a], v))
      {
        SolventAccountsSurvive(m.accounts[a], v);
      }
    }
  }

  // ----- Runs -----

  /** Everything that can touch the tables. A Match event names a trade date or, hourly, a bar. */
  datatype Event =
    | Join(agent: AgentId, startDate: Time)
    | Place(order: Order)
    | Cancel(rank: nat)
    | RecordMissedTicks(calls: map<AgentId, nat>, limit: int)
    | Match(key: Time)

  datatype Setup = Setup(history: History, hourly: bool, rate: real)

  ghost function ViewAt(m: Setup, key: Time): View {
    if m.hourly then HourView(m.history, key, m.rate) else DayView(m.history, key)
  }

  lemma ViewsAreSound(m: Setup, key: Time)
    requires WellFormed(m.history)
    ensures ViewAt(m, key).Sound() && ViewAt(m, key).hourly == m.hourly
  {
    if m.hourly {
      HourViewIsSound(m.history, key, m.rate);
    } else {
      DayViewIsSound(m.history, key);
    }
  }

  const MAX_ORDER_QUANTITY := 1000000

  /** validation.Order, on a freshly built row. */
  predicate ValidOrder(listed: set<Symbol>, o: Order) {
    && o.symbol in listed && o.otype != OtherType && o.side != OtherSide
    && (o.otype != MarketOrder ==> o.price.Some? && o.price.value > 0.0)
    && 0 < o.quantity <= MAX_ORDER_QUANTITY
    && o == NewOrder(o.agent, o.symbol, o.otype, o.side, o.quantity, o.price, o.matchDate, o.matchTs)
  }

  /** One agent's silence or activity in a tick: internal/portfolio/dq.go and recordMissedTicks. */
  function RecordMissedTick(acc: Account, calls: nat, limit: int): Account {
    if acc.disqualified then acc
    else if calls > 0 then acc.(missedTicks := 0)
    else acc.(missedTicks := acc.missedTicks + 1, disqualified := acc.missedTicks + 1 >= limit)
  }

  function CountOf(counts: map<AgentId, nat>, a: AgentId): nat {
    if a in counts then counts[a] else 0
  }

  function RecordMissed(w: World, calls: map<AgentId, nat>, limit: int): World {
    w.(accounts := map a | a in w.accounts ::
                     RecordMissedTick(w.accounts[a], CountOf(calls, a), limit))
  }

  /** A failed match leaves the tables alone; a refused request does too. */
  ghost function Apply(m: Setup, w: World, e: Event): World {
    match e
    case Join(a, startDate) =>
      if a in w.accounts then w else w.(accounts := w.accounts[a := OpenAccount(startDate)])
    case Place(o) =>
      if !ValidOrder(m.history.listed, o) || (o.agent in w.accounts && w.accounts[o.agent].disqualified) then w
      else w.(orders := w.orders + [o])
    case Cancel(i) =>
      if i < |w.orders| then w.(orders := w.orders[i := CancelPending(w.orders[i])]) else w
    case RecordMissedTicks(calls, limit) => RecordMissed(w, calls, limit)
    case Match(key) =>
      match ProcessSession(w, ViewAt(m, key))
      case Some(w') => w'
      case None => w
  }

  ghost function Run(m: Setup, w: World, events: seq<Event>): World {
    if events == [] then w
    else Apply(m, Run(m, w, events[..|events| - 1]), events[|events| - 1])
  }

  const EMPTY_WORLD := World([], map[])

  lemma {:induction false} RunsCompose(m: Setup, w: World, events: seq<Event>, more: seq<Event>)
    ensures Run(m, w, events + more) == Run(m, Run(m, w, events), more)
  {
    if more == [] {
      assert events + more == events;
    } else {
      var n := |more| - 1;
      RunsCompose(m, w, events, more[..n]);
      assert (events + more)[..|events| + n] == events + more[..n];
    }
  }

  lemma RunOne(m: Setup, w: World, e: Event)
    ensures Run(m, w, [e]) == Apply(m, w, e)
  {
    assert [e][..0] == [];
  }

  lemma PlaceKeepsBooks(m: Setup, w: World, o: Order)
    requires WorldInv(w, m.hourly) && ValidOrder(m.history.listed, o)
    ensures WorldInv(w.(orders := w.orders + [o]), m.hourly)
  {
    assert FeesAgree(o);
    forall a | a in w.accounts
      ensures Reconciled(w.orders + [o], a, w.accounts[a])
    {
      forall s
        ensures SumInt(w.orders + [o], SharesOf(a, s)) == SumInt(w.orders, SharesOf(a, s))
        ensures SumReal(w.orders + [o], FlowOf(a)) == SumReal(w.orders, FlowOf(a))
      {
        SumAppend(w.orders, o, SharesOf(a, s), FlowOf(a));
      }
    }
  }

  /** An agent that never had a portfolio has moved nothing. */
  lemma {:induction false} NothingMoved(orders: seq<Order>, a: AgentId, s: Symbol)
    requires forall i :: 0 <= i < |orders| ==> OrderInv(orders[i])
    requires forall i :: 0 <= i < |orders| && orders[i].agent == a ==> orders[i].trace.executed == 0
    ensures SumReal(orders, FlowOf(a)) == 0.0 && SumInt(orders, SharesOf(a, s)) == 0
  {
    if orders != [] {
      NothingMoved(orders[..|orders| - 1], a, s);
      var o := orders[|orders| - 1];
      assert o.agent == a ==> o.tradeValue == 0.0 && Flow(o) == 0.0;
    }
  }

  lemma JoinKeepsBooks(w: World, hourly: bool, a: AgentId, startDate: Time)
    requires WorldInv(w, hourly) && a !in w.accounts
    ensures WorldInv(w.(accounts := w.accounts[a := OpenAccount(startDate)]), hourly)
  {
    NothingMoved(w.orders, a, "");
    forall s
      ensures SumInt(w.orders, SharesOf(a, s)) == 0
    {
      NothingMoved(w.orders, a, s);
    }
    var acc := OpenAccount(startDate);
    assert forall s :: acc.HeldQty(s) == 0;
    assert Solvent(acc) && Reconciled(w.orders, a, acc);
  }

  lemma MissedTicksKeepBooks(w: World, hourly: bool, calls: map<AgentId, nat>, limit: int)
    requires WorldInv(w, hourly)
    ensures WorldInv(RecordMissed(w, calls, limit), hourly)
  {
    var w' := RecordMissed(w, calls, limit);
    forall a | a in w'.accounts
      ensures Solvent(w'.accounts[a]) && Reconciled(w'.orders, a, w'.accounts[a])
    {
      var before, after := w.accounts[a], w'.accounts[a];
      assert after.cash == before.cash && after.holdings == before.holdings;
      assert forall s :: after.HeldQty(s) == before.HeldQty(s);
    }
  }

  lemma MatchKeepsBooks(m: Setup, w: World, key: Time)
    requires WellFormed(m.history) && WorldInv(w, m.hourly)
    ensures WorldInv(Apply(m, w, Match(key)), m.hourly)
  {
    ViewsAreSound(m, key);
    if ProcessSession(w, ViewAt(m, key)).Some? {
      SessionKeepsBooks(w, ViewAt(m, key));
    }
  }

  lemma CancelKeepsBooks(m: Setup, w: World, i: nat)
    requires WorldInv(w, m.hourly)
    ensures WorldInv(Apply(m, w, Cancel(i)), m.hourly)
  {
    if i < |w.orders| {
      RowKept(w, m.hourly, i, CancelPending(w.orders[i]));
    }
  }

  lemma ApplyKeepsBooks(m: Setup, w: World, e: Event)
    requires WellFormed(m.history) && WorldInv(w, m.hourly)
    ensures WorldInv(Apply(m, w, e), m.hourly)
  {
    match e
    case Join(a, startDate) =>
      if a !in w.accounts {
        JoinKeepsBooks(w, m.hourly, a, startDate);
      }
    case Place(o) =>
      if ValidOrder(m.history.listed, o) {
        PlaceKeepsBooks(m, w, o);
      }
    case Cancel(i) => CancelKeepsBooks(m, w, i);
    case RecordMissedTicks(calls, limit) => MissedTicksKeepBooks(w, m.hourly, calls, limit);
    case Match(key) => MatchKeepsBooks(m, w, key);
  }

  lemma {:induction false} RunKeepsBooks(m: Setup, w: World, events: seq<Event>)
    requires WellFormed(m.history) && WorldInv(w, m.hourly)
    ensures WorldInv(Run(m, w, events), m.hourly)
  {
    if events != [] {
      RunKeepsBooks(m, w, events[..|events| - 1]);
      ApplyKeepsBooks(m, Run(m, w, events[..|events| - 1]), events[|events| - 1]);
    }
  }

  /** The books balance on every run, whatever the agents, the market and the failures do. */
  lemma BooksBalance(m: Setup, events: seq<Event>)
    requires WellFormed(m.history)
    ensures WorldInv(Run(m, EMPTY_WORLD, events), m.hourly)
  {
    RunKeepsBooks(m, EMPTY_WORLD, events);
  }
}
