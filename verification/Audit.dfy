/** What the balanced books mean to an agent, an auditor and a reader of the order table. */
module Audit {
  import opened Common
  import opened Fees
  import opened Market
  import opened Rules
  import opened Path
  import opened Ledger
  import opened Tape
  import opened Matching
  import opened Books
  import opened Runs
  import opened Hourly

  /** What a buy takes from the account, and a sale brings to it, in figures. */
  function BuyCost(a: AgentId): Order -> real {
    (o: Order) => if o.agent == a && o.side == Buy then 1.0013655 * o.tradeValue else 0.0
  }

  function SaleIncome(a: AgentId): Order -> real {
    (o: Order) =>
      if o.agent == a && o.side == Sell
      then o.tradeValue - 0.0012155 * o.tradeValue - 0.001 * o.trace.deliveredValue
           - 0.00025 * (o.tradeValue - o.trace.deliveredValue)
      else 0.0
  }

  /** A row's fees in figures: every component, and a total that is their sum. */
  predicate FeesInFigures(o: Order) {
    var v, d, f := o.tradeValue, o.trace.deliveredValue, o.fees;
    && f.total == f.brokerage + f.gst + f.exchange + f.sebi + f.stamp + f.stt
    && (o.side == Buy || o.side == Sell ==>
          f.brokerage == 0.001 * v && f.gst == 0.00018 * v && f.exchange == 0.0000345 * v && f.sebi == 0.000001 * v)
    && (o.side == Buy ==> f.stamp == 0.00015 * v && f.stt == 0.0 && f.total == 0.0013655 * v)
    && (o.side == Sell ==>
          f.stamp == 0.0 && f.stt == 0.001 * d + 0.00025 * (v - d)
          && f.total == 0.0012155 * v + 0.001 * d + 0.00025 * (v - d))
  }

  lemma RowFeesInFigures(o: Order)
    requires FeesAgree(o) && o.side != OtherSide
    ensures FeesInFigures(o)
  {
    BuyFeesInFigures(o.tradeValue);
    SellFeesInFigures(o.trace.deliveredValue, o.tradeValue);
  }

  function Bought(a: AgentId, s: Symbol): Order -> int {
    (o: Order) => if o.agent == a && o.symbol == s && o.side == Buy then o.trace.executed else 0
  }

  function Sold(a: AgentId, s: Symbol): Order -> int {
    (o: Order) => if o.agent == a && o.symbol == s && o.side == Sell then o.trace.executed else 0
  }

  lemma {:induction false} FlowsSplit(orders: seq<Order>, a: AgentId, s: Symbol)
    requires forall i :: 0 <= i < |orders| ==> OrderInv(orders[i])
    ensures SumReal(orders, FlowOf(a)) == SumReal(orders, SaleIncome(a)) - SumReal(orders, BuyCost(a))
    ensures SumInt(orders, SharesOf(a, s)) == SumInt(orders, Bought(a, s)) - SumInt(orders, Sold(a, s))
  {
    if orders != [] {
      FlowsSplit(orders[..|orders| - 1], a, s);
      var o := orders[|orders| - 1];
      assert FeesAgree(o);
      if o.side != OtherSide {
        RowFeesInFigures(o);
      }
      assert FlowOf(a)(o) == SaleIncome(a)(o) - BuyCost(a)(o);
    }
  }

  /**
   * The cash audit: on every run, over all the agent's rows whatever their status, every buy has cost its value and
   * 0.13655% of it, however it was sliced, and every sale has brought its value less 0.12155% and its tax.
   */
  lemma CashAudit(m: Setup, events: seq<Event>, a: AgentId)
    requires WellFormed(m.history) && a in Run(m, EMPTY_WORLD, events).accounts
    ensures var w := Run(m, EMPTY_WORLD, events);
      w.accounts[a].cash == 1000000.0 - SumReal(w.orders, BuyCost(a)) + SumReal(w.orders, SaleIncome(a))
  {
    BooksBalance(m, events);
    FlowsSplit(Run(m, EMPTY_WORLD, events).orders, a, "");
  }

  /** The fees of every row on every run, in figures. */
  lemma FeesAudit(m: Setup, events: seq<Event>)
    requires WellFormed(m.history)
    ensures forall i :: 0 <= i < |Run(m, EMPTY_WORLD, events).orders| ==>
      var o := Run(m, EMPTY_WORLD, events).orders[i]; o.side != OtherSide ==> FeesInFigures(o)
  {
    BooksBalance(m, events);
    var w := Run(m, EMPTY_WORLD, events);
    forall i | 0 <= i < |w.orders|
      ensures w.orders[i].side != OtherSide ==> FeesInFigures(w.orders[i])
    {
      if w.orders[i].side != OtherSide {
        RowFeesInFigures(w.orders[i]);
      }
    }
  }

  /** Shares are conserved: a holding is exactly what was executed on the buy side minus the sell side. */
  lemma ShareConservation(m: Setup, events: seq<Event>, a: AgentId, s: Symbol)
    requires WellFormed(m.history) && a in Run(m, EMPTY_WORLD, events).accounts
    ensures var w := Run(m, EMPTY_WORLD, events);
      w.accounts[a].HeldQty(s) == SumInt(w.orders, Bought(a, s)) - SumInt(w.orders, Sold(a, s)) >= 0
  {
    BooksBalance(m, events);
    FlowsSplit(Run(m, EMPTY_WORLD, events).orders, a, s);
  }

  // ----- Snapshots -----

  /** Every value of the equity series is positive, and the sum of cash and investment, neither of them negative. */
  ghost predicate SnapshotsPositive(acc: Account) {
    forall d :: d in acc.snapshots ==>
      var s := acc.snapshots[d]; s.total == s.cash + s.invested > 0.0 && s.cash >= 0.0 && s.invested >= 0.0
  }

  lemma ClosingSnapshotIsPositive(acc: Account, v: View)
    requires Solvent(acc) && v.Sound() && Markable(acc, v) && SnapshotsPositive(acc)
    ensures SnapshotsPositive(CloseAccount(acc, v))
  {
    SolventAccountsSurvive(acc, v);
    if !acc.disqualified {
      MarkedValueSign(acc.holdings, v.marks);
    }
  }

  lemma SessionSnapshotsPositive(w: World, v: View, a: AgentId)
    requires WorldInv(w, v.hourly) && v.Sound() && ProcessSession(w, v).Some?
    requires a in w.accounts && SnapshotsPositive(w.accounts[a])
    ensures a in ProcessSession(w, v).value.accounts && SnapshotsPositive(ProcessSession(w, v).value.accounts[a])
  {
    MatchFromKeepsBooks(w, v, 0);
    MatchingSparesStatus(w, v, 0, a);
    if v.ClosesSession() {
      ClosingSnapshotIsPositive(MatchFrom(w, v, 0).accounts[a], v);
    }
  }

  lemma EventSnapshotsPositive(m: Setup, w: World, e: Event, a: AgentId)
    requires WellFormed(m.history) && WorldInv(w, m.hourly) && a in Apply(m, w, e).accounts
    requires a in w.accounts ==> SnapshotsPositive(w.accounts[a])
    ensures SnapshotsPositive(Apply(m, w, e).accounts[a])
  {
    if e.Match? {
      ViewsAreSound(m, e.key);
      if ProcessSession(w, ViewAt(m, e.key)).Some? {
        SessionSnapshotsPositive(w, ViewAt(m, e.key), a);
      }
    }
  }

  /** An agent's equity series is positive and adds up, on every run. */
  lemma {:induction false} EquityIsPositive(m: Setup, events: seq<Event>, a: AgentId)
    requires WellFormed(m.history) && a in Run(m, EMPTY_WORLD, events).accounts
    ensures SnapshotsPositive(Run(m, EMPTY_WORLD, events).accounts[a])
  {
    if events != [] {
      var n := |events| - 1;
      var before := Run(m, EMPTY_WORLD, events[..n]);
      BooksBalance(m, events[..n]);
      if a in before.accounts {
        EquityIsPositive(m, events[..n], a);
      }
      EventSnapshotsPositive(m, before, events[n], a);
    }
  }

  /** Nobody ever owes cash or shares, and matching never finds a worthless portfolio to disqualify. */
  lemma NeverInsolvent(m: Setup, events: seq<Event>, a: AgentId, key: Time)
    requires WellFormed(m.history) && a in Run(m, EMPTY_WORLD, events).accounts
    ensures Solvent(Run(m, EMPTY_WORLD, events).accounts[a])
    ensures var w := Run(m, EMPTY_WORLD, events);
      var w' := Apply(m, w, Match(key));
      a in w'.accounts && w'.accounts[a].disqualified == w.accounts[a].disqualified
  {
    BooksBalance(m, events);
    ViewsAreSound(m, key);
    MatchingNeverDisqualifies(Run(m, EMPTY_WORLD, events), ViewAt(m, key), a);
  }

  lemma MatchingNeverDisqualifies(w: World, v: View, a: AgentId)
    requires WorldInv(w, v.hourly) && v.Sound() && a in w.accounts
    ensures match ProcessSession(w, v)
      case Some(w') => a in w'.accounts && w'.accounts[a].disqualified == w.accounts[a].disqualified
      case None => true
  {
    MatchFromKeepsBooks(w, v, 0);
    MatchingSparesStatus(w, v, 0, a);
    var matched := MatchFrom(w, v, 0);
    if ProcessSession(w, v).Some? && v.ClosesSession() {
      SolventAccountsSurvive(matched.accounts[a], v);
    }
  }

  lemma {:induction false} MatchingSparesStatus(w: World, v: View, i: nat, a: AgentId)
    requires i <= |w.orders| && a in w.accounts
    ensures MatchFrom(w, v, i).accounts[a].disqualified == w.accounts[a].disqualified
    ensures MatchFrom(w, v, i).accounts[a].snapshots == w.accounts[a].snapshots
    decreases |w.orders| - i
  {
    if i < |w.orders| {
      MatchingSparesStatus(MatchStep(w, v, i), v, i + 1, a);
    }
  }

  /** What a reader of the order table can rely on. */
  ghost predicate RowLaw(o: Order, hourly: bool) {
    && o.filledPrice * o.trace.executed as real == o.tradeValue
    && (o.filledPrice * o.filledQty as real == o.tradeValue <==> !Overstated(o))
    && (o.IsPending() ==> o.WorkingQty() > 0 && o.filledQty + o.WorkingQty() == o.quantity && !Overstated(o))
    && (!hourly ==> AllOrNothing(o))
    && FeesAgree(o) && WithinLimit(o)
  }

  lemma RowLawHolds(o: Order, hourly: bool)
    requires OrderInv(o) && (!hourly ==> AllOrNothing(o))
    ensures RowLaw(o, hourly)
  {
    if Overstated(o) {
      OverstatedPrice(o.filledPrice, o.trace.executed as real, o.filledQty as real, o.tradeValue);
    }
  }

  /**
   * On every run filled_price times the shares really executed is the trade value, so the recorded law
   * filled_price * filled_quantity = trade_value holds exactly of the rows that do not overstate; pending rows
   * account for every share, daily rows are all-or-nothing, fees are those of the whole trade value component by
   * component, and limits are beaten by at most 0.05%.
   */
  lemma RowLaws(m: Setup, events: seq<Event>)
    requires WellFormed(m.history)
    ensures forall i :: 0 <= i < |Run(m, EMPTY_WORLD, events).orders| ==>
      RowLaw(Run(m, EMPTY_WORLD, events).orders[i], m.hourly)
  {
    BooksBalance(m, events);
    var w := Run(m, EMPTY_WORLD, events);
    forall i | 0 <= i < |w.orders|
      ensures RowLaw(w.orders[i], m.hourly)
    {
      RowLawHolds(w.orders[i], m.hourly);
    }
  }

  lemma OverstatedPrice(price: real, executed: real, recorded: real, value: real)
    requires price * executed == value > 0.0 && 0.0 < executed < recorded
    ensures price * recorded != value
  {
    assert price > 0.0;
    assert price * recorded == value + price * (recorded - executed);
    assert price * (recorded - executed) > 0.0;
  }

  /** A match leaves an overstated row exactly when it trades a partial first slice on a session's last bar. */
  lemma OverstatementExactly(w: World, v: View, i: nat)
    requires WorldInv(w, v.hourly) && v.Sound() && i < |w.orders| && Due(v, w.orders[i])
    ensures var o := w.orders[i];
      Overstated(MatchOne(w, v, i).orders[i]) <==>
        && TryFill(w, v, o).Traded? && v.hourly && v.next.None?
        && o.filledQty == 0 && PlanFor(v, o).qty < o.quantity
  {
    var o := w.orders[i];
    match TryFill(w, v, o)
    case Refused(reason) => RejectionKeepsRow(o, reason);
    case Held => PostponeKeepsRow(v, o);
    case Traded(_, _) =>
      PlanFacts(v, o);
      if o.side == Buy {
        FillBuyEffect(w.accounts[o.agent], v, o, PlanFor(v, o));
      } else {
        FillSellEffect(w.accounts[o.agent], v, o, PlanFor(v, o),
                       FilledBuyQtyOnSession(w.orders, o.agent, o.symbol, v.day));
      }
  }

  /** It does happen: 100 of 500 shares trade on the last bar and the row reports 500. */
  lemma OverstatementHappens()
    ensures exists w: World, v: View ::
      && v.Sound() && |w.orders| == 1 && Due(v, w.orders[0])
      && var o := MatchOne(w, v, 0).orders[0];
         o.status == Filled && o.filledQty == 500 && o.trace.executed == 100
  {
    var s: Symbol := "TCS.NS";
    var bar, prev := Bar(100.0, 101.0, 99.0, 100.0, 1000), Bar(100.0, 101.0, 99.0, 100.0, 100000);
    var v := View(true, 0.1, 0, 0, {s}, map[s := bar], map[s := prev], {}, map[s := 100.0], None);
    var o := NewOrder(7, s, MarketOrder, Buy, 500, None, 0, Some(0));
    var acc := Account(STARTING_CAPITAL, map[], false, 0, map[]);
    var w := World([o], map[7 := acc]);
    assert v.Sound() by {
      BandIsNarrow(bar, 100.0);
    }
    assert (0.1 * 1000 as real).Floor == 100 && (0.01 * 100000 as real).Floor == 1000;
    assert ResolvePathFill(o.otype, o.side, 0.0, 500, bar, 0.1) == PathFill(100, 100.0, true);
    assert HalfSpread(bar) == 0.2;
    var p := PlanFor(v, o);
    assert p == Execute(100.2, 100, 0, None) by {
      assert 100 as real / 100000 as real <= 0.005;
    }
    var out := FillBuy(acc, v, o, p);
    assert out.Traded? && out.order.filledQty == 500 && out.order.trace.executed == 100;
    assert TryFill(w, v, o) == out;
    assert v.Sound() && |w.orders| == 1 && Due(v, w.orders[0]);
    assert MatchOne(w, v, 0).orders[0] == out.order;
  }

  // ----- Disqualification -----

  /** A pending order can still be canceled or rejected for its agent's status; nothing else changes. */
  ghost predicate RowFrozen(o: Order, o': Order) {
    && Untraded(o, o')
    && ((o'.status == o.status && o'.reason == o.reason)
        || (o.IsPending() && o'.status == Canceled)
        || (o.IsPending() && o'.status == Rejected && o'.reason == Some(AgentDisqualified)))
  }

  /** What a disqualified agent's records may still do: nothing, except repeat the last snapshot. */
  ghost predicate Frozen(w: World, w': World, a: AgentId)
    requires a in w.accounts
  {
    && a in w'.accounts && |w.orders| <= |w'.orders|
    && (var acc, acc' := w.accounts[a], w'.accounts[a];
        && acc'.disqualified && acc'.cash == acc.cash && acc'.holdings == acc.holdings
        && acc'.LastSnapshot() == acc.LastSnapshot()
        && forall d :: d in acc'.snapshots ==>
             (d in acc.snapshots && acc'.snapshots[d] == acc.snapshots[d])
             || Some(acc'.snapshots[d]) == acc.LastSnapshot())
    && (forall i :: 0 <= i < |w.orders| && w.orders[i].agent == a ==>
          RowFrozen(w.orders[i], w'.orders[i]))
    && (forall i :: 0 <= i < |w.orders| ==> w'.orders[i].agent == w.orders[i].agent)
    && (forall i :: |w.orders| <= i < |w'.orders| ==> w'.orders[i].agent != a)
  }

  lemma RepeatingLastSnapshot(acc: Account, day: Time)
    requires acc.snapshots != map[]
    ensures var last := acc.LastSnapshot().value;
      acc.(snapshots := acc.snapshots[day := last]).LastSnapshot() == Some(last)
  {
    var last := acc.LastSnapshot().value;
    var acc' := acc.(snapshots := acc.snapshots[day := last]);
    assert acc.snapshots.Keys != {};
    assert acc'.snapshots.Keys == acc.snapshots.Keys + {day};
    assert acc'.snapshots != map[];
  }

  /** A session's earlier orders do not lift a disqualification. */
  lemma {:induction false} StandingAtTurn(w: World, v: View, j: nat, i: nat, a: AgentId)
    requires j <= i <= |w.orders| && a in w.accounts
    ensures a in MatchUpTo(w, v, j, i).accounts
    ensures MatchUpTo(w, v, j, i).accounts[a].disqualified == w.accounts[a].disqualified
    decreases i - j
  {
    if j < i {
      StandingAtTurn(MatchStep(w, v, j), v, j + 1, i, a);
    }
  }

  /** A session rejects every due order of a disqualified agent as such, and touches none of its other orders. */
  lemma DisqualifiedOrdersAreRejected(w: World, v: View, i: nat)
    requires i < |w.orders| && w.orders[i].agent in w.accounts && w.accounts[w.orders[i].agent].disqualified
    requires ProcessSession(w, v).Some?
    ensures |ProcessSession(w, v).value.orders| == |w.orders|
    ensures ProcessSession(w, v).value.orders[i] ==
      if Due(v, w.orders[i]) then MarkRejected(w.orders[i], AgentDisqualified) else w.orders[i]
  {
    SessionKeepsRow(w, v, i);
    RowInSession(w, v, i);
    StandingAtTurn(w, v, 0, i, w.orders[i].agent);
  }

  lemma FrozenIsTransitive(w: World, w': World, w'': World, a: AgentId)
    requires a in w.accounts && Frozen(w, w', a) && Frozen(w', w'', a)
    ensures Frozen(w, w'', a)
  {
  }

  lemma OtherRowKeepsAgent(w: World, v: View, i: nat, a: AgentId)
    requires i < |w.orders| && w.orders[i].agent != a && a in w.accounts
    ensures var w' := MatchStep(w, v, i);
      a in w'.accounts && w'.accounts[a] == w.accounts[a] && w'.orders[i].agent == w.orders[i].agent
  {
  }

  /** One order's turn. */
  lemma TurnFreezes(w: World, v: View, i: nat, a: AgentId)
    requires i < |w.orders| && a in w.accounts && w.accounts[a].disqualified
    ensures Frozen(w, MatchStep(w, v, i), a) && MatchStep(w, v, i).accounts[a] == w.accounts[a]
  {
    if w.orders[i].agent != a {
      OtherRowKeepsAgent(w, v, i, a);
    }
  }

  lemma {:induction false} MatchingFreezes(w: World, v: View, i: nat, a: AgentId)
    requires i <= |w.orders| && a in w.accounts && w.accounts[a].disqualified
    ensures Frozen(w, MatchFrom(w, v, i), a) && MatchFrom(w, v, i).accounts[a] == w.accounts[a]
    decreases |w.orders| - i
  {
    if i < |w.orders| {
      TurnFreezes(w, v, i, a);
      MatchingFreezes(MatchStep(w, v, i), v, i + 1, a);
      FrozenIsTransitive(w, MatchStep(w, v, i), MatchFrom(w, v, i), a);
    }
  }

  lemma {:induction false} EventFreezes(m: Setup, w: World, e: Event, a: AgentId)
    requires a in w.accounts && w.accounts[a].disqualified
    ensures Frozen(w, Apply(m, w, e), a)
  {
    if e.Match? {
      var v := ViewAt(m, e.key);
      MatchingFreezes(w, v, 0, a);
      if ProcessSession(w, v).Some? && w.accounts[a].snapshots != map[] {
        RepeatingLastSnapshot(w.accounts[a], v.day);
      }
    }
  }

  /** Disqualification is absorbing and freezes the account, over any further run. */
  lemma {:induction false} DisqualificationIsFinal(m: Setup, w: World, events: seq<Event>, a: AgentId)
    requires a in w.accounts && w.accounts[a].disqualified
    ensures Frozen(w, Run(m, w, events), a)
  {
    if events != [] {
      var n := |events| - 1;
      DisqualificationIsFinal(m, w, events[..n], a);
      var before := Run(m, w, events[..n]);
      EventFreezes(m, before, events[n], a);
      FrozenIsTransitive(w, before, Apply(m, before, events[n]), a);
    }
  }
}
