/** The delivery/intraday split of hourly sales does not depend on how orders are sliced. */
module Delivery {
  import opened Common
  import opened Fees
  import opened Path
  import opened Calendar
  import opened Market
  import opened Rules
  import opened Ledger
  import opened Tape
  import opened Matching
  import opened Books
  import opened Runs

  predicate On(o: Order, a: AgentId, s: Symbol, side: Side, day: Time) {
    o.agent == a && o.symbol == s && o.side == side && o.filledAt == Some(day)
  }

  /** Shares executed on one side in one symbol on one session date. */
  function ExecutedOn(a: AgentId, s: Symbol, side: Side, day: Time): Order -> int {
    (o: Order) => if On(o, a, s, side, day) then o.trace.executed else 0
  }

  /** Shares taxed at the delivery rate on one session date. */
  function DeliveredOn(a: AgentId, s: Symbol, day: Time): Order -> int {
    (o: Order) => if On(o, a, s, Sell, day) then o.trace.delivered else 0
  }

  /** No buy of the session records more than it executed. */
  ghost predicate BuysAreExact(w: World, a: AgentId, s: Symbol, day: Time) {
    forall i :: 0 <= i < |w.orders| && On(w.orders[i], a, s, Buy, day) ==> !Overstated(w.orders[i])
  }

  /** Pending orders only carry executions of the session in progress. */
  ghost predicate CarriesOnly(w: World, a: AgentId, s: Symbol, day: Time) {
    forall i :: 0 <= i < |w.orders| && w.orders[i].agent == a && w.orders[i].symbol == s ==>
      w.orders[i].IsPending() && w.orders[i].trace.executed > 0 ==> w.orders[i].filledAt == Some(day)
  }

  /** Nothing of the agent's has traded on the date yet, and nothing is half done. */
  ghost predicate SessionStart(w: World, a: AgentId, s: Symbol, day: Time) {
    forall i :: 0 <= i < |w.orders| && w.orders[i].agent == a && w.orders[i].symbol == s ==>
      w.orders[i].filledAt != Some(day) && (w.orders[i].IsPending() ==> w.orders[i].trace.executed == 0)
  }

  /** Shares held overnight that a session's sales should have been taxed as delivery for, but were not. */
  ghost function Shortfall(w: World, a: AgentId, s: Symbol, day: Time, overnight: int): int {
    Lesser(SumInt(w.orders, ExecutedOn(a, s, Sell, day)), overnight) - SumInt(w.orders, DeliveredOn(a, s, day))
  }

  /** What always holds of a session: shares add up, and never too many of them are taxed as delivery. */
  ghost predicate SplitLaw(w: World, a: AgentId, s: Symbol, day: Time, overnight: int) {
    && a in w.accounts && CarriesOnly(w, a, s, day)
    && var sold := SumInt(w.orders, ExecutedOn(a, s, Sell, day));
       && sold >= 0
       && w.accounts[a].HeldQty(s) == overnight + SumInt(w.orders, ExecutedOn(a, s, Buy, day)) - sold
       && Shortfall(w, a, s, day, overnight) >= 0
  }

  /** The session's sales are taxed as delivery for exactly min(sold, overnight) shares. */
  ghost predicate SplitInv(w: World, a: AgentId, s: Symbol, day: Time, overnight: int) {
    && SplitLaw(w, a, s, day, overnight)
    && SumInt(w.orders, DeliveredOn(a, s, day)) == Lesser(SumInt(w.orders, ExecutedOn(a, s, Sell, day)), overnight)
  }

  lemma SplitIsNoShortfall(w: World, a: AgentId, s: Symbol, day: Time, overnight: int)
    ensures SplitInv(w, a, s, day, overnight) <==>
      SplitLaw(w, a, s, day, overnight) && Shortfall(w, a, s, day, overnight) == 0
  {
  }

  /** Where recorded buys are exact, the engine's FilledBuyQtyOnSession is the executed quantity. */
  lemma {:induction false} RecordedIsExecuted(orders: seq<Order>, a: AgentId, s: Symbol, day: Time)
    requires forall i :: 0 <= i < |orders| ==> OrderInv(orders[i])
    requires forall i :: 0 <= i < |orders| && On(orders[i], a, s, Buy, day) ==> !Overstated(orders[i])
    ensures FilledBuyQtyOnSession(orders, a, s, day) == SumInt(orders, ExecutedOn(a, s, Buy, day))
  {
    if orders != [] {
      RecordedIsExecuted(orders[..|orders| - 1], a, s, day);
    }
  }

  lemma {:induction false} NothingYet(orders: seq<Order>, a: AgentId, s: Symbol, day: Time)
    requires forall i :: 0 <= i < |orders| && orders[i].agent == a && orders[i].symbol == s ==>
               orders[i].filledAt != Some(day)
    ensures SumInt(orders, ExecutedOn(a, s, Buy, day)) == 0 && SumInt(orders, ExecutedOn(a, s, Sell, day)) == 0
    ensures SumInt(orders, DeliveredOn(a, s, day)) == 0
  {
    if orders != [] {
      NothingYet(orders[..|orders| - 1], a, s, day);
    }
  }

  lemma RowColumns(orders: seq<Order>, i: nat, o': Order, a: AgentId, s: Symbol, day: Time)
    requires i < |orders|
    ensures var rows := orders[i := o'];
      && (forall side :: SumInt(rows, ExecutedOn(a, s, side, day)) == SumInt(orders, ExecutedOn(a, s, side, day))
            - ExecutedOn(a, s, side, day)(orders[i]) + ExecutedOn(a, s, side, day)(o'))
      && SumInt(rows, DeliveredOn(a, s, day)) == SumInt(orders, DeliveredOn(a, s, day))
           - DeliveredOn(a, s, day)(orders[i]) + DeliveredOn(a, s, day)(o')
  {
    forall side {
      SumIntUpdate(orders, i, o', ExecutedOn(a, s, side, day));
    }
    SumIntUpdate(orders, i, o', DeliveredOn(a, s, day));
  }

  /** Recorded buys are never fewer than the executed ones. */
  lemma {:induction false} RecordedCoversExecuted(orders: seq<Order>, a: AgentId, s: Symbol, day: Time)
    requires forall i :: 0 <= i < |orders| ==> OrderInv(orders[i])
    ensures 0 <= SumInt(orders, ExecutedOn(a, s, Buy, day)) <= FilledBuyQtyOnSession(orders, a, s, day)
  {
    if orders != [] {
      RecordedCoversExecuted(orders[..|orders| - 1], a, s, day);
    }
  }

  // ----- One order -----

  /** A sale of qty shares is split as it should be although recorded buys exceed executed ones. */
  predicate SaleFits(held: int, executed: int, recorded: int, qty: int) {
    executed == recorded || held <= executed || qty <= held - recorded
  }

  /** If row i is the agent's sale of the symbol and trades now, it is split as it should be. */
  ghost predicate Fits(w: World, v: View, i: nat, a: AgentId, s: Symbol)
    requires i < |w.orders|
  {
    var o := w.orders[i];
    Due(v, o) && o.agent == a && o.symbol == s && o.side == Sell && TryFill(w, v, o).Traded? && PlanFor(v, o).Execute?
    && a in w.accounts ==>
      SaleFits(w.accounts[a].HeldQty(s), SumInt(w.orders, ExecutedOn(a, s, Buy, v.day)),
               FilledBuyQtyOnSession(w.orders, a, s, v.day), PlanFor(v, o).qty)
  }

  /** A row that does not trade may be rejected, canceled, postponed or closed, on the same date. */
  lemma QuietRow(w: World, i: nat, o': Order, a: AgentId, s: Symbol, day: Time, overnight: int)
    requires SplitLaw(w, a, s, day, overnight) && i < |w.orders| && OrderInv(w.orders[i])
    requires Untraded(w.orders[i], o') && w.orders[i].IsPending()
    requires o'.filledAt == w.orders[i].filledAt || (o'.filledAt == Some(day) && !o'.IsPending())
    ensures var w' := w.(orders := w.orders[i := o']);
      SplitLaw(w', a, s, day, overnight) && Shortfall(w', a, s, day, overnight) == Shortfall(w, a, s, day, overnight)
  {
    RowColumns(w.orders, i, o', a, s, day);
  }

  /** What a trade adds to the row's session columns. */
  ghost predicate Booked(o: Order, o': Order, qty: int, delivered: int, day: Time) {
    && o'.SameTerms(o) && o'.filledAt == Some(day)
    && o'.trace.executed == o.trace.executed + qty && o'.trace.delivered == o.trace.delivered + delivered
  }

  lemma BuyTrade(w: World, i: nat, o': Order, acc: Account, qty: int, a: AgentId, s: Symbol, day: Time, overnight: int)
    requires SplitLaw(w, a, s, day, overnight) && i < |w.orders| && OrderInv(w.orders[i]) && w.orders[i].IsPending()
    requires w.orders[i].side == Buy && Booked(w.orders[i], o', qty, 0, day)
    requires w.orders[i].agent == a ==>
      acc.HeldQty(s) == w.accounts[a].HeldQty(s) + if w.orders[i].symbol == s then qty else 0
    ensures var w' := World(w.orders[i := o'], w.accounts[o'.agent := acc]);
      SplitLaw(w', a, s, day, overnight) && Shortfall(w', a, s, day, overnight) == Shortfall(w, a, s, day, overnight)
  {
    RowColumns(w.orders, i, o', a, s, day);
  }

  /** Selling qty more of what is left of the overnight shares: the engine's split against the right one. */
  lemma SplitOfSale(overnight: int, sold: int, executed: int, recorded: int, qty: int)
    requires qty > 0 && executed <= recorded
    ensures var held := overnight + executed - sold;
      var right, taken := Lesser(sold + qty, overnight) - Lesser(sold, overnight), DeliveryQty(held, recorded, qty);
      taken <= right && (taken == right <==> SaleFits(held, executed, recorded, qty))
  {
  }

  lemma SellTrade(w: World, i: nat, o': Order, acc: Account, qty: int, recorded: int, a: AgentId, s: Symbol, day: Time,
                  overnight: int)
    requires SplitLaw(w, a, s, day, overnight) && i < |w.orders| && OrderInv(w.orders[i]) && w.orders[i].IsPending()
    requires w.orders[i].side == Sell && w.orders[i].agent == a && w.orders[i].symbol == s && qty > 0
    requires SumInt(w.orders, ExecutedOn(a, s, Buy, day)) <= recorded
    requires Booked(w.orders[i], o', qty, DeliveryQty(w.accounts[a].HeldQty(s), recorded, qty), day)
    requires acc.HeldQty(s) == w.accounts[a].HeldQty(s) - qty
    ensures var w' := World(w.orders[i := o'], w.accounts[o'.agent := acc]);
      && SplitLaw(w', a, s, day, overnight)
      && Shortfall(w', a, s, day, overnight) >= Shortfall(w, a, s, day, overnight)
      && (Shortfall(w', a, s, day, overnight) == Shortfall(w, a, s, day, overnight) <==>
            SaleFits(w.accounts[a].HeldQty(s), SumInt(w.orders, ExecutedOn(a, s, Buy, day)), recorded, qty))
  {
    RowColumns(w.orders, i, o', a, s, day);
    SplitOfSale(overnight, SumInt(w.orders, ExecutedOn(a, s, Sell, day)), SumInt(w.orders, ExecutedOn(a, s, Buy, day)),
                recorded, qty);
  }

  /** A sale by another agent or in another symbol. */
  lemma OtherSale(w: World, i: nat, o': Order, acc: Account, a: AgentId, s: Symbol, day: Time, overnight: int)
    requires SplitLaw(w, a, s, day, overnight) && i < |w.orders| && o'.SameTerms(w.orders[i])
    requires w.orders[i].agent != a || w.orders[i].symbol != s
    requires w.orders[i].agent == a ==> acc.HeldQty(s) == w.accounts[a].HeldQty(s)
    ensures var w' := World(w.orders[i := o'], w.accounts[o'.agent := acc]);
      SplitLaw(w', a, s, day, overnight) && Shortfall(w', a, s, day, overnight) == Shortfall(w, a, s, day, overnight)
  {
    RowColumns(w.orders, i, o', a, s, day);
  }

  lemma RecordBooks(o: Order, e: Execution, p: Plan, day: Time)
    requires Tradable(o, p) && e.qty == p.qty
    ensures Booked(o, RecordFill(o, e, p.remainingAfter, day, p.next), e.qty, e.delivered, day)
  {
  }

  /** The step's effect on the session's split. */
  ghost predicate SplitMoves(w: World, w': World, fits: bool, a: AgentId, s: Symbol, day: Time, overnight: int) {
    && SplitLaw(w', a, s, day, overnight)
    && Shortfall(w', a, s, day, overnight) >= Shortfall(w, a, s, day, overnight)
    && (Shortfall(w', a, s, day, overnight) == Shortfall(w, a, s, day, overnight) <==> fits)
  }

  lemma SaleStep(w: World, v: View, i: nat, a: AgentId, s: Symbol, overnight: int)
    requires WorldInv(w, true) && v.hourly && v.Sound() && i < |w.orders| && SplitLaw(w, a, s, v.day, overnight)
    requires Due(v, w.orders[i]) && TryFill(w, v, w.orders[i]).Traded? && w.orders[i].side == Sell
    ensures SplitMoves(w, MatchStep(w, v, i), Fits(w, v, i, a, s), a, s, v.day, overnight)
  {
    var o := w.orders[i];
    AttemptEffect(w, v, i);
    PlanFacts(v, o);
    var acc, p := w.accounts[o.agent], PlanFor(v, o);
    var out := TryFill(w, v, o);
    var bought := FilledBuyQtyOnSession(w.orders, o.agent, o.symbol, v.day);
    FillSellBooks(acc, v, o, p, bought);
    RecordBooks(o, SellExecution(v, acc.HeldQty(o.symbol), bought, p.qty, p.qty, p.price), p, v.day);
    if o.agent == a && o.symbol == s {
      RecordedCoversExecuted(w.orders, a, s, v.day);
      SellTrade(w, i, out.order, out.account, p.qty, bought, a, s, v.day, overnight);
    } else {
      OtherSale(w, i, out.order, out.account, a, s, v.day, overnight);
    }
  }

  /**
   * Matching one order never mends the split, and keeps it exactly when the order is not a mis-split sale: executed
   * and recorded buys agree, or nothing held overnight is left, or the slice fits in what the excess leaves of it.
   */
  lemma SplitStep(w: World, v: View, i: nat, a: AgentId, s: Symbol, overnight: int)
    requires WorldInv(w, true) && v.hourly && v.Sound() && i < |w.orders| && SplitLaw(w, a, s, v.day, overnight)
    ensures SplitMoves(w, MatchStep(w, v, i), Fits(w, v, i, a, s), a, s, v.day, overnight)
  {
    var o := w.orders[i];
    if Due(v, o) {
      AttemptEffect(w, v, i);
      match TryFill(w, v, o)
      case Refused(reason) =>
        RejectionKeepsRow(o, reason);
        QuietRow(w, i, MarkRejected(o, reason), a, s, v.day, overnight);
      case Held =>
        PostponeKeepsRow(v, o);
        QuietRow(w, i, Postpone(v, o), a, s, v.day, overnight);
      case Traded(o', acc') =>
        PlanFacts(v, o);
        var acc, p := w.accounts[o.agent], PlanFor(v, o);
        if o.side == Buy {
          FillBuyBooks(acc, v, o, p);
          RecordBooks(o, BuyExecution(p), p, v.day);
          BuyTrade(w, i, o', acc', p.qty, a, s, v.day, overnight);
        } else {
          SaleStep(w, v, i, a, s, overnight);
        }
    }
  }

  // ----- One session -----

  /** Every sale from rank i on is split as it should be when its turn comes. */
  ghost predicate AllFit(w: World, v: View, i: nat, a: AgentId, s: Symbol)
    requires i <= |w.orders|
    decreases |w.orders| - i
  {
    i < |w.orders| ==> Fits(w, v, i, a, s) && AllFit(MatchStep(w, v, i), v, i + 1, a, s)
  }

  /** A session partly matched: the orders from rank i on are still to be tried. */
  ghost predicate MidSession(w: World, v: View, i: nat, a: AgentId, s: Symbol, overnight: int) {
    && WorldInv(w, true) && v.hourly && v.Sound() && i <= |w.orders| && SplitLaw(w, a, s, v.day, overnight)
  }

  lemma SplitHead(w: World, v: View, i: nat, a: AgentId, s: Symbol, overnight: int)
    requires MidSession(w, v, i, a, s, overnight) && i < |w.orders|
    ensures MidSession(MatchStep(w, v, i), v, i + 1, a, s, overnight)
    ensures SplitMoves(w, MatchStep(w, v, i), Fits(w, v, i, a, s), a, s, v.day, overnight)
  {
    MatchStepKeepsBooks(w, v, i);
    SplitStep(w, v, i, a, s, overnight);
  }

  lemma {:induction false} SplitMatching(w: World, v: View, i: nat, a: AgentId, s: Symbol, overnight: int)
    requires MidSession(w, v, i, a, s, overnight)
    ensures SplitMoves(w, MatchFrom(w, v, i), AllFit(w, v, i, a, s), a, s, v.day, overnight)
    decreases |w.orders| - i
  {
    if i < |w.orders| {
      var w' := MatchStep(w, v, i);
      SplitHead(w, v, i, a, s, overnight);
      SplitMatching(w', v, i + 1, a, s, overnight);
      assert MatchFrom(w, v, i) == MatchFrom(w', v, i + 1);
    }
  }

  lemma ClosingKeepsHoldings(w: World, v: View, a: AgentId)
    requires CloseAccounts(w, v).Some? && a in w.accounts
    ensures var w' := CloseAccounts(w, v).value;
      w'.orders == w.orders && a in w'.accounts && w'.accounts[a].holdings == w.accounts[a].holdings
  {
  }

  lemma SplitMatch(w: World, v: View, a: AgentId, s: Symbol, overnight: int)
    requires WorldInv(w, true) && v.hourly && v.Sound() && ProcessSession(w, v).Some?
    requires SplitLaw(w, a, s, v.day, overnight)
    ensures SplitMoves(w, ProcessSession(w, v).value, AllFit(w, v, 0, a, s), a, s, v.day, overnight)
  {
    var m := MatchFrom(w, v, 0);
    SplitMatching(w, v, 0, a, s, overnight);
    if v.ClosesSession() {
      ClosingKeepsHoldings(m, v, a);
    }
  }

  // ----- Runs -----

  lemma SplitPlace(w: World, o: Order, a: AgentId, s: Symbol, day: Time, overnight: int)
    requires SplitLaw(w, a, s, day, overnight) && o.filledAt == None && o.trace.executed == 0
    ensures SplitMoves(w, w.(orders := w.orders + [o]), true, a, s, day, overnight)
  {
    SumAppend(w.orders, o, ExecutedOn(a, s, Buy, day), (r: Order) => 0.0);
    SumAppend(w.orders, o, ExecutedOn(a, s, Sell, day), (r: Order) => 0.0);
    SumAppend(w.orders, o, DeliveredOn(a, s, day), (r: Order) => 0.0);
  }

  lemma SplitCancel(w: World, i: nat, a: AgentId, s: Symbol, day: Time, overnight: int)
    requires WorldInv(w, true) && SplitLaw(w, a, s, day, overnight) && i < |w.orders|
    ensures SplitMoves(w, w.(orders := w.orders[i := CancelPending(w.orders[i])]), true, a, s, day, overnight)
  {
    if w.orders[i].IsPending() {
      QuietRow(w, i, CancelPending(w.orders[i]), a, s, day, overnight);
    } else {
      assert w.orders[i := w.orders[i]] == w.orders;
    }
  }

  lemma SplitMissedTicks(w: World, calls: map<AgentId, nat>, limit: int, a: AgentId, s: Symbol, day: Time,
                         overnight: int)
    requires SplitLaw(w, a, s, day, overnight)
    ensures SplitMoves(w, RecordMissed(w, calls, limit), true, a, s, day, overnight)
  {
    assert RecordMissed(w, calls, limit).accounts[a].holdings == w.accounts[a].holdings;
  }

  /** A committed match splits all the agent's sales of the symbol as it should. */
  ghost predicate EventFits(m: Setup, w: World, e: Event, a: AgentId, s: Symbol) {
    e.Match? && ProcessSession(w, ViewAt(m, e.key)).Some? ==> AllFit(w, ViewAt(m, e.key), 0, a, s)
  }

  ghost predicate EverySaleFits(m: Setup, w: World, events: seq<Event>, a: AgentId, s: Symbol) {
    events != [] ==>
      var prior := events[..|events| - 1];
      EverySaleFits(m, w, prior, a, s) && EventFits(m, Run(m, w, prior), events[|events| - 1], a, s)
  }

  lemma SplitEvent(m: Setup, w: World, e: Event, a: AgentId, s: Symbol, day: Time, overnight: int)
    requires m.hourly && WellFormed(m.history) && WorldInv(w, true) && SplitLaw(w, a, s, day, overnight)
    requires e.Match? ==> SessionCalendarUTC(e.key) == day
    ensures SplitMoves(w, Apply(m, w, e), EventFits(m, w, e, a, s), a, s, day, overnight)
  {
    match e
    case Cancel(i) =>
      if i < |w.orders| {
        SplitCancel(w, i, a, s, day, overnight);
      }
    case Place(o) =>
      if ValidOrder(m.history.listed, o) {
        SplitPlace(w, o, a, s, day, overnight);
      }
    case Join(_, _) =>
    case RecordMissedTicks(calls, limit) =>
      SplitMissedTicks(w, calls, limit, a, s, day, overnight);
    case Match(key) =>
      ViewsAreSound(m, key);
      if ProcessSession(w, ViewAt(m, key)).Some? {
        SplitMatch(w, ViewAt(m, key), a, s, overnight);
      }
  }

  /**
   * After any interleaving of buys and sells, requests and failures within one session, never more shares are taxed
   * as delivery than the agent held overnight, and exactly min(sold, overnight) of them are if and only if every
   * sale of the session was split as it should be.
   */
  lemma {:induction false} DeliverySplitExactly(m: Setup, w: World, events: seq<Event>, a: AgentId, s: Symbol,
                                                day: Time)
    requires m.hourly && WellFormed(m.history) && WorldInv(w, true) && a in w.accounts && SessionStart(w, a, s, day)
    requires forall i :: 0 <= i < |events| && events[i].Match? ==> SessionCalendarUTC(events[i].key) == day
    ensures var w', overnight := Run(m, w, events), w.accounts[a].HeldQty(s);
      && WorldInv(w', true) && SplitLaw(w', a, s, day, overnight)
      && (SplitInv(w', a, s, day, overnight) <==> EverySaleFits(m, w, events, a, s))
  {
    var overnight := w.accounts[a].HeldQty(s);
    SplitIsNoShortfall(Run(m, w, events), a, s, day, overnight);
    if events == [] {
      NothingYet(w.orders, a, s, day);
    } else {
      var n := |events| - 1;
      var before, e := Run(m, w, events[..n]), events[n];
      DeliverySplitExactly(m, w, events[..n], a, s, day);
      SplitIsNoShortfall(before, a, s, day, overnight);
      ApplyKeepsBooks(m, before, e);
      SplitEvent(m, before, e, a, s, day, overnight);
    }
  }

  // ----- Exact buys -----

  /** Closed rows are never touched again, so an exact end of session means an exact session throughout. */
  lemma ExactBefore(w: World, v: View, i: nat, a: AgentId, s: Symbol, day: Time)
    requires WorldInv(w, v.hourly) && i < |w.orders| && BuysAreExact(MatchStep(w, v, i), a, s, day)
    ensures BuysAreExact(w, a, s, day)
  {
    var w' := MatchStep(w, v, i);
    forall j | 0 <= j < |w.orders| && On(w.orders[j], a, s, Buy, day)
      ensures !Overstated(w.orders[j])
    {
      assert w'.orders[j] == w.orders[j] || (j == i && Due(v, w.orders[j]));
    }
  }

  lemma {:induction false} ExactBeforeMatching(w: World, v: View, i: nat, a: AgentId, s: Symbol, day: Time)
    requires WorldInv(w, v.hourly) && v.Sound() && i <= |w.orders| && BuysAreExact(MatchFrom(w, v, i), a, s, day)
    ensures BuysAreExact(w, a, s, day)
    decreases |w.orders| - i
  {
    if i < |w.orders| {
      MatchStepKeepsBooks(w, v, i);
      ExactBeforeMatching(MatchStep(w, v, i), v, i + 1, a, s, day);
      ExactBefore(w, v, i, a, s, day);
    }
  }

  /** With exact buys every sale fits. */
  lemma {:induction false} ExactBuysFit(w: World, v: View, i: nat, a: AgentId, s: Symbol)
    requires WorldInv(w, true) && v.hourly && v.Sound() && i <= |w.orders|
    requires BuysAreExact(MatchFrom(w, v, i), a, s, v.day)
    ensures AllFit(w, v, i, a, s)
    decreases |w.orders| - i
  {
    if i < |w.orders| {
      ExactBeforeMatching(w, v, i, a, s, v.day);
      RecordedIsExecuted(w.orders, a, s, v.day);
      MatchStepKeepsBooks(w, v, i);
      ExactBuysFit(MatchStep(w, v, i), v, i + 1, a, s);
    }
  }

  lemma ExactBeforeEvent(m: Setup, w: World, e: Event, a: AgentId, s: Symbol, day: Time)
    requires m.hourly && WellFormed(m.history) && WorldInv(w, true) && BuysAreExact(Apply(m, w, e), a, s, day)
    ensures BuysAreExact(w, a, s, day)
  {
    match e
    case Match(key) =>
      ViewsAreSound(m, key);
      if ProcessSession(w, ViewAt(m, key)).Some? {
        ExactBeforeMatching(w, ViewAt(m, key), 0, a, s, day);
      }
    case Place(o) =>
      var w' := Apply(m, w, e);
      assert forall i :: 0 <= i < |w.orders| ==> w'.orders[i] == w.orders[i];
    case Cancel(i) =>
      var w' := Apply(m, w, e);
      assert forall j :: 0 <= j < |w.orders| && Overstated(w.orders[j]) ==> w'.orders[j] == w.orders[j];
    case Join(_, _) =>
    case RecordMissedTicks(_, _) =>
  }

  /** In particular the split is right wherever recorded buys are exact at the end of the run. */
  lemma DeliverySplit(m: Setup, w: World, events: seq<Event>, a: AgentId, s: Symbol, day: Time)
    requires m.hourly && WellFormed(m.history) && WorldInv(w, true) && a in w.accounts && SessionStart(w, a, s, day)
    requires forall i :: 0 <= i < |events| && events[i].Match? ==> SessionCalendarUTC(events[i].key) == day
    requires BuysAreExact(Run(m, w, events), a, s, day)
    ensures WorldInv(Run(m, w, events), true)
    ensures SplitInv(Run(m, w, events), a, s, day, w.accounts[a].HeldQty(s))
  {
    DeliverySplitExactly(m, w, events, a, s, day);
    ExactRunFits(m, w, events, a, s, day);
  }

  lemma ExactEventFits(m: Setup, w: World, e: Event, a: AgentId, s: Symbol, day: Time)
    requires m.hourly && WellFormed(m.history) && WorldInv(w, true) && BuysAreExact(Apply(m, w, e), a, s, day)
    requires e.Match? ==> SessionCalendarUTC(e.key) == day
    ensures EventFits(m, w, e, a, s)
  {
    if e.Match? && ProcessSession(w, ViewAt(m, e.key)).Some? {
      ViewsAreSound(m, e.key);
      ExactBuysFit(w, ViewAt(m, e.key), 0, a, s);
    }
  }

  lemma {:induction false} ExactRunFits(m: Setup, w: World, events: seq<Event>, a: AgentId, s: Symbol, day: Time)
    requires m.hourly && WellFormed(m.history) && WorldInv(w, true) && BuysAreExact(Run(m, w, events), a, s, day)
    requires forall i :: 0 <= i < |events| && events[i].Match? ==> SessionCalendarUTC(events[i].key) == day
    ensures EverySaleFits(m, w, events, a, s)
  {
    if events != [] {
      var n := |events| - 1;
      var before, e := Run(m, w, events[..n]), events[n];
      RunKeepsBooks(m, w, events[..n]);
      ExactBeforeEvent(m, before, e, a, s, day);
      ExactRunFits(m, w, events[..n], a, s, day);
      ExactEventFits(m, before, e, a, s, day);
    }
  }

  // ----- A mis-taxed sale -----

  const TCS: Symbol := "TCS.NS"
  const LAST_BAR := Bar(100.0, 101.0, 99.0, 100.0, 1000)
  const DAY_BEFORE := Bar(100.0, 101.0, 99.0, 100.0, 100000)
  const CLOSING := View(true, 0.1, 0, 0, {TCS}, map[TCS := LAST_BAR], map[TCS := DAY_BEFORE], {}, map[TCS := 100.0],
                        None)

  /** Three hundred shares bought the day before. */
  const OVERNIGHT_BUY := Order(7, TCS, MarketOrder, Buy, 300, None, Filled, -86400, Some(-86400), 300, Some(0), 100.0,
                               Some(-86400), BuyFees(30000.0), 30000.0, None, Trace(300, 0, 0.0))
  const BUY_500 := NewOrder(7, TCS, MarketOrder, Buy, 500, None, 0, Some(0))
  const SELL_100 := NewOrder(7, TCS, MarketOrder, Sell, 100, None, 0, Some(0))
  const OWNER := Account(STARTING_CAPITAL - 30000.0 - BuyFees(30000.0).total, map[TCS := Holding(300, 100.0)],
                         false, 0, map[])
  const OPENING := World([OVERNIGHT_BUY, BUY_500, SELL_100], map[7 := OWNER])

  lemma ThreeRows(x: Order, y: Order, z: Order, f: Order -> int, g: Order -> real)
    ensures SumInt([x, y, z], f) == f(x) + f(y) + f(z)
    ensures SumReal([x, y, z], g) == g(x) + g(y) + g(z)
  {
    SumAppend([], x, f, g);
    SumAppend([x], y, f, g);
    SumAppend([x, y], z, f, g);
    assert [] + [x] == [x] && [x] + [y] == [x, y] && [x, y] + [z] == [x, y, z];
  }

  lemma OpeningRows()
    ensures OrderInv(OVERNIGHT_BUY) && OrderInv(BUY_500) && OrderInv(SELL_100)
    ensures Flow(OVERNIGHT_BUY) == OWNER.cash - STARTING_CAPITAL && Flow(BUY_500) == Flow(SELL_100) == 0.0
  {
  }

  lemma OpeningReconciled()
    ensures Solvent(OWNER) && Reconciled(OPENING.orders, 7, OWNER)
  {
    OpeningRows();
    ThreeRows(OVERNIGHT_BUY, BUY_500, SELL_100, SharesOf(7, TCS), FlowOf(7));
    assert SumReal(OPENING.orders, FlowOf(7)) == Flow(OVERNIGHT_BUY);
    forall s
      ensures OWNER.HeldQty(s) == SumInt(OPENING.orders, SharesOf(7, s))
    {
      ThreeRows(OVERNIGHT_BUY, BUY_500, SELL_100, SharesOf(7, s), FlowOf(7));
    }
  }

  lemma OpeningBooks()
    ensures CLOSING.Sound() && WorldInv(OPENING, true) && SplitInv(OPENING, 7, TCS, 0, 300)
  {
    BandIsNarrow(LAST_BAR, 100.0);
    OpeningRows();
    OpeningReconciled();
    assert SplitInv(OPENING, 7, TCS, 0, 300) by {
      NothingYet(OPENING.orders, 7, TCS, 0);
    }
  }

  /** The buy: a fifth of it trades, and the row reports all of it. */
  lemma MisTaxedBuy() returns (o': Order, acc': Account)
    ensures TryFill(OPENING, CLOSING, BUY_500) == Traded(o', acc')
    ensures o'.SameTerms(BUY_500) && o'.status == Filled && o'.filledAt == Some(0) && o'.filledQty == 500
    ensures o'.trace == Trace(100, 0, 0.0) && TCS in acc'.holdings && acc'.HeldQty(TCS) == 400 && !acc'.disqualified
  {
    assert (0.1 * 1000 as real).Floor == 100 && (0.01 * 100000 as real).Floor == 1000;
    assert ResolvePathFill(MarketOrder, Buy, 0.0, 500, LAST_BAR, 0.1) == PathFill(100, 100.0, true);
    assert HalfSpread(LAST_BAR) == 0.2;
    var p := PlanFor(CLOSING, BUY_500);
    assert p == Execute(100.2, 100, 0, None) by {
      assert 100 as real / 100000 as real <= 0.005;
    }
    MarkedValueRemove(OWNER.holdings, CLOSING.PrevMarks(OWNER.holdings.Keys), TCS);
    assert OWNER.holdings - {TCS} == map[];
    var out := FillBuy(OWNER, CLOSING, BUY_500, p);
    assert out.Traded?;
    o', acc' := out.order, out.account;
  }

  /** The sale: a hundred of the shares held overnight, none of them taxed as delivery. */
  lemma MisTaxedSell(w: World, acc: Account)
    requires w.accounts == map[7 := acc] && TCS in acc.holdings && acc.HeldQty(TCS) == 400 && !acc.disqualified
    requires FilledBuyQtyOnSession(w.orders, 7, TCS, 0) == 500
    ensures TryFill(w, CLOSING, SELL_100).Traded?
    ensures var o' := TryFill(w, CLOSING, SELL_100).order;
      o'.SameTerms(SELL_100) && o'.filledAt == Some(0) && o'.trace == Trace(100, 0, 0.0)
  {
    assert (0.1 * 1000 as real).Floor == 100 && (0.01 * 100000 as real).Floor == 1000;
    assert ResolvePathFill(MarketOrder, Sell, 0.0, 100, LAST_BAR, 0.1) == PathFill(100, 100.0, true);
    assert HalfSpread(LAST_BAR) == 0.2;
    var p := PlanFor(CLOSING, SELL_100);
    assert p == Execute(99.8, 100, 0, None) by {
      assert 100 as real / 100000 as real <= 0.005;
    }
    assert DeliveryQty(400, 500, 100) == 0;
    assert FillSell(acc, CLOSING, SELL_100, p, 500).Traded?;
  }

  /**
   * It does happen: on the last bar an agent that holds 300 shares overnight buys 500, of which 100 trade, and sells
   * 100.  The sale is taxed as intraday throughout.
   */
  lemma SaleIsMisTaxed()
    ensures CLOSING.Sound() && WorldInv(OPENING, true) && SplitInv(OPENING, 7, TCS, 0, 300)
    ensures var w := MatchFrom(OPENING, CLOSING, 0);
      |w.orders| == 3 && w.orders[2].trace == Trace(100, 0, 0.0) && !SplitInv(w, 7, TCS, 0, 300)
  {
    OpeningBooks();
    var bought, acc := MisTaxedBuy();
    var w := World([OVERNIGHT_BUY, bought, SELL_100], map[7 := acc]);
    assert MatchStep(OPENING, CLOSING, 0) == OPENING;
    assert MatchStep(OPENING, CLOSING, 1) == w;
    ThreeRows(OVERNIGHT_BUY, bought, SELL_100, RecordedBuy(7, TCS, 0), FlowOf(7));
    MisTaxedSell(w, acc);
    var sold := TryFill(w, CLOSING, SELL_100).order;
    var w' := MatchStep(w, CLOSING, 2);
    assert w'.orders == [OVERNIGHT_BUY, bought, sold];
    ThreeRows(OVERNIGHT_BUY, bought, sold, ExecutedOn(7, TCS, Sell, 0), FlowOf(7));
    ThreeRows(OVERNIGHT_BUY, bought, sold, DeliveredOn(7, TCS, 0), FlowOf(7));
    assert MatchFrom(w, CLOSING, 2) == w';
  }
}
