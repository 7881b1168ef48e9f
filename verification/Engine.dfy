/** The matching engine as the source runs it: transactions, row updates and lazily filled caches. */
module Engine {
  import opened Common
  import opened Fees
  import opened Calendar
  import opened Market
  import opened Rules
  import opened Path
  import opened Ledger
  import opened Tape
  import opened Matching
  import Books

  /** The working copy of the tables inside one database transaction. */
  class Tx {
    var orders: seq<Order>
    var accounts: map<AgentId, Account>

    constructor (orders: seq<Order>, accounts: map<AgentId, Account>)
      ensures Tables() == World(orders, accounts)
    {
      this.orders, this.accounts := orders, accounts;
    }

    function Tables(): World
      reads this
    {
      World(orders, accounts)
    }

    method UpdateRow(id: nat, o: Order)
      requires id < |orders|
      modifies this`orders
      ensures orders == old(orders)[id := o]
    {
      orders := orders[id := o];
    }

    method SetCash(a: AgentId, cash: real)
      requires a in accounts
      modifies this`accounts
      ensures accounts == old(accounts)[a := old(accounts)[a].(cash := cash)]
    {
      accounts := accounts[a := accounts[a].(cash := cash)];
    }

    method SetHoldings(a: AgentId, holdings: map<Symbol, Holding>)
      requires a in accounts
      modifies this`accounts
      ensures accounts == old(accounts)[a := old(accounts)[a].(holdings := holdings)]
    {
      accounts := accounts[a := accounts[a].(holdings := holdings)];
    }

    /** FilledBuyQtyOnSession: the SUM over the table as it stands in this transaction. */
    method FilledBuyQty(agent: AgentId, symbol: Symbol, day: Time) returns (n: int)
      ensures n == FilledBuyQtyOnSession(orders, agent, symbol, day)
    {
      n := 0;
      for i := 0 to |orders|
        invariant n == FilledBuyQtyOnSession(orders[..i], agent, symbol, day)
      {
        assert orders[..i + 1][..i] == orders[..i];
        n := n + RecordedBuy(agent, symbol, day)(orders[i]);
      }
      assert orders[..|orders|] == orders;
    }
  }

  /** The maps one matching step fills as it goes. */
  class Caches {
    var prevClose: map<Symbol, real>
    var prevVol: map<Symbol, int>
    var breakerOn: map<Symbol, bool>

    constructor ()
      ensures prevClose == map[] && prevVol == map[] && breakerOn == map[]
    {
      prevClose, prevVol, breakerOn := map[], map[], map[];
    }

    /** Reading a missing volume yields Go's zero. */
    function Volume(s: Symbol): int
      reads this
    {
      if s in prevVol then prevVol[s] else 0
    }

    /** Every cached value is what the market view says; `loaded` symbols also have their breaker and volume. */
    ghost predicate Agrees(v: View, loaded: set<Symbol>)
      reads this
    {
      && (forall s :: s in prevClose ==> prevClose[s] == v.PrevClose(s))
      && (forall s :: s in loaded ==> s in breakerOn && breakerOn[s] == v.BreakerOn(s))
      && (forall s :: s in loaded && !v.BreakerOn(s) ==> Volume(s) == v.PrevVolume(s))
    }
  }

  /** What a try-fill call returns: "", the deferral sentinel, or a rejection reason. */
  datatype Verdict = Done | Defer | Reject(reason: Reason)

  /** The verdict and the transaction's tables are what an outcome for row id says. */
  ghost predicate Realizes(before: World, after: World, id: nat, verdict: Verdict, outcome: Outcome)
    requires id < |before.orders|
  {
    match outcome
    case Refused(reason) => verdict == Reject(reason) && after == before
    case Held => verdict == Defer && after == before
    case Traded(o, acc) =>
      verdict == Done && after == World(before.orders[id := o], before.accounts[before.orders[id].agent := acc])
  }

  /** One holding's worth comes off the sum, whichever the iteration picks. */
  lemma TakeHolding(left: map<Symbol, Holding>, marks: map<Symbol, real>, s: Symbol, px: real)
    requires s in left && left.Keys <= marks.Keys && px == marks[s]
    ensures MarkedValue(left, marks) == left[s].quantity as real * px + MarkedValue(left - {s}, marks)
  {
    MarkedValueRemove(left, marks, s);
  }

  lemma ViewPrevClose(h: History, day: Time, s: Symbol)
    ensures (if s in PrevBars(h, day) then PrevBars(h, day)[s].close else 0.0) == PrevCloseOf(h, s, day)
    ensures PrevTradingDayBar(h, s, day).Some? <==> s in PrevBars(h, day)
    ensures s in PrevBars(h, day) ==> PrevTradingDayBar(h, s, day) == Some(PrevBars(h, day)[s])
  {
    QueriesNameTheirSymbols(h, s, day);
  }

  /** The previous close is that of the last bar before the day, and zero if there is none. */
  lemma PreviousClose(h: History, s: Symbol, day: Time)
    ensures forall t, b :: IsLastBar(h.daily, s, day, false, t, b) ==> PrevCloseOf(h, s, day) == b.close
    ensures (forall t :: t < day ==> (s, t) !in h.daily) ==> PrevCloseOf(h, s, day) == 0.0
  {
    forall t, b | IsLastBar(h.daily, s, day, false, t, b)
      ensures PrevCloseOf(h, s, day) == b.close
    {
      LastBarIsReturned(h, s, day, t, b);
    }
    PreviousBarIsLast(h, s, day);
  }

  lemma DayViewBars(h: History, day: Time, s: Symbol)
    ensures var v := DayView(h, day);
      && (BarOnDate(h, s, day).Some? <==> s in v.bars)
      && (s in v.bars ==> BarOnDate(h, s, day) == Some(v.bars[s]))
      && v.marks.Keys == v.bars.Keys && (s in v.marks ==> v.marks[s] == v.bars[s].close)
      && (s in v.halted <==> DayHalted(h, s, day))
  {
    QueriesNameTheirSymbols(h, s, day);
  }

  lemma PlannedSliceIsPositive(v: View, o: Order)
    ensures match PlanHourly(v, o)
      case Execute(_, qty, _, _) => qty > 0
      case _ => true
  {
  }

  lemma HourViewBars(h: History, ts: Time, rate: real, s: Symbol)
    ensures var v := HourView(h, ts, rate);
      && (IntradayBarOnTs(h, s, ts).Some? <==> s in v.bars)
      && (s in v.bars ==> IntradayBarOnTs(h, s, ts) == Some(v.bars[s]))
      && (IntradayBarAtOrBefore(h, s, ts).Some? <==> s in v.marks)
      && (s in v.marks ==> v.marks[s] == IntradayBarAtOrBefore(h, s, ts).value.close)
      && (s in v.halted <==> SessionHalted(h, s, ts))
  {
    QueriesNameTheirSymbols(h, s, ts);
    if SessionHalted(h, s, ts) {
      var t :| t in SessionBarsUpTo(h, s, ts, ts) && BreachAt(h, s, t, SessionCalendarUTC(ts));
      QueriesNameTheirSymbols(h, s, t);
    }
  }

  /** The materialised pending list: exactly the due rows, oldest first. */
  ghost predicate IsPendingList(v: View, orders: seq<Order>, ids: seq<nat>) {
    && (forall k :: 0 <= k < |ids| ==> ids[k] < |orders| && Due(v, orders[ids[k]]))
    && (forall j, k :: 0 <= j < k < |ids| ==> ids[j] < ids[k])
    && (forall i :: 0 <= i < |orders| && Due(v, orders[i]) ==> i in ids)
  }

  /** The rank the matching scan has reached after k entries of the list. */
  function Reached(ids: seq<nat>, k: nat, n: nat): nat {
    if k < |ids| then ids[k] else n
  }

  /** Rows that are not due are passed over. */
  lemma {:induction false} SkipIdle(w: World, v: View, i: nat, j: nat)
    requires i <= j <= |w.orders| && forall r :: i <= r < j ==> !Due(v, w.orders[r])
    ensures MatchFrom(w, v, i) == MatchFrom(w, v, j)
    decreases j - i
  {
    if i < j {
      SkipIdle(w, v, i + 1, j);
    }
  }

  lemma NothingBetween(v: View, orders: seq<Order>, ids: seq<nat>, k: nat)
    requires IsPendingList(v, orders, ids) && k < |ids|
    ensures ids[k] < Reached(ids, k + 1, |orders|) <= |orders|
    ensures forall r :: ids[k] < r < Reached(ids, k + 1, |orders|) ==> !Due(v, orders[r])
  {
    assert forall j :: 0 <= j < |ids| ==> ids[j] <= ids[k] || ids[j] >= Reached(ids, k + 1, |orders|);
  }

  lemma NothingBefore(v: View, orders: seq<Order>, ids: seq<nat>)
    requires IsPendingList(v, orders, ids)
    ensures Reached(ids, 0, |orders|) <= |orders|
    ensures forall r :: 0 <= r < Reached(ids, 0, |orders|) ==> !Due(v, orders[r])
  {
  }

  /** After k list entries the transaction has done what the matching scan does up to the next due rank. */
  ghost predicate Progress(start: World, now: World, v: View, ids: seq<nat>, k: nat) {
    var n := |start.orders|;
    && |now.orders| == n && Reached(ids, k, n) <= n
    && (forall r :: Reached(ids, k, n) <= r < n ==> now.orders[r] == start.orders[r])
    && MatchFrom(now, v, Reached(ids, k, n)) == MatchFrom(start, v, 0)
  }

  lemma ProgressBegins(start: World, v: View, ids: seq<nat>)
    requires IsPendingList(v, start.orders, ids)
    ensures Progress(start, start, v, ids, 0)
  {
    NothingBefore(v, start.orders, ids);
    SkipIdle(start, v, 0, Reached(ids, 0, |start.orders|));
  }

  lemma ProgressStep(start: World, now: World, v: View, ids: seq<nat>, k: nat)
    requires IsPendingList(v, start.orders, ids) && k < |ids| && Progress(start, now, v, ids, k)
    ensures now.orders[ids[k]] == start.orders[ids[k]]
    ensures Progress(start, MatchStep(now, v, ids[k]), v, ids, k + 1)
  {
    NothingBetween(v, start.orders, ids, k);
    SkipIdle(MatchStep(now, v, ids[k]), v, ids[k] + 1, Reached(ids, k + 1, |start.orders|));
  }

  /** What the daily caches must say of a symbol, from the two queries about it. */
  lemma DaySymbol(h: History, day: Time, s: Symbol)
    ensures var v, bar, prev := DayView(h, day), BarOnDate(h, s, day), PrevTradingDayBar(h, s, day);
      && v.PrevClose(s) == (if prev.Some? then prev.value.close else 0.0)
      && v.PrevVolume(s) == (if prev.Some? then prev.value.volume else 0)
      && v.BreakerOn(s) == (bar.None? || (prev.Some? && CircuitTriggered(bar.value.open, prev.value.close)))
  {
    DayViewBars(h, day, s);
    ViewPrevClose(h, day, s);
  }

  lemma HourSymbol(h: History, ts: Time, rate: real, s: Symbol)
    ensures var v := HourView(h, ts, rate);
      var prev := PrevTradingDayBar(h, s, v.day);
      && v.PrevClose(s) == PrevCloseOf(h, s, v.day) == (if prev.Some? then prev.value.close else 0.0)
      && v.PrevVolume(s) == (if prev.Some? then prev.value.volume else 0)
      && v.BreakerOn(s) == SessionHalted(h, s, ts)
  {
    HourViewBars(h, ts, rate, s);
    ViewPrevClose(h, SessionCalendarUTC(ts), s);
  }

  class Engine {
    const history: History
    var orders: seq<Order>
    var accounts: map<AgentId, Account>

    constructor (history: History)
      ensures this.history == history && Tables() == World([], map[])
    {
      this.history := history;
      orders, accounts := [], map[];
    }

    function Tables(): World
      reads this
    {
      World(orders, accounts)
    }

    method Commit(tx: Tx)
      modifies this`orders, this`accounts
      ensures Tables() == tx.Tables()
    {
      orders, accounts := tx.orders, tx.accounts;
    }

    /** The previous daily close, queried once per symbol and step. */
    method PrevClose(caches: Caches, s: Symbol, day: Time, ghost v: View, ghost loaded: set<Symbol>) returns (px: real)
      requires caches.Agrees(v, loaded) && v.prev == PrevBars(history, day)
      modifies caches`prevClose
      ensures caches.Agrees(v, loaded) && px == v.PrevClose(s)
      ensures forall t, b :: IsLastBar(history.daily, s, day, false, t, b) ==> px == b.close
      ensures (forall t :: t < day ==> (s, t) !in history.daily) ==> px == 0.0
    {
      PreviousClose(history, s, day);
      if s in caches.prevClose {
        px := caches.prevClose[s];
        ViewPrevClose(history, day, s);
      } else {
        match PrevTradingDayBar(history, s, day)
        case None => px := 0.0;
        case Some(bar) => px := bar.close;
        ViewPrevClose(history, day, s);
        caches.prevClose := caches.prevClose[s := px];
      }
    }

    /** Portfolio value at previous closes; the map is read in whatever order it yields. */
    method PortfolioPV(caches: Caches, day: Time, cash: real, held: map<Symbol, Holding>, ghost v: View,
                       ghost loaded: set<Symbol>)
      returns (pv: real)
      requires caches.Agrees(v, loaded) && v.prev == PrevBars(history, day)
      modifies caches`prevClose
      ensures caches.Agrees(v, loaded) && pv == cash + MarkedValue(held, v.PrevMarks(held.Keys))
    {
      pv := cash;
      var left := held;
      ghost var marks := v.PrevMarks(held.Keys);
      ghost var total := cash + MarkedValue(held, marks);
      while left != map[]
        invariant left.Keys <= held.Keys && caches.Agrees(v, loaded)
        invariant pv + MarkedValue(left, marks) == total
        decreases |left|
      {
        var s :| s in left;
        var pc := PrevClose(caches, s, day, v, loaded);
        TakeHolding(left, marks, s, pc);
        var worth := left[s].quantity as real * pc;
        pv, left := pv + worth, left - {s};
      }
    }

    /** The writes both fills end with: cash, the holding, and the order row. */
    method RecordTrade(tx: Tx, id: nat, cash: real, holdings: map<Symbol, Holding>, e: Execution, p: Plan, day: Time)
      requires id < |tx.orders| && p.Execute? && tx.orders[id].agent in tx.accounts
      modifies tx
      ensures tx.orders == old(tx.orders)[id := RecordFill(old(tx.orders)[id], e, p.remainingAfter, day, p.next)]
      ensures var a := old(tx.orders)[id].agent;
        tx.accounts == old(tx.accounts)[a := old(tx.accounts)[a].(cash := cash, holdings := holdings)]
    {
      var o := tx.orders[id];
      tx.SetCash(o.agent, cash);
      tx.SetHoldings(o.agent, holdings);
      if p.remainingAfter > 0 || p.next.Some? || o.filledQty > 0 {
        tx.UpdateRow(id, ApplySliceFill(o, e, p.remainingAfter, day, p.next));
      } else {
        tx.UpdateRow(id, MarkFilled(o, e, day));
      }
    }

    /** fillBuy: check cash and concentration, then move cash, the holding and the row together. */
    method FillBuy(tx: Tx, id: nat, caches: Caches, p: Plan, day: Time, ghost v: View, ghost loaded: set<Symbol>)
      returns (verdict: Verdict)
      requires id < |tx.orders| && p.Execute? && tx.orders[id].side == Buy
      requires caches.Agrees(v, loaded) && v.prev == PrevBars(history, day) && v.day == day
      modifies tx, caches`prevClose
      ensures caches.Agrees(v, loaded) && |tx.orders| == old(|tx.orders|)
      ensures Realizes(old(tx.Tables()), tx.Tables(), id, verdict, Settle(old(tx.Tables()), v, old(tx.orders)[id], p))
    {
      var o := tx.orders[id];
      var fillQty := p.qty;
      if fillQty <= 0 {
        fillQty := o.WorkingQty();
      }
      if o.agent !in tx.accounts {
        return Reject(PortfolioNotFound);
      }
      var acc := tx.accounts[o.agent];
      var pv := PortfolioPV(caches, day, acc.cash, acc.holdings, v, loaded);
      var prevSym := PrevClose(caches, o.symbol, day, v, loaded);
      var tradeVal := fillQty as real * p.price;
      var br := BuyFees(tradeVal);
      var e := Execution(fillQty, p.price, br, 0);
      var totalDebit := br.TotalDebit(e.Value());
      var newStockExposure := Exposure(acc.HeldQty(o.symbol) + fillQty, prevSym);
      Books.FillBuyDecides(acc, v, o, p, e, pv, totalDebit, newStockExposure);
      if acc.cash < totalDebit {
        return Reject(InsufficientCash);
      }
      if ConcentrationExceeded(newStockExposure, pv) {
        return Reject(ConcentrationLimitExceeded);
      }
      RecordTrade(tx, id, acc.cash - totalDebit, AddHolding(acc.holdings, o.symbol, fillQty, p.price), e, p, day);
      verdict := Done;
    }

    /** The fee split of an hourly sale against the session's recorded buys. */
    method HourlySellFees(tx: Tx, o: Order, fillQty: int, price: real, day: Time, ghost v: View)
      returns (br: Breakdown, delivery: int)
      requires v.hourly
      ensures o.agent in tx.accounts ==>
        var e := SellExecution(v, tx.accounts[o.agent].HeldQty(o.symbol),
                               FilledBuyQtyOnSession(tx.orders, o.agent, o.symbol, day), fillQty, fillQty, price);
        br == e.fees && delivery == e.delivered
    {
      if o.agent !in tx.accounts {
        return SellFees(fillQty as real * price), fillQty;
      }
      var held := tx.accounts[o.agent].HeldQty(o.symbol);
      var bought := tx.FilledBuyQty(o.agent, o.symbol, day);
      var overnight := held - bought;
      if overnight < 0 {
        overnight := 0;
      }
      delivery := fillQty;
      if overnight < delivery {
        delivery := overnight;
      }
      var intraday := fillQty - delivery;
      br := SellFeesMixed(delivery as real * price, intraday as real * price);
    }

    /** fillSell: check holdings, then move cash, the holding and the row together. */
    method FillSell(tx: Tx, id: nat, p: Plan, br: Breakdown, delivered: int, day: Time, ghost v: View)
      returns (verdict: Verdict)
      requires id < |tx.orders| && p.Execute? && tx.orders[id].side == Sell && v.day == day
      requires tx.orders[id].agent in tx.accounts ==>
        && var o := tx.orders[id];
           var e := SellExecution(v, tx.accounts[o.agent].HeldQty(o.symbol),
                                  FilledBuyQtyOnSession(tx.orders, o.agent, o.symbol, day),
                                  FillQty(o, p.qty), p.qty, p.price);
           br == e.fees && delivered == e.delivered
      modifies tx
      ensures |tx.orders| == old(|tx.orders|)
      ensures Realizes(old(tx.Tables()), tx.Tables(), id, verdict, Settle(old(tx.Tables()), v, old(tx.orders)[id], p))
    {
      var o := tx.orders[id];
      var fillQty := p.qty;
      if fillQty <= 0 {
        fillQty := o.WorkingQty();
      }
      if o.agent !in tx.accounts {
        return Reject(PortfolioNotFound);
      }
      var acc := tx.accounts[o.agent];
      var e := Execution(fillQty, p.price, br, delivered);
      ghost var bought := FilledBuyQtyOnSession(tx.orders, o.agent, o.symbol, day);
      ghost var out := Matching.FillSell(acc, v, o, p, bought);
      assert e == SellExecution(v, acc.HeldQty(o.symbol), bought, fillQty, p.qty, p.price);
      Books.FillSellDecides(acc, v, o, p, bought, e);
      if acc.HeldQty(o.symbol) < fillQty {
        return Reject(InsufficientHoldings);
      }
      if o.symbol !in acc.holdings {
        return Reject(PortfolioError);
      }
      var credit := br.TotalCredit(e.Value());
      RecordTrade(tx, id, acc.cash + credit, RemoveHolding(acc.holdings, o.symbol, fillQty), e, p, day);
      assert out.Traded? && out.account == BookSell(acc, o.symbol, fillQty, credit);
      verdict := Done;
    }

    /** tryFillOrder: one order against the daily bar. */
    method TryFillOrder(tx: Tx, id: nat, day: Time, caches: Caches, ghost v: View, ghost loaded: set<Symbol>)
      returns (verdict: Verdict)
      requires id < |tx.orders| && v == DayView(history, day)
      requires caches.Agrees(v, loaded) && tx.orders[id].symbol in loaded
      modifies tx, caches`prevClose
      ensures caches.Agrees(v, loaded) && |tx.orders| == old(|tx.orders|)
      ensures Realizes(old(tx.Tables()), tx.Tables(), id, verdict, TryFill(old(tx.Tables()), v, old(tx.orders)[id]))
    {
      var o := tx.orders[id];
      DayViewBars(history, day, o.symbol);
      if o.agent in tx.accounts && tx.accounts[o.agent].disqualified {
        return Reject(AgentDisqualified);
      }
      if caches.breakerOn[o.symbol] {
        return Reject(CircuitBreakerTriggered);
      }
      if o.symbol !in history.listed {
        return Reject(InvalidSymbol);
      }
      var bar := BarOnDate(history, o.symbol, day).value;
      if BelowMinPrice(bar.open) {
        return Reject(BelowMinimumPrice);
      }
      var prevVol := caches.Volume(o.symbol);
      if LiquidityExceeded(o.quantity, prevVol) {
        return Reject(LiquidityLimitExceeded);
      }
      match ResolveFill(o.otype, o.side, o.LimitPrice(), bar)
      case DeferFill => verdict := Defer;
      case RejectFill(reason) => verdict := Reject(reason);
      case FillAt(price) =>
        var fillPx := ApplyMarketImpact(o.side, o.quantity, prevVol, price);
        var p := Execute(fillPx, o.quantity, 0, None);
        match o.side {
          case Buy => verdict := FillBuy(tx, id, caches, p, day, v, loaded);
          case Sell => verdict := FillSell(tx, id, p, SellFees(o.quantity as real * fillPx), o.quantity, day, v);
          case OtherSide => verdict := Reject(InvalidSide);
        }
    }

    /** The market side of tryFillHourly: price one slice of an order against an hourly bar. */
    method PlanSlice(o: Order, ts: Time, rate: real, next: Option<Time>, caches: Caches, ghost v: View,
                     ghost loaded: set<Symbol>)
      returns (p: Plan)
      requires v == HourView(history, ts, rate) && next == v.next
      requires caches.Agrees(v, loaded) && o.symbol in loaded
      ensures p == PlanHourly(v, o)
    {
      HourViewBars(history, ts, rate, o.symbol);
      if caches.breakerOn[o.symbol] {
        return Refuse(CircuitBreakerTriggered);
      }
      if o.symbol !in history.listed {
        return Refuse(InvalidSymbol);
      }
      var found := IntradayBarOnTs(history, o.symbol, ts);
      if found.None? {
        return Hold;
      }
      var bar := found.value;
      if BelowMinPrice(bar.open) {
        return Refuse(BelowMinimumPrice);
      }
      var prevVol := caches.Volume(o.symbol);
      if LiquidityExceeded(o.quantity, prevVol) {
        return Refuse(LiquidityLimitExceeded);
      }
      var remaining := o.WorkingQty();
      var path := ResolvePathFill(o.otype, o.side, o.LimitPrice(), remaining, bar, rate);
      match path
      case PathDefer => p := Hold;
      case PathReject(reason) => p := Refuse(reason);
      case PathFill(fillQty, price, aggressive) =>
        var fillPx := price;
        if aggressive {
          fillPx := ApplyAggressiveSpread(o.side, fillPx, HalfSpread(bar));
        }
        fillPx := ApplyMarketImpact(o.side, fillQty, prevVol, fillPx);
        var remainingAfter := remaining - fillQty;
        var nextMatch: Option<Time> := None;
        if remainingAfter > 0 && next.Some? {
          nextMatch := next;
        } else {
          remainingAfter := 0;
        }
        p := Execute(fillPx, fillQty, remainingAfter, nextMatch);
    }

    /** tryFillHourly: plan a slice, then settle it. */
    method TryFillHourly(tx: Tx, id: nat, ts: Time, day: Time, rate: real, next: Option<Time>, caches: Caches,
                         ghost v: View, ghost loaded: set<Symbol>)
      returns (verdict: Verdict)
      requires id < |tx.orders| && v == HourView(history, ts, rate) && day == v.day && next == v.next
      requires caches.Agrees(v, loaded) && tx.orders[id].symbol in loaded
      modifies tx, caches`prevClose
      ensures caches.Agrees(v, loaded) && |tx.orders| == old(|tx.orders|)
      ensures Realizes(old(tx.Tables()), tx.Tables(), id, verdict, TryFill(old(tx.Tables()), v, old(tx.orders)[id]))
    {
      var o := tx.orders[id];
      if o.agent in tx.accounts && tx.accounts[o.agent].disqualified {
        return Reject(AgentDisqualified);
      }
      var p := PlanSlice(o, ts, rate, next, caches, v, loaded);
      match p
      case Hold => verdict := Defer;
      case Refuse(reason) => verdict := Reject(reason);
      case Execute(price, fillQty, _, _) =>
        match o.side {
          case Buy => verdict := FillBuy(tx, id, caches, p, day, v, loaded);
          case Sell =>
            PlannedSliceIsPositive(v, o);
            var br, delivered := HourlySellFees(tx, o, fillQty, price, day, v);
            verdict := FillSell(tx, id, p, br, delivered, day, v);
          case OtherSide => verdict := Reject(InvalidSide);
        }
    }

    /** ListPendingForDate: due rows by creation rank. */
    method ListPendingForDate(tx: Tx, date: Time, ghost v: View) returns (ids: seq<nat>)
      requires !v.hourly && v.now == date
      ensures IsPendingList(v, tx.orders, ids)
    {
      ids := [];
      for i := 0 to |tx.orders|
        invariant IsPendingList(v, tx.orders[..i], ids)
      {
        if tx.orders[i].IsPending() && tx.orders[i].matchDate == date {
          ids := ids + [i];
        }
        assert forall r :: 0 <= r < i ==> tx.orders[..i + 1][r] == tx.orders[..i][r];
      }
      assert tx.orders[..|tx.orders|] == tx.orders;
    }

    /** ListPendingForTs: due rows by creation rank. */
    method ListPendingForTs(tx: Tx, ts: Time, ghost v: View) returns (ids: seq<nat>)
      requires v.hourly && v.now == ts
      ensures IsPendingList(v, tx.orders, ids)
    {
      ids := [];
      for i := 0 to |tx.orders|
        invariant IsPendingList(v, tx.orders[..i], ids)
      {
        if tx.orders[i].IsPending() && tx.orders[i].matchTs == Some(ts) {
          ids := ids + [i];
        }
        assert forall r :: 0 <= r < i ==> tx.orders[..i + 1][r] == tx.orders[..i][r];
      }
      assert tx.orders[..|tx.orders|] == tx.orders;
    }

    /** Breaker, previous close and volume of every pending symbol, once each (daily). */
    method LoadDay(caches: Caches, tx: Tx, ids: seq<nat>, day: Time, ghost v: View) returns (ghost loaded: set<Symbol>)
      requires v == DayView(history, day) && IsPendingList(v, tx.orders, ids) && caches.Agrees(v, {})
      modifies caches
      ensures caches.Agrees(v, loaded) && forall k :: 0 <= k < |ids| ==> tx.orders[ids[k]].symbol in loaded
    {
      var seen: set<Symbol> := {};
      loaded := {};
      for k := 0 to |ids|
        invariant caches.Agrees(v, loaded) && seen == loaded
        invariant forall j :: 0 <= j < k ==> tx.orders[ids[j]].symbol in loaded
      {
        var s := tx.orders[ids[k]].symbol;
        if s !in seen {
          DaySymbol(history, day, s);
          LoadDaySymbol(caches, s, day, v, loaded);
          seen, loaded := seen + {s}, loaded + {s};
        }
      }
    }

    method LoadDaySymbol(caches: Caches, s: Symbol, day: Time, ghost v: View, ghost loaded: set<Symbol>)
      requires caches.Agrees(v, loaded) && s !in loaded
      requires var bar, prev := BarOnDate(history, s, day), PrevTradingDayBar(history, s, day);
        && v.PrevClose(s) == (if prev.Some? then prev.value.close else 0.0)
        && v.PrevVolume(s) == (if prev.Some? then prev.value.volume else 0)
        && v.BreakerOn(s) == (bar.None? || (prev.Some? && CircuitTriggered(bar.value.open, prev.value.close)))
      modifies caches
      ensures caches.Agrees(v, loaded + {s})
    {
      var bar := BarOnDate(history, s, day);
      if bar.None? {
        caches.breakerOn := caches.breakerOn[s := true];
        return;
      }
      var prev := PrevTradingDayBar(history, s, day);
      if prev.None? {
        caches.prevClose := caches.prevClose[s := 0.0];
        caches.prevVol := caches.prevVol[s := 0];
        caches.breakerOn := caches.breakerOn[s := false];
        return;
      }
      caches.prevClose := caches.prevClose[s := prev.value.close];
      caches.prevVol := caches.prevVol[s := prev.value.volume];
      caches.breakerOn := caches.breakerOn[s := CircuitTriggered(bar.value.open, prev.value.close)];
    }

    /** The band scan over the session so far stops at the first breach. */
    method ScanSession(s: Symbol, ts: Time, prevClose: real) returns (halt: bool)
      requires prevClose == PrevCloseOf(history, s, SessionCalendarUTC(ts))
      ensures halt <==> SessionHalted(history, s, ts)
    {
      var bars := SessionBarsUpTo(history, s, ts, ts);
      halt := false;
      for i := 0 to |bars|
        invariant !halt && forall j :: 0 <= j < i ==> !BreachAt(history, s, bars[j], SessionCalendarUTC(ts))
      {
        SessionBarsAre(history, s, ts, ts, bars[i]);
        var b := Find(history.hourly, s, bars[i]).value;
        if CircuitBandBreached(b.high, b.low, prevClose) {
          assert bars[i] in bars && BreachAt(history, s, bars[i], SessionCalendarUTC(ts));
          halt := true;
          break;
        }
      }
    }

    /** One hourly symbol: previous day's close and volume, and a scan of the session so far for a band breach. */
    method LoadHourSymbol(caches: Caches, s: Symbol, ts: Time, day: Time, ghost v: View, ghost loaded: set<Symbol>)
      requires caches.Agrees(v, loaded) && s !in loaded && s !in caches.prevVol && day == SessionCalendarUTC(ts)
      requires var prev := PrevTradingDayBar(history, s, day);
        && v.PrevClose(s) == PrevCloseOf(history, s, day) == (if prev.Some? then prev.value.close else 0.0)
        && v.PrevVolume(s) == (if prev.Some? then prev.value.volume else 0)
        && v.BreakerOn(s) == SessionHalted(history, s, ts)
      modifies caches
      ensures caches.Agrees(v, loaded + {s}) && caches.prevVol.Keys <= old(caches.prevVol.Keys) + {s}
    {
      var prev := PrevTradingDayBar(history, s, day);
      if prev.Some? {
        caches.prevClose := caches.prevClose[s := prev.value.close];
        caches.prevVol := caches.prevVol[s := prev.value.volume];
      }
      var halt := ScanSession(s, ts, if s in caches.prevClose then caches.prevClose[s] else 0.0);
      caches.breakerOn := caches.breakerOn[s := halt];
    }

    method LoadHour(caches: Caches, tx: Tx, ids: seq<nat>, ts: Time, day: Time, rate: real, ghost v: View)
      returns (ghost loaded: set<Symbol>)
      requires v == HourView(history, ts, rate) && day == v.day && IsPendingList(v, tx.orders, ids)
      requires caches.Agrees(v, {}) && caches.prevVol == map[]
      modifies caches
      ensures caches.Agrees(v, loaded) && forall k :: 0 <= k < |ids| ==> tx.orders[ids[k]].symbol in loaded
    {
      var seen: set<Symbol> := {};
      loaded := {};
      for k := 0 to |ids|
        invariant caches.Agrees(v, loaded) && seen == loaded && caches.prevVol.Keys <= seen
        invariant forall j :: 0 <= j < k ==> tx.orders[ids[j]].symbol in loaded
      {
        var s := tx.orders[ids[k]].symbol;
        if s !in seen {
          HourSymbol(history, ts, rate, s);
          LoadHourSymbol(caches, s, ts, day, v, loaded);
          seen, loaded := seen + {s}, loaded + {s};
        }
      }
    }

    /** A deferred daily order waits for the market's next trading day, or is rejected at the end of the data. */
    method DeferDay(tx: Tx, id: nat, day: Time, ghost v: View)
      requires id < |tx.orders| && v == DayView(history, day)
      modifies tx`orders
      ensures tx.orders == old(tx.orders)[id := Postpone(v, old(tx.orders)[id])]
    {
      match NextTradingDay(history, day)
      case None => tx.UpdateRow(id, MarkRejected(tx.orders[id], NotFilledBeforeEnd));
      case Some(next) => tx.UpdateRow(id, UpdateMatchOnDate(tx.orders[id], next));
    }

    /** A deferred hourly order waits for the session's next bar; on the last one it closes or expires. */
    method DeferHour(tx: Tx, id: nat, day: Time, next: Option<Time>, ghost v: View)
      requires id < |tx.orders| && v.hourly && next == v.next && day == v.day
      modifies tx`orders
      ensures tx.orders == old(tx.orders)[id := Postpone(v, old(tx.orders)[id])]
    {
      var o := tx.orders[id];
      if next.None? {
        if o.filledQty > 0 {
          tx.UpdateRow(id, ApplySliceFill(o, Execution(0, 0.0, NO_FEES, 0), 0, day, None));
        } else {
          tx.UpdateRow(id, MarkRejected(o, DayOrderExpired));
        }
      } else {
        tx.UpdateRow(id, UpdateMatchOnTs(o, next.value, day));
      }
    }

    method MatchOneDay(tx: Tx, id: nat, day: Time, caches: Caches, ghost v: View, ghost loaded: set<Symbol>)
      requires id < |tx.orders| && v == DayView(history, day) && Due(v, tx.orders[id])
      requires caches.Agrees(v, loaded) && tx.orders[id].symbol in loaded
      modifies tx, caches`prevClose
      ensures caches.Agrees(v, loaded) && tx.Tables() == MatchStep(old(tx.Tables()), v, id)
    {
      var verdict := TryFillOrder(tx, id, day, caches, v, loaded);
      match verdict {
        case Done =>
        case Defer => DeferDay(tx, id, day, v);
        case Reject(reason) => tx.UpdateRow(id, MarkRejected(tx.orders[id], reason));
      }
    }

    method MatchOneHour(tx: Tx, id: nat, ts: Time, day: Time, rate: real, next: Option<Time>, caches: Caches,
                        ghost v: View, ghost loaded: set<Symbol>)
      requires id < |tx.orders| && v == HourView(history, ts, rate) && Due(v, tx.orders[id])
      requires day == v.day && next == v.next && caches.Agrees(v, loaded) && tx.orders[id].symbol in loaded
      modifies tx, caches`prevClose
      ensures caches.Agrees(v, loaded) && tx.Tables() == MatchStep(old(tx.Tables()), v, id)
    {
      var verdict := TryFillHourly(tx, id, ts, day, rate, next, caches, v, loaded);
      match verdict {
        case Done =>
        case Defer => DeferHour(tx, id, day, next, v);
        case Reject(reason) => tx.UpdateRow(id, MarkRejected(tx.orders[id], reason));
      }
    }

    /** The daily order loop is the matching scan. */
    method MatchDay(tx: Tx, ids: seq<nat>, day: Time, caches: Caches, ghost v: View, ghost loaded: set<Symbol>)
      requires v == DayView(history, day) && IsPendingList(v, tx.orders, ids) && caches.Agrees(v, loaded)
      requires forall k :: 0 <= k < |ids| ==> tx.orders[ids[k]].symbol in loaded
      modifies tx, caches`prevClose
      ensures tx.Tables() == MatchFrom(old(tx.Tables()), v, 0)
    {
      ghost var start := tx.Tables();
      ProgressBegins(start, v, ids);
      for k := 0 to |ids|
        invariant caches.Agrees(v, loaded) && Progress(start, tx.Tables(), v, ids, k)
      {
        ProgressStep(start, tx.Tables(), v, ids, k);
        MatchOneDay(tx, ids[k], day, caches, v, loaded);
      }
    }

    /** The hourly order loop is the matching scan. */
    method MatchHour(tx: Tx, ids: seq<nat>, ts: Time, day: Time, rate: real, next: Option<Time>, caches: Caches,
                     ghost v: View, ghost loaded: set<Symbol>)
      requires v == HourView(history, ts, rate) && day == v.day && next == v.next
      requires IsPendingList(v, tx.orders, ids) && caches.Agrees(v, loaded)
      requires forall k :: 0 <= k < |ids| ==> tx.orders[ids[k]].symbol in loaded
      modifies tx, caches`prevClose
      ensures tx.Tables() == MatchFrom(old(tx.Tables()), v, 0)
    {
      ghost var start := tx.Tables();
      ProgressBegins(start, v, ids);
      for k := 0 to |ids|
        invariant caches.Agrees(v, loaded) && Progress(start, tx.Tables(), v, ids, k)
      {
        ProgressStep(start, tx.Tables(), v, ids, k);
        MatchOneHour(tx, ids[k], ts, day, rate, next, caches, v, loaded);
      }
    }

    /** The close an end-of-session snapshot marks a holding at, if the market has one. */
    function Mark(hourly: bool, s: Symbol, now: Time): Option<Bar> {
      if hourly then IntradayBarAtOrBefore(history, s, now) else BarOnDate(history, s, now)
    }

    /** Invested value at the session's closes; a holding without one is an error. */
    method Invested(held: map<Symbol, Holding>, hourly: bool, now: Time, ghost v: View) returns (r: Option<real>)
      requires forall s :: Mark(hourly, s, now).Some? <==> s in v.marks
      requires forall s :: s in v.marks ==> v.marks[s] == Mark(hourly, s, now).value.close
      ensures r.Some? <==> held.Keys <= v.marks.Keys
      ensures r.Some? ==> r.value == MarkedValue(held, v.marks)
    {
      var invested := 0.0;
      var left := held;
      while left != map[]
        invariant left.Keys <= held.Keys && (forall s :: s in held && s !in left ==> s in v.marks)
        invariant held.Keys <= v.marks.Keys ==> invested + MarkedValue(left, v.marks) == MarkedValue(held, v.marks)
        decreases |left|
      {
        var s :| s in left;
        var bar := Mark(hourly, s, now);
        if bar.None? {
          return None;
        }
        var worth := left[s].quantity as real * bar.value.close;
        if held.Keys <= v.marks.Keys {
          TakeHolding(left, v.marks, s, bar.value.close);
        }
        invested, left := invested + worth, left - {s};
      }
      r := Some(invested);
    }

    /** One agent's snapshot; false means its holdings could not be marked. */
    method Snapshot(acc: Account, hourly: bool, now: Time, day: Time, ghost v: View) returns (ok: bool, acc': Account)
      requires day == v.day
      requires forall s :: Mark(hourly, s, now).Some? <==> s in v.marks
      requires forall s :: s in v.marks ==> v.marks[s] == Mark(hourly, s, now).value.close
      ensures ok <==> Markable(acc, v)
      ensures ok ==> acc' == CloseAccount(acc, v)
    {
      acc' := acc;
      if acc.disqualified {
        match acc.LastSnapshot() {
          case None =>
          case Some(last) => acc' := acc.(snapshots := acc.snapshots[day := last]);
        }
        return true, acc';
      }
      var value := Invested(acc.holdings, hourly, now, v);
      if value.None? {
        return false, acc;
      }
      var total := acc.cash + value.value;
      acc' := acc.(snapshots := acc.snapshots[day := Ledger.Snapshot(total, acc.cash, value.value)]);
      if total <= 0.0 {
        acc' := acc'.(disqualified := true);
      }
      ok := true;
    }

    /** The snapshot loop over all agents. */
    method WriteSnapshots(tx: Tx, hourly: bool, now: Time, day: Time, ghost v: View) returns (ok: bool)
      requires day == v.day
      requires forall s :: Mark(hourly, s, now).Some? <==> s in v.marks
      requires forall s :: s in v.marks ==> v.marks[s] == Mark(hourly, s, now).value.close
      modifies tx`accounts
      ensures ok <==> CloseAccounts(old(tx.Tables()), v).Some?
      ensures ok ==> CloseAccounts(old(tx.Tables()), v) == Some(tx.Tables())
    {
      ghost var was := tx.accounts;
      var left := tx.accounts.Keys;
      while left != {}
        invariant tx.accounts.Keys == was.Keys && left <= was.Keys && tx.orders == old(tx.orders)
        invariant forall a :: a in left ==> tx.accounts[a] == was[a]
        invariant forall a :: a in was && a !in left ==>
          Markable(was[a], v) && tx.accounts[a] == CloseAccount(was[a], v)
        decreases |left|
      {
        var a :| a in left;
        var marked, acc := Snapshot(tx.accounts[a], hourly, now, day, v);
        if !marked {
          return false;
        }
        tx.accounts := tx.accounts[a := acc];
        left := left - {a};
      }
      ok := true;
      ghost var closed := CloseAccounts(old(tx.Tables()), v);
      assert closed.value.accounts == tx.accounts;
    }

    /**
     * One daily session: match the pending orders of the date, then snapshot every agent, in one transaction.  The
     * caches make no difference: the new tables are the matching function's, and an error leaves them as they were.
     */
    method ProcessSimulationDay(day: Time) returns (ok: bool)
      modifies this`orders, this`accounts
      ensures match ProcessSession(old(Tables()), DayView(history, day))
        case Some(w) => ok && Tables() == w
        case None => !ok && Tables() == old(Tables())
    {
      ghost var v := DayView(history, day);
      var tx := new Tx(orders, accounts);
      var caches := new Caches();
      var ids := ListPendingForDate(tx, day, v);
      ghost var loaded := LoadDay(caches, tx, ids, day, v);
      MatchDay(tx, ids, day, caches, v, loaded);
      DayMarks(day);
      ok := WriteSnapshots(tx, false, day, day, v);
      if ok {
        Commit(tx);
      }
    }

    /** One hourly bar: match the orders due at it, and on the session's last bar snapshot every agent. */
    method ProcessSimulationBar(ts: Time, rate: real) returns (ok: bool)
      modifies this`orders, this`accounts
      ensures match ProcessSession(old(Tables()), HourView(history, ts, rate))
        case Some(w) => ok && Tables() == w
        case None => !ok && Tables() == old(Tables())
    {
      ghost var v := HourView(history, ts, rate);
      var day := SessionCalendarUTC(ts);
      var nextBar := NextBar(history, ts);
      var lastOfSession := nextBar.None? || !SameSession(ts, nextBar.value);
      var next: Option<Time> := if lastOfSession then None else nextBar;
      var tx := new Tx(orders, accounts);
      var caches := new Caches();
      var ids := ListPendingForTs(tx, ts, v);
      ghost var loaded := LoadHour(caches, tx, ids, ts, day, rate, v);
      MatchHour(tx, ids, ts, day, rate, next, caches, v, loaded);
      ok := true;
      if lastOfSession {
        HourMarks(ts, rate);
        ok := WriteSnapshots(tx, true, ts, day, v);
      }
      if ok {
        Commit(tx);
      }
    }

    lemma DayMarks(day: Time)
      ensures var v := DayView(history, day);
        forall s :: (Mark(false, s, day).Some? <==> s in v.marks)
          && (s in v.marks ==> v.marks[s] == Mark(false, s, day).value.close)
    {
      forall s
        ensures Mark(false, s, day).Some? <==> s in DayView(history, day).marks
        ensures s in DayView(history, day).marks ==> DayView(history, day).marks[s] == Mark(false, s, day).value.close
      {
        DayViewBars(history, day, s);
      }
    }

    lemma HourMarks(ts: Time, rate: real)
      ensures var v := HourView(history, ts, rate);
        forall s :: (Mark(true, s, ts).Some? <==> s in v.marks)
          && (s in v.marks ==> v.marks[s] == Mark(true, s, ts).value.close)
    {
      forall s
        ensures Mark(true, s, ts).Some? <==> s in HourView(history, ts, rate).marks
        ensures s in HourView(history, ts, rate).marks ==>
          HourView(history, ts, rate).marks[s] == Mark(true, s, ts).value.close
      {
        HourViewBars(history, ts, rate, s);
      }
    }
  }
}
