/** The books: what every order row, every account and the two together keep on every run. */
module Books {
  import opened Common
  import opened Fees
  import opened Market
  import opened Rules
  import opened Path
  import opened Ledger
  import opened Tape
  import opened Matching

  // ----- Order rows -----

  /** filled_quantity claims more than moved. */
  predicate Overstated(o: Order) {
    o.filledQty != o.trace.executed
  }

  ghost predicate FeesAgree(o: Order) {
    match o.side
    case Buy => o.fees == BuyFees(o.tradeValue)
    case Sell => o.fees == SellFeesMixed(o.trace.deliveredValue, o.tradeValue - o.trace.deliveredValue)
    case OtherSide => o.trace.executed == 0
  }

  /** A limit is beaten by at most the 0.05% impact the liquidity check leaves. */
  ghost predicate WithinLimit(o: Order) {
    o.otype == LimitOrder ==>
      var atLimit := o.trace.executed as real * o.LimitPrice();
      && (o.side == Buy ==> o.tradeValue <= 1.0005 * atLimit)
      && (o.side == Sell ==> o.tradeValue >= 0.9995 * atLimit)
  }

  ghost predicate OrderInv(o: Order) {
    && o.quantity > 0
    && 0 <= o.trace.delivered <= o.trace.executed <= o.quantity
    && o.filledPrice * o.trace.executed as real == o.tradeValue
    && (o.trace.executed == 0 ==> o.trace.deliveredValue == 0.0)
    && (o.trace.executed > 0 ==> o.tradeValue > 0.0)
    && (Overstated(o) ==> o.status == Filled && 0 < o.trace.executed < o.filledQty == o.quantity)
    && (o.IsPending() ==> o.remaining == Some(o.quantity - o.filledQty) && o.filledQty < o.quantity)
    && FeesAgree(o)
    && WithinLimit(o)
  }

  /** Net cash an order has moved into its agent's account. */
  function Flow(o: Order): real {
    match o.side
    case Buy => -(o.tradeValue + o.fees.total)
    case Sell => o.tradeValue - o.fees.total
    case OtherSide => 0.0
  }

  /** Net shares an order has moved into its agent's account. */
  function Shares(o: Order): int {
    match o.side
    case Buy => o.trace.executed
    case Sell => -o.trace.executed
    case OtherSide => 0
  }

  function FlowOf(a: AgentId): Order -> real {
    (o: Order) => if o.agent == a then Flow(o) else 0.0
  }

  function SharesOf(a: AgentId, s: Symbol): Order -> int {
    (o: Order) => if o.agent == a && o.symbol == s then Shares(o) else 0
  }

  // ----- Accounts -----

  ghost predicate Solvent(acc: Account) {
    && acc.cash >= 0.0
    && (forall s :: s in acc.holdings ==> acc.holdings[s].quantity > 0)
    && (acc.cash > 0.0 || acc.holdings != map[])
  }

  /** Cash and shares are exactly what the agent's order rows say moved. */
  ghost predicate Reconciled(orders: seq<Order>, a: AgentId, acc: Account) {
    && acc.cash == STARTING_CAPITAL + SumReal(orders, FlowOf(a))
    && forall s :: acc.HeldQty(s) == SumInt(orders, SharesOf(a, s))
  }

  /** A daily order trades whole or not at all. */
  predicate AllOrNothing(o: Order) {
    o.filledQty == o.trace.executed && (o.trace.executed == 0 || (o.status == Filled && o.trace.executed == o.quantity))
  }

  ghost predicate WorldInv(w: World, hourly: bool) {
    && (forall i :: 0 <= i < |w.orders| ==> OrderInv(w.orders[i]))
    && (!hourly ==> forall i :: 0 <= i < |w.orders| ==> AllOrNothing(w.orders[i]))
    && (forall i :: 0 <= i < |w.orders| && w.orders[i].agent !in w.accounts ==> w.orders[i].trace.executed == 0)
    && (forall a :: a in w.accounts ==> Solvent(w.accounts[a]) && Reconciled(w.orders, a, w.accounts[a]))
  }

  // ----- One execution -----

  /** The facts about a slice that its booking relies on. */
  ghost predicate Bookable(o: Order, e: Execution, remainingAfter: int, next: Option<Time>) {
    && o.IsPending() && 0 < e.qty <= o.WorkingQty() && e.price > 0.0
    && 0 <= e.delivered <= e.qty
    && (if next.Some? then remainingAfter == o.WorkingQty() - e.qty > 0 else remainingAfter == 0)
    && (match o.side
        case Buy => e.fees == BuyFees(e.Value())
        case Sell => e.fees == SellFeesMixed(e.delivered as real * e.price, (e.qty - e.delivered) as real * e.price)
        case OtherSide => false)
    && (o.otype == LimitOrder && o.side == Buy ==> e.price <= 1.0005 * o.LimitPrice())
    && (o.otype == LimitOrder && o.side == Sell ==> e.price >= 0.9995 * o.LimitPrice())
  }

  lemma AveragePrice(p: real, f: real, px: real, q: real)
    requires f + q > 0.0
    ensures (p * f + px * q) / (f + q) * (f + q) == p * f + px * q
  {
  }

  lemma IntradayRest(e: Execution)
    ensures (e.qty - e.delivered) as real * e.price == e.Value() - e.delivered as real * e.price
  {
  }

  lemma ScaleBound(px: real, bound: real, q: real)
    requires q > 0.0
    ensures px <= bound ==> q * px <= q * bound
    ensures px >= bound ==> q * px >= q * bound
    ensures px > 0.0 ==> q * px > 0.0
  {
  }

  /** Whichever update statement records it, an execution adds its value, fees and shares to the row. */
  lemma RecordAdds(o: Order, e: Execution, remainingAfter: int, day: Time, next: Option<Time>)
    requires OrderInv(o) && Bookable(o, e, remainingAfter, next)
    ensures var o' := RecordFill(o, e, remainingAfter, day, next);
      && o'.SameTerms(o) && o'.trace == e.AddTo(o.trace)
      && o'.tradeValue == o.tradeValue + e.Value()
      && o'.fees == o.fees.Plus(e.fees)
  {
  }

  lemma RecordStatus(o: Order, e: Execution, remainingAfter: int, day: Time, next: Option<Time>)
    requires OrderInv(o) && Bookable(o, e, remainingAfter, next)
    ensures var o' := RecordFill(o, e, remainingAfter, day, next);
      && (Overstated(o') <==> o.filledQty == 0 && next.None? && e.qty < o.quantity)
      && (Overstated(o') ==> o'.status == Filled && o'.filledQty == o'.quantity)
      && (o'.IsPending() ==> o'.remaining == Some(o'.quantity - o'.filledQty) && o'.filledQty < o'.quantity)
      && (o'.IsPending() <==> next.Some?)
  {
  }

  lemma RecordPrice(o: Order, e: Execution, remainingAfter: int, day: Time, next: Option<Time>)
    requires OrderInv(o) && Bookable(o, e, remainingAfter, next)
    ensures var o' := RecordFill(o, e, remainingAfter, day, next);
      o'.filledPrice * o'.trace.executed as real == o'.tradeValue
  {
    AveragePrice(o.filledPrice, o.filledQty as real, e.price, e.qty as real);
    assert (o.filledQty + e.qty) as real == o.filledQty as real + e.qty as real;
  }

  lemma RecordFees(o: Order, o': Order, fees: Breakdown, value: real, delivered: real)
    requires FeesAgree(o) && o.side != OtherSide && o'.side == o.side
    requires o'.tradeValue == o.tradeValue + value
    requires o'.trace.deliveredValue == o.trace.deliveredValue + delivered
    requires o'.fees == o.fees.Plus(fees)
    requires fees == if o.side == Buy then BuyFees(value) else SellFeesMixed(delivered, value - delivered)
    ensures FeesAgree(o')
  {
    FeesAreAdditive(o.tradeValue, value, 0.0, 0.0);
    MixedFeesAreAdditive(o.tradeValue, o.trace.deliveredValue, value, delivered);
  }

  lemma RecordLimit(o: Order, o': Order, e: Execution)
    requires WithinLimit(o) && o'.SameTerms(o) && o'.trace == e.AddTo(o.trace) && e.qty > 0
    requires o'.tradeValue == o.tradeValue + e.Value()
    requires o.otype == LimitOrder && o.side == Buy ==> e.price <= 1.0005 * o.LimitPrice()
    requires o.otype == LimitOrder && o.side == Sell ==> e.price >= 0.9995 * o.LimitPrice()
    ensures WithinLimit(o')
  {
    var f, q, limit := o.trace.executed as real, e.qty as real, o.LimitPrice();
    assert (o.trace.executed + e.qty) as real == f + q;
    assert (f + q) * limit == f * limit + q * limit;
    ScaleBound(e.price, 1.0005 * limit, q);
    ScaleBound(e.price, 0.9995 * limit, q);
  }

  /** Adding an execution to a row moves its net cash by the debit or credit. */
  lemma RecordFlow(o: Order, o': Order, e: Execution)
    requires o.side != OtherSide && o'.SameTerms(o)
    requires o'.tradeValue == o.tradeValue + e.Value() && o'.fees == o.fees.Plus(e.fees)
    ensures Flow(o') ==
      Flow(o) + (if o.side == Buy then -e.fees.TotalDebit(e.Value()) else e.fees.TotalCredit(e.Value()))
  {
  }

  /** A recorded execution keeps the row's laws. */
  lemma RecordKeepsLaws(o: Order, e: Execution, remainingAfter: int, day: Time, next: Option<Time>)
    requires OrderInv(o) && Bookable(o, e, remainingAfter, next)
    ensures OrderInv(RecordFill(o, e, remainingAfter, day, next))
  {
    var o' := RecordFill(o, e, remainingAfter, day, next);
    RecordAdds(o, e, remainingAfter, day, next);
    RecordStatus(o, e, remainingAfter, day, next);
    RecordPrice(o, e, remainingAfter, day, next);
    assert FeesAgree(o') by {
      IntradayRest(e);
      RecordFees(o, o', e.fees, e.Value(), e.delivered as real * e.price);
    }
    assert WithinLimit(o') by {
      RecordLimit(o, o', e);
    }
    assert e.Value() > 0.0 by {
      ScaleBound(e.price, e.price, e.qty as real);
    }
  }

  /**
   * Booking an execution keeps the row's laws and adds exactly its debit or credit to what the row moved.  The
   * recorded quantity overstates it exactly when a first slice is partial and nothing is carried over.
   */
  lemma BookingLemma(o: Order, e: Execution, remainingAfter: int, day: Time, next: Option<Time>)
    requires OrderInv(o) && Bookable(o, e, remainingAfter, next)
    ensures var o' := RecordFill(o, e, remainingAfter, day, next);
      && OrderInv(o') && o'.SameTerms(o)
      && o'.trace.executed == o.trace.executed + e.qty
      && Flow(o') == Flow(o) + (if o.side == Buy then -e.fees.TotalDebit(e.Value()) else e.fees.TotalCredit(e.Value()))
      && (Overstated(o') <==> o.filledQty == 0 && next.None? && e.qty < o.quantity)
  {
    RecordKeepsLaws(o, e, remainingAfter, day, next);
    RecordAdds(o, e, remainingAfter, day, next);
    RecordStatus(o, e, remainingAfter, day, next);
    RecordFlow(o, RecordFill(o, e, remainingAfter, day, next), e);
  }

  // ----- One order -----

  /** A plan to trade is priced above zero, within the liquidity bound, and respects limits up to the impact. */
  lemma PlanFacts(v: View, o: Order)
    requires v.Sound() && OrderInv(o) && o.IsPending() && (!v.hourly ==> AllOrNothing(o))
    requires PlanFor(v, o).Execute?
    ensures Tradable(o, PlanFor(v, o))
    ensures var p := PlanFor(v, o);
      && (p.next.Some? ==> v.hourly && v.next.Some?)
      && (p.next.None? ==> p.qty == o.WorkingQty() || (v.hourly && v.next.None?))
      && (!v.hourly ==> p.qty == o.quantity)
  {
    var p := PlanFor(v, o);
    var bar, vol := v.bars[o.symbol], v.PrevVolume(o.symbol);
    if v.hourly {
      LiquidityNeedsVolume(o.quantity, vol);
      var path := ResolvePathFill(o.otype, o.side, o.LimitPrice(), o.WorkingQty(), bar, v.rate);
      QuotedPriceIsPositive(o.otype, o.side, o.LimitPrice(), o.WorkingQty(), bar, v.rate, v.PrevClose(o.symbol));
      QuotedPriceBound(o.otype, o.side, o.LimitPrice(), o.WorkingQty(), bar, v.rate);
      ImpactIsSmall(o.side, o.quantity, path.qty, vol, QuotedPrice(o.side, path, bar));
    } else {
      var r := ResolveFill(o.otype, o.side, o.LimitPrice(), bar);
      ImpactIsSmall(o.side, o.quantity, o.quantity, vol, r.price);
    }
  }

  /** An hourly market slice trades within the bar widened by the half-spread, give or take the 0.05% impact. */
  lemma MarketSliceBound(v: View, o: Order)
    requires v.Sound() && v.hourly && OrderInv(o) && o.IsPending() && o.otype == MarketOrder
    requires PlanFor(v, o).Execute?
    ensures var bar, price := v.bars[o.symbol], PlanFor(v, o).price;
      0.9995 * (bar.low - HalfSpread(bar)) <= price <= 1.0005 * (bar.high + HalfSpread(bar))
  {
    var bar, vol := v.bars[o.symbol], v.PrevVolume(o.symbol);
    var path := ResolvePathFill(o.otype, o.side, o.LimitPrice(), o.WorkingQty(), bar, v.rate);
    LiquidityNeedsVolume(o.quantity, vol);
    QuotedPriceIsPositive(o.otype, o.side, o.LimitPrice(), o.WorkingQty(), bar, v.rate, v.PrevClose(o.symbol));
    QuotedPriceBound(o.otype, o.side, o.LimitPrice(), o.WorkingQty(), bar, v.rate);
    ImpactIsSmall(o.side, o.quantity, path.qty, vol, QuotedPrice(o.side, path, bar));
  }

  /** What a trade does to an account: cash and one holding move, nothing else. */
  ghost predicate Moved(acc: Account, acc': Account, s: Symbol, cash: real, shares: int) {
    && acc'.cash == acc.cash + cash
    && (forall t :: acc'.HeldQty(t) == acc.HeldQty(t) + if t == s then shares else 0)
    && acc' == acc.(cash := acc'.cash, holdings := acc'.holdings)
    && Solvent(acc')
  }

  lemma BookBuyMoves(acc: Account, s: Symbol, qty: int, price: real, debit: real)
    requires Solvent(acc) && qty > 0 && debit <= acc.cash
    ensures Moved(acc, BookBuy(acc, s, qty, price, debit), s, -debit, qty)
  {
    assert s in BookBuy(acc, s, qty, price, debit).holdings;
  }

  lemma BookSellMoves(acc: Account, s: Symbol, qty: int, credit: real)
    requires Solvent(acc) && 0 < qty <= acc.HeldQty(s) && credit > 0.0
    ensures Moved(acc, BookSell(acc, s, qty, credit), s, credit, -qty)
  {
  }

  /** What one trade does to its row and its account. */
  ghost predicate TradeEffect(o: Order, o': Order, acc: Account, acc': Account) {
    && OrderInv(o') && o'.SameTerms(o) && o'.trace.executed > o.trace.executed
    && Moved(acc, acc', o.symbol, Flow(o') - Flow(o), Shares(o') - Shares(o))
  }

  ghost predicate Tradable(o: Order, p: Plan) {
    && p.Execute? && OrderInv(o) && o.IsPending()
    && 0 < p.qty <= o.WorkingQty() && p.price > 0.0
    && (if p.next.Some? then p.remainingAfter == o.WorkingQty() - p.qty > 0 else p.remainingAfter == 0)
    && (o.otype == LimitOrder && o.side == Buy ==> p.price <= 1.0005 * o.LimitPrice())
    && (o.otype == LimitOrder && o.side == Sell ==> p.price >= 0.9995 * o.LimitPrice())
  }

  function BuyExecution(p: Plan): Execution
    requires p.Execute?
  {
    BuyAt(p.qty, p.price)
  }

  /** fillBuy's decisions, on the values the method has computed. */
  lemma FillBuyDecides(acc: Account, v: View, o: Order, p: Plan, e: Execution, pv: real, debit: real, exposure: real)
    requires p.Execute? && e == BuyAt(FillQty(o, p.qty), p.price)
    requires pv == acc.cash + MarkedValue(acc.holdings, v.PrevMarks(acc.holdings.Keys))
    requires debit == e.fees.TotalDebit(e.Value())
    requires exposure == Exposure(acc.HeldQty(o.symbol) + e.qty, v.PrevClose(o.symbol))
    ensures FillBuy(acc, v, o, p) == BuyOutcome(acc, v, o, p, e, debit, exposure, pv)
  {
  }

  /** fillSell's decisions, on the values the method has computed. */
  lemma FillSellDecides(acc: Account, v: View, o: Order, p: Plan, bought: int, e: Execution)
    requires p.Execute? && e == SellExecution(v, acc.HeldQty(o.symbol), bought, FillQty(o, p.qty), p.qty, p.price)
    ensures FillSell(acc, v, o, p, bought) ==
      if acc.HeldQty(o.symbol) < e.qty then Refused(InsufficientHoldings)
      else if o.symbol !in acc.holdings then Refused(PortfolioError)
      else Traded(RecordFill(o, e, p.remainingAfter, v.day, p.next),
                  BookSell(acc, o.symbol, e.qty, e.fees.TotalCredit(e.Value())))
  {
  }

  lemma FillBuyBooks(acc: Account, v: View, o: Order, p: Plan)
    requires p.Execute? && p.qty > 0 && FillBuy(acc, v, o, p).Traded?
    ensures var out, e := FillBuy(acc, v, o, p), BuyExecution(p);
      && out.order == RecordFill(o, e, p.remainingAfter, v.day, p.next)
      && out.account == BookBuy(acc, o.symbol, p.qty, p.price, e.fees.TotalDebit(e.Value()))
      && e.fees.TotalDebit(e.Value()) <= acc.cash
  {
    var e := BuyExecution(p);
    FillBuyDecides(acc, v, o, p, e, acc.cash + MarkedValue(acc.holdings, v.PrevMarks(acc.holdings.Keys)),
                   e.fees.TotalDebit(e.Value()), Exposure(acc.HeldQty(o.symbol) + e.qty, v.PrevClose(o.symbol)));
  }

  /** What a committed buy passed: the position it leaves, at previous closes, is not over the limit. */
  lemma FillBuyWithin(acc: Account, v: View, o: Order, p: Plan, held: int, px: real, before: real)
    requires p.Execute? && p.qty > 0 && FillBuy(acc, v, o, p).Traded?
    requires held == acc.HeldQty(o.symbol) + p.qty && px == v.PrevClose(o.symbol)
    requires before == acc.cash + MarkedValue(acc.holdings, v.PrevMarks(acc.holdings.Keys))
    ensures !ConcentrationExceeded(Exposure(held, px), before)
  {
  }

  /**
   * A committed buy is paid for in full, and leaves the position, at previous closes, within a fifth of what the whole
   * portfolio was worth at previous closes before the trade.
   */
  lemma BuyStaysConcentrated(acc: Account, v: View, o: Order, p: Plan, held: int, px: real, before: real)
    requires v.Sound() && Tradable(o, p) && Solvent(acc) && FillBuy(acc, v, o, p).Traded?
    requires held == FillBuy(acc, v, o, p).account.HeldQty(o.symbol) && px == v.PrevClose(o.symbol)
    requires before == acc.cash + MarkedValue(acc.holdings, v.PrevMarks(acc.holdings.Keys))
    ensures 0.0 <= FillBuy(acc, v, o, p).account.cash < acc.cash <= before
    ensures held as real * px <= 0.2 * before + 0.000000001
  {
    var e := BuyExecution(p);
    FillBuyBooks(acc, v, o, p);
    BuyDebit(p);
    BookBuyMoves(acc, o.symbol, p.qty, p.price, e.fees.TotalDebit(e.Value()));
    assert before >= acc.cash by {
      MarkedValueAtLeastZero(acc.holdings, v.PrevMarks(acc.holdings.Keys));
    }
    assert held as real * px <= 0.2 * before + 0.000000001 by {
      FillBuyWithin(acc, v, o, p, held, px, before);
      WithinFifth(held, px, before);
    }
  }

  lemma WithinFifth(held: int, px: real, before: real)
    requires before > 0.0 && !ConcentrationExceeded(Exposure(held, px), before)
    ensures held as real * px <= 0.2 * before + 0.000000001
  {
  }

  lemma BuyDebit(p: Plan)
    requires p.Execute? && p.qty > 0 && p.price > 0.0
    ensures var e := BuyExecution(p); e.fees.TotalDebit(e.Value()) > e.Value() > 0.0
  {
    ScaleBound(p.price, p.price, p.qty as real);
  }

  /** Booking a slice that buys. */
  lemma BuyBooking(o: Order, p: Plan, day: Time)
    requires Tradable(o, p) && o.side == Buy
    ensures var e := BuyExecution(p);
      var o' := RecordFill(o, e, p.remainingAfter, day, p.next);
      && OrderInv(o') && o'.SameTerms(o)
      && o'.trace.executed == o.trace.executed + p.qty && Flow(o') - Flow(o) == -e.fees.TotalDebit(e.Value())
      && (Overstated(o') <==> o.filledQty == 0 && p.next.None? && p.qty < o.quantity)
  {
    BookingLemma(o, BuyExecution(p), p.remainingAfter, day, p.next);
  }

  lemma FillBuyEffect(acc: Account, v: View, o: Order, p: Plan)
    requires Tradable(o, p) && Solvent(acc) && o.side == Buy
    requires FillBuy(acc, v, o, p).Traded?
    ensures var out := FillBuy(acc, v, o, p);
      TradeEffect(o, out.order, acc, out.account) && out.order.trace.executed == o.trace.executed + p.qty
    ensures Overstated(FillBuy(acc, v, o, p).order) <==> o.filledQty == 0 && p.next.None? && p.qty < o.quantity
  {
    var e := BuyExecution(p);
    FillBuyBooks(acc, v, o, p);
    BuyBooking(o, p, v.day);
    BookBuyMoves(acc, o.symbol, p.qty, p.price, e.fees.TotalDebit(e.Value()));
  }

  /** An execution is a sale of a slice: it is taxed by its delivery and intraday parts. */
  ghost predicate SaleOf(e: Execution, qty: int, price: real) {
    && e.qty == qty && e.price == price && 0 <= e.delivered <= qty
    && e.fees == SellFeesMixed(e.delivered as real * price, (qty - e.delivered) as real * price)
  }

  lemma SellExecutionIsSale(v: View, held: int, bought: int, qty: int, price: real)
    requires qty > 0
    ensures SaleOf(SellExecution(v, held, bought, qty, qty, price), qty, price)
  {
  }

  /** A sale leaves a positive credit. */
  lemma SaleCredit(e: Execution, qty: int, price: real)
    requires SaleOf(e, qty, price) && qty > 0 && price > 0.0
    ensures e.fees.TotalCredit(e.Value()) > 0.0
  {
    var a, b, q := e.delivered as real, (qty - e.delivered) as real, qty as real;
    var x, y := a * price, b * price;
    assert e.fees == SellFeesMixed(x, y);
    SliceCreditIsPositive(a, b, q, price, x, y, e.Value());
  }

  /** Booking a slice that sells. */
  lemma SaleBooking(o: Order, e: Execution, p: Plan, day: Time)
    requires Tradable(o, p) && o.side == Sell && SaleOf(e, p.qty, p.price)
    ensures var o' := RecordFill(o, e, p.remainingAfter, day, p.next);
      && OrderInv(o') && o'.SameTerms(o)
      && o'.trace.executed == o.trace.executed + p.qty && Flow(o') - Flow(o) == e.fees.TotalCredit(e.Value())
      && (Overstated(o') <==> o.filledQty == 0 && p.next.None? && p.qty < o.quantity)
  {
    BookingLemma(o, e, p.remainingAfter, day, p.next);
  }

  lemma FillSellBooks(acc: Account, v: View, o: Order, p: Plan, bought: int)
    requires p.Execute? && p.qty > 0 && FillSell(acc, v, o, p, bought).Traded?
    ensures var out := FillSell(acc, v, o, p, bought);
      var e := SellExecution(v, acc.HeldQty(o.symbol), bought, p.qty, p.qty, p.price);
      && p.qty <= acc.HeldQty(o.symbol) && o.symbol in acc.holdings
      && out.order == RecordFill(o, e, p.remainingAfter, v.day, p.next)
      && out.account == BookSell(acc, o.symbol, p.qty, e.fees.TotalCredit(e.Value()))
  {
    FillSellDecides(acc, v, o, p, bought, SellExecution(v, acc.HeldQty(o.symbol), bought, p.qty, p.qty, p.price));
  }

  lemma FillSellEffect(acc: Account, v: View, o: Order, p: Plan, bought: int)
    requires Tradable(o, p) && Solvent(acc) && o.side == Sell
    requires FillSell(acc, v, o, p, bought).Traded?
    ensures var out := FillSell(acc, v, o, p, bought);
      TradeEffect(o, out.order, acc, out.account) && out.order.trace.executed == o.trace.executed + p.qty
    ensures Overstated(FillSell(acc, v, o, p, bought).order) <==> o.filledQty == 0 && p.next.None? && p.qty < o.quantity
  {
    var e := SellExecution(v, acc.HeldQty(o.symbol), bought, p.qty, p.qty, p.price);
    FillSellBooks(acc, v, o, p, bought);
    SellExecutionIsSale(v, acc.HeldQty(o.symbol), bought, p.qty, p.price);
    SaleBooking(o, e, p, v.day);
    SaleCredit(e, p.qty, p.price);
    BookSellMoves(acc, o.symbol, p.qty, e.fees.TotalCredit(e.Value()));
  }

  /** Rows that do not trade keep what they moved. */
  ghost predicate Untraded(o: Order, o': Order) {
    && o'.SameTerms(o) && o'.trace == o.trace && o'.tradeValue == o.tradeValue && o'.fees == o.fees
    && o'.filledQty == o.filledQty
  }

  lemma RejectionKeepsRow(o: Order, reason: Reason)
    requires OrderInv(o) && o.IsPending()
    ensures OrderInv(MarkRejected(o, reason)) && Untraded(o, MarkRejected(o, reason))
  {
  }

  /** Expiry of a partly filled order closes it at its average price. */
  lemma ExpiryKeepsRow(o: Order, day: Time)
    requires o.IsPending() && o.filledQty > 0
    ensures var o' := ApplySliceFill(o, Execution(0, 0.0, NO_FEES, 0), 0, day, None);
      Untraded(o, o') && o'.filledPrice == o.filledPrice && o'.status == Filled
  {
    var f := o.filledQty as real;
    AveragePrice(o.filledPrice, f, 0.0, 0.0);
    assert (o.filledPrice * f) / f == o.filledPrice;
  }

  lemma PostponeKeepsRow(v: View, o: Order)
    requires OrderInv(o) && o.IsPending()
    ensures OrderInv(Postpone(v, o)) && Untraded(o, Postpone(v, o))
  {
    if o.filledQty > 0 {
      ExpiryKeepsRow(o, v.day);
    }
  }
}
