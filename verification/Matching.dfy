/** The matching step of internal/orderbook as a function of the tables and the market view. */
module Matching {
  import opened Common
  import opened Fees
  import opened Market
  import opened Rules
  import opened Path
  import opened Ledger
  import opened Tape

  /** What the market side of a match decides, before the agent's account is consulted. */
  datatype Plan =
    | Refuse(reason: Reason)
    | Hold
    | Execute(price: real, qty: int, remainingAfter: int, next: Option<Time>)

  function PlanDaily(v: View, o: Order): Plan {
    if v.BreakerOn(o.symbol) then Refuse(CircuitBreakerTriggered)
    else if o.symbol !in v.listed then Refuse(InvalidSymbol)
    else if o.symbol !in v.bars then Refuse(InvalidSymbol)
    else if BelowMinPrice(v.bars[o.symbol].open) then Refuse(BelowMinimumPrice)
    else if LiquidityExceeded(o.quantity, v.PrevVolume(o.symbol)) then Refuse(LiquidityLimitExceeded)
    else
      match ResolveFill(o.otype, o.side, o.LimitPrice(), v.bars[o.symbol])
      case DeferFill => Hold
      case RejectFill(reason) => Refuse(reason)
      case FillAt(price) =>
        Execute(ApplyMarketImpact(o.side, o.quantity, v.PrevVolume(o.symbol), price), o.quantity, 0, None)
  }

  function PlanHourly(v: View, o: Order): Plan {
    if v.BreakerOn(o.symbol) then Refuse(CircuitBreakerTriggered)
    else if o.symbol !in v.listed then Refuse(InvalidSymbol)
    else if o.symbol !in v.bars then Hold
    else if BelowMinPrice(v.bars[o.symbol].open) then Refuse(BelowMinimumPrice)
    else if LiquidityExceeded(o.quantity, v.PrevVolume(o.symbol)) then Refuse(LiquidityLimitExceeded)
    else
      var bar := v.bars[o.symbol];
      var working := o.WorkingQty();
      var path := ResolvePathFill(o.otype, o.side, o.LimitPrice(), working, bar, v.rate);
      match path
      case PathDefer => Hold
      case PathReject(reason) => Refuse(reason)
      case PathFill(qty, _, _) =>
        var price := ApplyMarketImpact(o.side, qty, v.PrevVolume(o.symbol), QuotedPrice(o.side, path, bar));
        var left := working - qty;
        // on the session's last bar nothing is carried over
        if left > 0 && v.next.Some? then Execute(price, qty, left, v.next)
        else Execute(price, qty, 0, None)
  }

  function PlanFor(v: View, o: Order): Plan {
    if v.hourly then PlanHourly(v, o) else PlanDaily(v, o)
  }

  /** fillBuy and fillSell treat a non-positive slice as the whole working quantity. */
  function FillQty(o: Order, qty: int): int {
    if qty <= 0 then o.WorkingQty() else qty
  }

  function RecordFill(o: Order, e: Execution, remainingAfter: int, day: Time, next: Option<Time>): Order {
    if remainingAfter > 0 || next.Some? || o.filledQty > 0 then ApplySliceFill(o, e, remainingAfter, day, next)
    else MarkFilled(o, e, day)
  }

  datatype Outcome = Refused(reason: Reason) | Held | Traded(order: Order, account: Account)

  function BookBuy(acc: Account, s: Symbol, qty: int, price: real, debit: real): Account {
    acc.(cash := acc.cash - debit, holdings := AddHolding(acc.holdings, s, qty, price))
  }

  function BookSell(acc: Account, s: Symbol, qty: int, credit: real): Account
    requires s in acc.holdings && acc.holdings[s].quantity >= qty
  {
    acc.(cash := acc.cash + credit, holdings := RemoveHolding(acc.holdings, s, qty))
  }

  function BuyAt(qty: int, price: real): Execution {
    Execution(qty, price, BuyFees(qty as real * price), 0)
  }

  /** A position valued at one price. */
  function Exposure(held: int, price: real): real {
    held as real * price
  }

  /** fillBuy's decision, once debit, exposure and portfolio value are known. */
  function BuyOutcome(acc: Account, v: View, o: Order, p: Plan, e: Execution, debit: real, exposure: real, pv: real)
    : Outcome
    requires p.Execute?
  {
    if acc.cash < debit then Refused(InsufficientCash)
    else if ConcentrationExceeded(exposure, pv) then Refused(ConcentrationLimitExceeded)
    else Traded(RecordFill(o, e, p.remainingAfter, v.day, p.next), BookBuy(acc, o.symbol, e.qty, p.price, debit))
  }

  ghost function FillBuy(acc: Account, v: View, o: Order, p: Plan): Outcome
    requires p.Execute?
  {
    var e := BuyAt(FillQty(o, p.qty), p.price);
    BuyOutcome(acc, v, o, p, e, e.fees.TotalDebit(e.Value()),
               Exposure(acc.HeldQty(o.symbol) + e.qty, v.PrevClose(o.symbol)),
               acc.cash + MarkedValue(acc.holdings, v.PrevMarks(acc.holdings.Keys)))
  }

  /** Shares of a slice taxed as delivery: what was held overnight and not sold since. */
  function DeliveryQty(held: int, bought: int, fillQty: int): int {
    var overnight := if held - bought < 0 then 0 else held - bought;
    if overnight < fillQty then overnight else fillQty
  }

  /** Fees of a sale: all delivery in daily mode, split against the session's recorded buys in hourly mode. */
  function SellExecution(v: View, held: int, bought: int, qty: int, slice: int, price: real): Execution {
    if v.hourly then
      var delivery := DeliveryQty(held, bought, slice);
      Execution(qty, price, SellFeesMixed(delivery as real * price, (slice - delivery) as real * price), delivery)
    else Execution(qty, price, SellFees(slice as real * price), slice)
  }

  function FillSell(acc: Account, v: View, o: Order, p: Plan, bought: int): Outcome
    requires p.Execute?
  {
    var qty := FillQty(o, p.qty);
    var e := SellExecution(v, acc.HeldQty(o.symbol), bought, qty, p.qty, p.price);
    if acc.HeldQty(o.symbol) < qty then Refused(InsufficientHoldings)
    // reducing a missing row is an error; with a positive slice this cannot happen
    else if o.symbol !in acc.holdings then Refused(PortfolioError)
    else Traded(RecordFill(o, e, p.remainingAfter, v.day, p.next),
                BookSell(acc, o.symbol, qty, e.fees.TotalCredit(e.Value())))
  }

  /** fillBuy and fillSell, from the agent's portfolio lookup on. */
  ghost function Settle(w: World, v: View, o: Order, p: Plan): Outcome
    requires p.Execute? && o.side != OtherSide
  {
    if o.agent !in w.accounts then Refused(PortfolioNotFound)
    else if o.side == Buy then FillBuy(w.accounts[o.agent], v, o, p)
    else FillSell(w.accounts[o.agent], v, o, p, FilledBuyQtyOnSession(w.orders, o.agent, o.symbol, v.day))
  }

  ghost function TryFill(w: World, v: View, o: Order): Outcome {
    if o.agent in w.accounts && w.accounts[o.agent].disqualified then Refused(AgentDisqualified) else
      match PlanFor(v, o)
      case Refuse(reason) => Refused(reason)
      case Hold => Held
      case Execute(_, _, _, _) =>
        if o.side == OtherSide then Refused(InvalidSide) else Settle(w, v, o, PlanFor(v, o))
  }

  /** A deferred order waits for the next session, or expires. */
  function Postpone(v: View, o: Order): Order {
    if v.hourly then
      match v.next
      case Some(n) => UpdateMatchOnTs(o, n, v.day)
      case None =>
        if o.filledQty > 0 then ApplySliceFill(o, Execution(0, 0.0, NO_FEES, 0), 0, v.day, None)
        else MarkRejected(o, DayOrderExpired)
    else
      match v.next
      case Some(n) => UpdateMatchOnDate(o, n)
      case None => MarkRejected(o, NotFilledBeforeEnd)
  }

  predicate Due(v: View, o: Order) {
    o.IsPending() && (if v.hourly then o.matchTs == Some(v.now) else o.matchDate == v.now)
  }

  ghost function MatchOne(w: World, v: View, i: nat): World
    requires i < |w.orders|
  {
    var o := w.orders[i];
    match TryFill(w, v, o)
    case Refused(reason) => w.(orders := w.orders[i := MarkRejected(o, reason)])
    case Held => w.(orders := w.orders[i := Postpone(v, o)])
    case Traded(o', acc) => World(w.orders[i := o'], w.accounts[o.agent := acc])
  }

  ghost function MatchStep(w: World, v: View, i: nat): World
    requires i < |w.orders|
  {
    if Due(v, w.orders[i]) then MatchOne(w, v, i) else w
  }

  /** Match the due orders from rank i on, in (created_at, id) order. */
  ghost function MatchFrom(w: World, v: View, i: nat): (r: World)
    requires i <= |w.orders|
    ensures |r.orders| == |w.orders| && r.accounts.Keys == w.accounts.Keys
    decreases |w.orders| - i
  {
    if i == |w.orders| then w else
      var w' := MatchStep(w, v, i);
      assert w'.accounts.Keys == w.accounts.Keys;
      MatchFrom(w', v, i + 1)
  }

  predicate Markable(acc: Account, v: View) {
    acc.disqualified || acc.holdings.Keys <= v.marks.Keys
  }

  /** One agent's end-of-session snapshot: frozen at its last value once disqualified. */
  ghost function CloseAccount(acc: Account, v: View): Account
    requires Markable(acc, v)
  {
    if acc.disqualified then
      match acc.LastSnapshot()
      case Some(s) => acc.(snapshots := acc.snapshots[v.day := s])
      case None => acc
    else
      var invested := MarkedValue(acc.holdings, v.marks);
      var total := acc.cash + invested;
      acc.(snapshots := acc.snapshots[v.day := Snapshot(total, acc.cash, invested)],
           disqualified := total <= 0.0)
  }

  ghost function CloseAccounts(w: World, v: View): Option<World> {
    if forall a :: a in w.accounts ==> Markable(w.accounts[a], v)
    then Some(w.(accounts := map a | a in w.accounts :: CloseAccount(w.accounts[a], v)))
    else None
  }

  /** One matching transaction; None is an error, and rolls everything back. */
  ghost function ProcessSession(w: World, v: View): Option<World> {
    var matched := MatchFrom(w, v, 0);
    if v.ClosesSession() then CloseAccounts(matched, v) else Some(matched)
  }
}
