/** The trading rules in figures: what each decision of the engine comes to, without the engine's own vocabulary. */
module Rulebook {
  import opened Common
  import opened Calendar
  import opened Market
  import opened Fees
  import opened Rules
  import opened Path
  import opened Ledger
  import opened Tape
  import opened Matching
  import opened Books
  import opened Runs
  import Audit

  // ----- Restrictions -----

  /** Within 1% of the previous day's volume, and within a fifth of the portfolio give or take a billionth. */
  lemma RestrictionsInFigures(quantity: int, volume: int, open: real, exposure: real, value: real)
    ensures !LiquidityExceeded(quantity, volume) <==> 100 * quantity <= volume
    ensures !BelowMinPrice(open) <==> open >= 10.0
    ensures value > 0.0 ==> (!ConcentrationExceeded(exposure, value) <==> exposure <= 0.2 * value + 0.000000001)
    ensures value <= 0.0 ==> (!ConcentrationExceeded(exposure, value) <==> exposure <= 0.0)
  {
    assert (0.01 * volume as real).Floor == volume / 100;
  }

  // ----- What a step sees -----

  /** A daily step is for its date; an hourly one for its instant, on that instant's session date. */
  lemma ViewInFigures(h: History, key: Time, rate: real)
    ensures var v := DayView(h, key); !v.hourly && v.now == v.day == key && v.listed == h.listed
    ensures var v := HourView(h, key, rate);
      v.hourly && v.now == key && v.day == (key + 19800) / 86400 * 86400 && v.rate == rate && v.listed == h.listed
    ensures var v := HourView(h, key, rate); v.next.Some? ==>
      && v.next.value in BarTimes(h) && v.next.value > key
      && (v.next.value + 19800) / 86400 == (key + 19800) / 86400
      && forall t :: t in BarTimes(h) && key < t ==> v.next.value <= t
    ensures var v := HourView(h, key, rate); v.next.None? ==>
      forall t :: t in BarTimes(h) && key < t ==> (t + 19800) / 86400 > (key + 19800) / 86400
  {
    NextIsAdjacent(h, key);
    SessionDateIsIST(key, key);
    forall t
      ensures SameSession(key, t) <==> (key + 19800) / 86400 == (t + 19800) / 86400
    {
      SessionDateIsIST(key, t);
    }
  }

  /** A price outside 90% to 110% of the close. */
  predicate OutsideBand(price: real, close: real) {
    price < 0.9 * close || price > 1.1 * close
  }

  /** A symbol is halted for a day whose open is outside the band around the previous close. */
  lemma DayHaltInFigures(h: History, day: Time, s: Symbol, t: Time, prev: Bar)
    requires WellFormed(h) && IsLastBar(h.daily, s, day, false, t, prev)
    ensures s in DayView(h, day).halted <==> (s, day) in h.daily && OutsideBand(h.daily[(s, day)].open, prev.close)
  {
    LastBarIsReturned(h, s, day, t, prev);
    QueriesNameTheirSymbols(h, s, day);
    if (s, day) in h.daily {
      DailyBreakerIsBand(h.daily[(s, day)].open, prev.close);
    }
  }

  /** And for an hourly session from the first bar on whose high or low is. */
  lemma HourHaltInFigures(h: History, ts: Time, rate: real, s: Symbol, t: Time, prev: Bar)
    requires WellFormed(h) && IsLastBar(h.daily, s, SessionCalendarUTC(ts), false, t, prev)
    ensures s in HourView(h, ts, rate).halted <==>
      exists u :: u <= ts && SameSession(u, ts) && (s, u) in h.hourly
        && (OutsideBand(h.hourly[(s, u)].high, prev.close) || OutsideBand(h.hourly[(s, u)].low, prev.close))
  {
    var day := SessionCalendarUTC(ts);
    LastBarIsReturned(h, s, day, t, prev);
    QueriesNameTheirSymbols(h, s, day);
    forall u
      ensures u in SessionBarsUpTo(h, s, ts, ts) && BreachAt(h, s, u, day) <==>
        u <= ts && SameSession(u, ts) && (s, u) in h.hourly
        && (OutsideBand(h.hourly[(s, u)].high, prev.close) || OutsideBand(h.hourly[(s, u)].low, prev.close))
    {
      SessionBarsAre(h, s, ts, ts, u);
      if (s, u) in h.hourly {
        BandIsNarrow(h.hourly[(s, u)], prev.close);
      }
    }
  }

  // ----- Prices -----

  /**
   * A base price moved against the trader by a tenth of what the quantity takes of the previous volume beyond 0.5%.
   */
  ghost predicate Impacted(price: real, base: real, side: Side, quantity: int, volume: int) {
    if 200 * quantity <= volume then price == base
    else
      && volume > 0
      && var excess := (quantity as real / volume as real - 0.005) / 10.0;
         price == if side == Buy then base * (1.0 + excess) else base * (1.0 - excess)
  }

  lemma HalfPercent(quantity: int, volume: int)
    requires quantity > 0 && volume > 0
    ensures quantity as real / volume as real <= 0.005 <==> 200 * quantity <= volume
  {
    var q, v := quantity as real, volume as real;
    var frac := q / v;
    assert frac * v == q;
    assert frac <= 0.005 ==> frac * v <= 0.005 * v;
    assert frac > 0.005 ==> frac * v > 0.005 * v;
  }

  lemma ImpactInFigures(side: Side, order: int, slice: int, volume: int, base: real)
    requires 0 < slice <= order && 100 * order <= volume && base > 0.0
    ensures Impacted(ApplyMarketImpact(side, slice, volume, base), base, side, slice, volume)
  {
    HalfPercent(slice, volume);
    FractionBound(slice, volume);
    var frac := slice as real / volume as real;
    assert (frac - 0.005) * 0.1 == (frac - 0.005) / 10.0;
    assert (frac - 0.005) * 0.1 <= 0.0005;
  }

  /** The base of a daily fill: the open, or the limit of a limit order. */
  ghost predicate DailyBase(base: real, o: Order, bar: Bar) {
    match o.otype
    case MarketOrder => base == bar.open
    case StopOrder => base == bar.open
    case LimitOrder => o.price == Some(base)
    case OtherType => false
  }

  /** The day's range reaches the order's price from the side it waits for. */
  predicate Triggered(o: Order, bar: Bar) {
    o.otype == MarketOrder
    || (o.price.Some? && o.price.value > 0.0
        && match (o.otype, o.side)
           case (LimitOrder, Buy) => bar.low <= o.price.value
           case (LimitOrder, Sell) => bar.high >= o.price.value
           case (StopOrder, Buy) => bar.high >= o.price.value
           case (StopOrder, Sell) => bar.low <= o.price.value
           case _ => false)
  }

  /** A daily order trades whole, at its base price and impact; it trades exactly when every rule lets it. */
  lemma DailyPriceInFigures(v: View, o: Order)
    requires v.Sound() && o.quantity > 0
    ensures PlanDaily(v, o).Execute? <==>
      && o.symbol in v.bars && o.symbol !in v.halted && o.symbol in v.listed
      && v.bars[o.symbol].open >= 10.0 && 100 * o.quantity <= v.PrevVolume(o.symbol)
      && Triggered(o, v.bars[o.symbol])
    ensures PlanDaily(v, o).Execute? ==>
      exists base, price ::
        && PlanDaily(v, o) == Execute(price, o.quantity, 0, None)
        && DailyBase(base, o, v.bars[o.symbol]) && Impacted(price, base, o.side, o.quantity, v.PrevVolume(o.symbol))
  {
    if o.symbol in v.bars {
      var bar := v.bars[o.symbol];
      RestrictionsInFigures(o.quantity, v.PrevVolume(o.symbol), bar.open, 0.0, 0.0);
      var p := PlanDaily(v, o);
      if p.Execute? {
        var base := ResolveFill(o.otype, o.side, o.LimitPrice(), bar).price;
        ImpactInFigures(o.side, o.quantity, o.quantity, v.PrevVolume(o.symbol), base);
        assert DailyBase(base, o, bar) && Impacted(p.price, base, o.side, o.quantity, v.PrevVolume(o.symbol));
      }
    }
  }

  /** A refused daily order is refused for the first rule it breaks; one that is only not triggered waits. */
  lemma DailyRefusalInFigures(v: View, o: Order)
    requires !v.hourly && o.quantity > 0
    ensures var bars, volume := v.bars, v.PrevVolume(o.symbol);
      if o.symbol in v.halted || o.symbol !in bars then PlanDaily(v, o) == Refuse(CircuitBreakerTriggered)
      else if o.symbol !in v.listed then PlanDaily(v, o) == Refuse(InvalidSymbol)
      else if bars[o.symbol].open < 10.0 then PlanDaily(v, o) == Refuse(BelowMinimumPrice)
      else if 100 * o.quantity > volume then PlanDaily(v, o) == Refuse(LiquidityLimitExceeded)
      else if o.otype == OtherType then PlanDaily(v, o) == Refuse(OrderTypeNotSupported)
      else if o.otype == LimitOrder && o.LimitPrice() <= 0.0 then PlanDaily(v, o) == Refuse(InvalidLimitPrice)
      else if o.otype == StopOrder && o.LimitPrice() <= 0.0 then PlanDaily(v, o) == Refuse(InvalidStopPrice)
      else if o.otype != MarketOrder && o.side == OtherSide then PlanDaily(v, o) == Refuse(InvalidSide)
      else !Triggered(o, bars[o.symbol]) ==> PlanDaily(v, o) == Hold
  {
    if o.symbol in v.bars {
      RestrictionsInFigures(o.quantity, v.PrevVolume(o.symbol), v.bars[o.symbol].open, 0.0, 0.0);
    }
  }

  /** Half the spread an aggressive hourly slice pays: a tenth of the bar's range, at least one tick. */
  ghost predicate SpreadIs(hs: real, bar: Bar) {
    hs == if 0.1 * (bar.high - bar.low) < 0.05 then 0.05 else 0.1 * (bar.high - bar.low)
  }

  /** The base of an hourly slice: what the bar and the order's own price make of it, spread included. */
  ghost predicate HourlyBase(base: real, o: Order, bar: Bar, hs: real) {
    match (o.otype, o.side)
    case (MarketOrder, Buy) => base == (bar.high + bar.low + bar.close) / 3.0 + hs
    case (MarketOrder, Sell) => base == (bar.high + bar.low + bar.close) / 3.0 - hs
    case (LimitOrder, Buy) => base == if bar.open < o.LimitPrice() then bar.open else o.LimitPrice()
    case (LimitOrder, Sell) => base == if bar.open > o.LimitPrice() then bar.open else o.LimitPrice()
    case (StopOrder, Buy) => base == (if bar.open < o.LimitPrice() then bar.open else o.LimitPrice()) + hs
    case (StopOrder, Sell) => base == (if bar.open > o.LimitPrice() then bar.open else o.LimitPrice()) - hs
    case _ => false
  }

  /** Shares a bar's volume leaves for one slice: a tenth of it unless the rate is set. */
  function Share(bar: Bar, rate: real): int {
    ((if rate <= 0.0 then 0.1 else rate) * bar.volume as real).Floor
  }

  ghost predicate SliceIs(qty: int, o: Order, bar: Bar, rate: real) {
    qty > 0 && qty == if Share(bar, rate) < o.WorkingQty() then Share(bar, rate) else o.WorkingQty()
  }

  lemma HourlyBaseIsQuoted(o: Order, bar: Bar, rate: real)
    requires bar.WellFormed() && o.side != OtherSide && o.WorkingQty() > 0
    requires ResolvePathFill(o.otype, o.side, o.LimitPrice(), o.WorkingQty(), bar, rate).PathFill?
    ensures var path := ResolvePathFill(o.otype, o.side, o.LimitPrice(), o.WorkingQty(), bar, rate);
      && SpreadIs(HalfSpread(bar), bar) && SliceIs(path.qty, o, bar, rate)
      && HourlyBase(QuotedPrice(o.side, path, bar), o, bar, HalfSpread(bar))
  {
  }

  /**
   * An hourly slice takes what the bar's volume leaves of the order, at the bar's base price and the slice's own
   * impact; what remains waits for the session's next bar if there is one.
   */
  lemma HourlyPriceInFigures(v: View, o: Order)
    requires v.Sound() && v.hourly && OrderInv(o) && o.IsPending() && o.side != OtherSide && PlanHourly(v, o).Execute?
    ensures var p := PlanHourly(v, o);
      && o.symbol in v.bars && o.symbol !in v.halted && o.symbol in v.listed
      && v.bars[o.symbol].open >= 10.0 && 100 * o.quantity <= v.PrevVolume(o.symbol)
      && SliceIs(p.qty, o, v.bars[o.symbol], v.rate)
      && (if p.qty < o.WorkingQty() && v.next.Some? then p.remainingAfter == o.WorkingQty() - p.qty && p.next == v.next
          else p.remainingAfter == 0 && p.next == None)
    ensures exists hs, base ::
      && SpreadIs(hs, v.bars[o.symbol]) && HourlyBase(base, o, v.bars[o.symbol], hs)
      && Impacted(PlanHourly(v, o).price, base, o.side, PlanHourly(v, o).qty, v.PrevVolume(o.symbol))
  {
    var bar, volume := v.bars[o.symbol], v.PrevVolume(o.symbol);
    var path := ResolvePathFill(o.otype, o.side, o.LimitPrice(), o.WorkingQty(), bar, v.rate);
    var base := QuotedPrice(o.side, path, bar);
    RestrictionsInFigures(o.quantity, volume, bar.open, 0.0, 0.0);
    HourlyBaseIsQuoted(o, bar, v.rate);
    QuotedPriceIsPositive(o.otype, o.side, o.LimitPrice(), o.WorkingQty(), bar, v.rate, v.PrevClose(o.symbol));
    QuotedPriceBound(o.otype, o.side, o.LimitPrice(), o.WorkingQty(), bar, v.rate);
    ImpactInFigures(o.side, o.quantity, path.qty, volume, base);
    assert SpreadIs(HalfSpread(bar), bar) && HourlyBase(base, o, bar, HalfSpread(bar))
      && Impacted(PlanHourly(v, o).price, base, o.side, PlanHourly(v, o).qty, volume);
  }

  /** The same for an hourly order; without a bar, or without volume for it, it waits. */
  lemma HourlyRefusalInFigures(v: View, o: Order)
    requires v.hourly && OrderInv(o) && o.IsPending()
    ensures var bars, volume := v.bars, v.PrevVolume(o.symbol);
      if o.symbol in v.halted then PlanHourly(v, o) == Refuse(CircuitBreakerTriggered)
      else if o.symbol !in v.listed then PlanHourly(v, o) == Refuse(InvalidSymbol)
      else if o.symbol !in bars then PlanHourly(v, o) == Hold
      else if bars[o.symbol].open < 10.0 then PlanHourly(v, o) == Refuse(BelowMinimumPrice)
      else if 100 * o.quantity > volume then PlanHourly(v, o) == Refuse(LiquidityLimitExceeded)
      else if o.otype == OtherType then PlanHourly(v, o) == Refuse(OrderTypeNotSupported)
      else if o.otype == LimitOrder && o.LimitPrice() <= 0.0 then PlanHourly(v, o) == Refuse(InvalidLimitPrice)
      else if o.otype == StopOrder && o.LimitPrice() <= 0.0 then PlanHourly(v, o) == Refuse(InvalidStopPrice)
      else if o.otype != MarketOrder && o.side == OtherSide then PlanHourly(v, o) == Refuse(InvalidSide)
      else if Triggered(o, bars[o.symbol]) && Share(bars[o.symbol], v.rate) > 0 then PlanHourly(v, o).Execute?
      else PlanHourly(v, o) == Hold
  {
    if o.symbol in v.bars {
      var bar := v.bars[o.symbol];
      RestrictionsInFigures(o.quantity, v.PrevVolume(o.symbol), bar.open, 0.0, 0.0);
      SliceInFigures(o, bar, v.rate);
    }
  }

  lemma SliceInFigures(o: Order, bar: Bar, rate: real)
    requires o.WorkingQty() > 0
    ensures ParticipationCap(o.WorkingQty(), bar.volume, rate) > 0 <==> Share(bar, rate) > 0
  {
  }

  // ----- Settlement -----

  /** A buy costs its value and 0.13655% of it, and must leave the position within the limit. */
  lemma BuyInFigures(acc: Account, v: View, o: Order, p: Plan, value: real, exposure: real, pv: real)
    requires p.Execute? && p.qty > 0 && value == p.qty as real * p.price
    requires exposure == (acc.HeldQty(o.symbol) + p.qty) as real * v.PrevClose(o.symbol)
    requires pv == acc.cash + MarkedValue(acc.holdings, v.PrevMarks(acc.holdings.Keys))
    ensures var out := FillBuy(acc, v, o, p);
      if acc.cash < 1.0013655 * value then out == Refused(InsufficientCash)
      else if exposure > (if pv > 0.0 then 0.2 * pv + 0.000000001 else 0.0)
      then out == Refused(ConcentrationLimitExceeded)
      else out.Traded? && out.account == acc.(cash := out.account.cash, holdings := out.account.holdings)
           && out.account.cash == acc.cash - 1.0013655 * value
           && CostMoves(acc.holdings, out.account.holdings, o.symbol, p.qty, p.price)
  {
    var e := BuyAt(p.qty, p.price);
    BuyExecutionInFigures(p.qty, p.price, value);
    FillBuyDecides(acc, v, o, p, e, pv, 1.0013655 * value, exposure);
    BuyOutcomeInFigures(acc, v, o, p, e, 1.0013655 * value, exposure, pv);
  }

  lemma BuyExecutionInFigures(qty: int, price: real, value: real)
    requires value == qty as real * price
    ensures BuyAt(qty, price).qty == qty
    ensures BuyAt(qty, price).fees.TotalDebit(BuyAt(qty, price).Value()) == 1.0013655 * value
  {
    BuyFeesInFigures(value);
  }

  lemma BuyOutcomeInFigures(acc: Account, v: View, o: Order, p: Plan, e: Execution, debit: real, exposure: real,
                            pv: real)
    requires p.Execute? && e.qty == p.qty
    ensures var out := BuyOutcome(acc, v, o, p, e, debit, exposure, pv);
      if acc.cash < debit then out == Refused(InsufficientCash)
      else if exposure > (if pv > 0.0 then 0.2 * pv + 0.000000001 else 0.0)
      then out == Refused(ConcentrationLimitExceeded)
      else out.Traded? && out.account == acc.(cash := out.account.cash, holdings := out.account.holdings)
           && out.account.cash == acc.cash - debit
           && CostMoves(acc.holdings, out.account.holdings, o.symbol, p.qty, p.price)
  {
    RestrictionsInFigures(0, 0, 0.0, exposure, pv);
    AddingMovesCost(acc.holdings, o.symbol, p.qty, p.price);
  }

  /** A purchase adds its shares and its cost to the holding: average price times quantity is what was paid. */
  ghost predicate CostMoves(held: map<Symbol, Holding>, held': map<Symbol, Holding>, s: Symbol, qty: int, price: real) {
    && s in held' && (forall t :: t != s ==> (t in held' <==> t in held) && (t in held ==> held'[t] == held[t]))
    && var had := if s in held then held[s] else Holding(0, 0.0);
       && held'[s].quantity == had.quantity + qty
       && (had.quantity >= 0 && qty > 0 ==>
             held'[s].avgBuyPrice * held'[s].quantity as real
             == had.avgBuyPrice * had.quantity as real + price * qty as real)
  }

  lemma AddingMovesCost(held: map<Symbol, Holding>, s: Symbol, qty: int, price: real)
    ensures CostMoves(held, AddHolding(held, s, qty, price), s, qty, price)
  {
    if s in held && held[s].quantity >= 0 && qty > 0 {
      var q, n := held[s].quantity, held[s].quantity + qty;
      var cost := q as real * held[s].avgBuyPrice + qty as real * price;
      assert cost / n as real * n as real == cost;
    }
  }

  /** A sale leaves the average price of what remains, and drops a holding that is sold out. */
  lemma SellingKeepsCost(held: map<Symbol, Holding>, s: Symbol, qty: int)
    requires s in held && held[s].quantity >= qty
    ensures var held' := RemoveHolding(held, s, qty);
      && (forall t :: t != s ==> (t in held' <==> t in held) && (t in held ==> held'[t] == held[t]))
      && (s in held' <==> held[s].quantity > qty)
      && (s in held' ==> held'[s] == Holding(held[s].quantity - qty, held[s].avgBuyPrice))
  {
  }

  /**
   * A sale needs the shares, and brings its value less 0.12155%, less 0.1% of what is taxed as delivery and 0.025% of
   * the rest; in hourly mode what was bought in the session is intraday first.
   */
  lemma SellInFigures(acc: Account, v: View, o: Order, p: Plan, bought: int, value: real, delivered: int, taxed: real)
    requires p.Execute? && p.qty > 0 && value == p.qty as real * p.price && taxed == delivered as real * p.price
    requires var kept := acc.HeldQty(o.symbol) - bought;
      delivered == if !v.hourly || p.qty <= kept then p.qty else if kept < 0 then 0 else kept
    ensures var out := FillSell(acc, v, o, p, bought);
      if acc.HeldQty(o.symbol) < p.qty then out == Refused(InsufficientHoldings)
      else o.symbol in acc.holdings && out.Traded?
           && out.account == acc.(cash := out.account.cash, holdings := RemoveHolding(acc.holdings, o.symbol, p.qty))
           && out.account.cash == acc.cash + value - 0.0012155 * value - 0.001 * taxed - 0.00025 * (value - taxed)
  {
    var e := SellExecution(v, acc.HeldQty(o.symbol), bought, p.qty, p.qty, p.price);
    FillSellDecides(acc, v, o, p, bought, e);
    SellExecutionInFigures(v, acc.HeldQty(o.symbol), bought, p.qty, p.price, value, delivered, taxed);
  }

  lemma SellExecutionInFigures(v: View, held: int, bought: int, qty: int, price: real, value: real, delivered: int,
                               taxed: real)
    requires qty > 0 && value == qty as real * price && taxed == delivered as real * price
    requires delivered == if !v.hourly || qty <= held - bought then qty else if held < bought then 0 else held - bought
    ensures var e := SellExecution(v, held, bought, qty, qty, price);
      && e.qty == qty && e.delivered == delivered
      && e.fees.TotalCredit(e.Value()) ==
           value - 0.0012155 * value - 0.001 * taxed - 0.00025 * (value - taxed)
  {
    var e := SellExecution(v, held, bought, qty, qty, price);
    SellExecutionIsSale(v, held, bought, qty, price);
    RestOfValue(qty, delivered, price);
    CreditInFigures(e.fees, taxed, (qty - delivered) as real * price, value);
  }

  lemma CreditInFigures(fees: Breakdown, taxed: real, rest: real, value: real)
    requires fees == SellFeesMixed(taxed, rest) && rest == value - taxed
    ensures fees.TotalCredit(value) == value - 0.0012155 * value - 0.001 * taxed - 0.00025 * (value - taxed)
  {
    SellFeesInFigures(taxed, value);
  }

  lemma RestOfValue(qty: int, part: int, price: real)
    ensures (qty - part) as real * price == qty as real * price - part as real * price
  {
  }

  /** What a trade writes to its row, and when the row is closed. */
  lemma TradeInFigures(o: Order, e: Execution, remainingAfter: int, day: Time, next: Option<Time>)
    requires OrderInv(o) && Bookable(o, e, remainingAfter, next)
    ensures var o' := RecordFill(o, e, remainingAfter, day, next);
      && o'.SameTerms(o) && o'.filledAt == Some(day) && o'.reason == None && o'.matchDate == o.matchDate
      && o'.matchTs == (if next.Some? then next else o.matchTs)
      && o'.status == (if next.Some? then Pending else Filled)
      && o'.remaining == Some(if next.Some? then o.quantity - o.filledQty - e.qty else 0)
      && o'.tradeValue == o.tradeValue + e.qty as real * e.price
      && o'.trace.executed == o.trace.executed + e.qty
      && (o.trace.executed == 0 ==> o'.filledPrice == e.price)
  {
    RecordAdds(o, e, remainingAfter, day, next);
    if o.trace.executed == 0 {
      FirstPrice(e.price, e.qty as real);
    }
  }

  lemma FirstPrice(price: real, qty: real)
    requires qty > 0.0
    ensures (0.0 * 0.0 + price * qty) / qty == price
  {
  }

  /** An order that is not triggered waits for the next day or bar, or ends with the data or the session. */
  lemma WaitingInFigures(v: View, o: Order)
    requires o.IsPending()
    ensures Postpone(v, o) ==
      if v.next.Some? then
        if v.hourly then o.(matchTs := v.next, matchDate := v.day) else o.(matchDate := v.next.value)
      else if !v.hourly then o.(status := Rejected, reason := Some(NotFilledBeforeEnd))
      else if o.filledQty <= 0 then o.(status := Rejected, reason := Some(DayOrderExpired))
      else o.(status := Filled, remaining := Some(0), filledAt := Some(v.day), reason := None)
  {
    if v.hourly && v.next.None? && o.filledQty > 0 {
      ExpiryKeepsRow(o, v.day);
      var o' := Postpone(v, o);
      assert o'.trace == o.trace && o'.fees == o.fees;
    }
  }

  // ----- Accounts -----

  /** A portfolio opens with a million, nothing else, and a snapshot of that on the day before the start. */
  lemma OpeningInFigures(startDate: Time)
    ensures var acc := OpenAccount(startDate);
      && acc.cash == 1000000.0 && acc.holdings == map[] && !acc.disqualified && acc.missedTicks == 0
      && acc.snapshots == map[startDate / 86400 * 86400 - 86400 := Snapshot(1000000.0, 1000000.0, 0.0)]
  {
  }

  /** The marks of a session are the closes of the date's bars, or the last closes printed by the bar's instant. */
  lemma MarksInFigures(m: Setup, key: Time, s: Symbol)
    ensures !m.hourly ==> (s in ViewAt(m, key).marks <==> (s, key) in m.history.daily)
    ensures !m.hourly && s in ViewAt(m, key).marks ==> ViewAt(m, key).marks[s] == m.history.daily[(s, key)].close
    ensures m.hourly ==> (s in ViewAt(m, key).marks <==> exists t :: t <= key && (s, t) in m.history.hourly)
    ensures m.hourly ==> forall t, b :: IsLastBar(m.history.hourly, s, key, true, t, b) ==>
      s in ViewAt(m, key).marks && ViewAt(m, key).marks[s] == b.close
  {
    QueriesNameTheirSymbols(m.history, s, key);
    if m.hourly {
      MarkIsLast(m.history, s, key);
      forall t, b | IsLastBar(m.history.hourly, s, key, true, t, b)
        ensures IntradayBarAtOrBefore(m.history, s, key) == Some(b)
      {
        LastBarIsReturned(m.history, s, key, t, b);
      }
    }
  }

  /**
   * A session that closes writes every active agent's cash, its holdings at the session's marks, and their sum; one
   * that does not close writes no snapshot.
   */
  lemma SnapshotInFigures(w: World, v: View, a: AgentId)
    requires ProcessSession(w, v).Some? && a in w.accounts && !w.accounts[a].disqualified
    ensures a in ProcessSession(w, v).value.accounts && a in MatchFrom(w, v, 0).accounts
    ensures var acc := ProcessSession(w, v).value.accounts[a];
      if !v.hourly || v.next.None? then
        && acc.holdings.Keys <= v.marks.Keys
        && var invested := MarkedValue(acc.holdings, v.marks);
           acc.snapshots == w.accounts[a].snapshots[v.day := Snapshot(acc.cash + invested, acc.cash, invested)]
      else acc.snapshots == w.accounts[a].snapshots
  {
    Audit.MatchingSparesStatus(w, v, 0, a);
    var matched := MatchFrom(w, v, 0);
    if v.ClosesSession() {
      assert ProcessSession(w, v).value.accounts[a] == CloseAccount(matched.accounts[a], v);
    }
  }
}
