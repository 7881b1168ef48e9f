/** Fill prices and market restrictions of internal/orderbook/rules.go (daily bars). */
module Rules {
  import opened Market

  /** Sides and order types after the source's trimming and lower-casing. */
  datatype Side = Buy | Sell | OtherSide
  datatype OrderType = MarketOrder | LimitOrder | StopOrder | OtherType

  datatype Reason =
    | AgentDisqualified | CircuitBreakerTriggered | InvalidSymbol | BelowMinimumPrice
    | LiquidityLimitExceeded | InvalidLimitPrice | InvalidStopPrice | InvalidSide | InvalidQuantity
    | OrderTypeNotSupported | PortfolioNotFound | InsufficientCash | ConcentrationLimitExceeded
    | InsufficientHoldings | PortfolioError | NotFilledBeforeEnd | DayOrderExpired

  const MIN_STOCK_PRICE: real := 10.0
  const CONCENTRATION_PCT: real := 0.20

  function Abs(x: real): real {
    if x < 0.0 then -x else x
  }

  predicate CircuitTriggered(open: real, prevClose: real) {
    prevClose > 0.0 && Abs((open - prevClose) / prevClose * 100.0) > 10.0
  }

  predicate LiquidityExceeded(quantity: int, prevVolume: int) {
    quantity > (0.01 * prevVolume as real).Floor
  }

  predicate BelowMinPrice(open: real) {
    open < MIN_STOCK_PRICE
  }

  predicate ConcentrationExceeded(newStockExposure: real, portfolioValue: real) {
    if portfolioValue <= 0.0 then newStockExposure > 0.0
    else newStockExposure > CONCENTRATION_PCT * portfolioValue + 0.000000001
  }

  datatype Resolution = FillAt(price: real) | DeferFill | RejectFill(reason: Reason)

  function ResolveFill(otype: OrderType, side: Side, limitPrice: real, bar: Bar): Resolution {
    match otype
    case MarketOrder => FillAt(bar.open)
    case LimitOrder =>
      if limitPrice <= 0.0 then RejectFill(InvalidLimitPrice) else
        (match side
         case Buy => if bar.low <= limitPrice then FillAt(limitPrice) else DeferFill
         case Sell => if bar.high >= limitPrice then FillAt(limitPrice) else DeferFill
         case OtherSide => RejectFill(InvalidSide))
    case StopOrder =>
      if limitPrice <= 0.0 then RejectFill(InvalidStopPrice) else
        (match side
         case Buy => if bar.high >= limitPrice then FillAt(bar.open) else DeferFill
         case Sell => if bar.low <= limitPrice then FillAt(bar.open) else DeferFill
         case OtherSide => RejectFill(InvalidSide))
    case OtherType => RejectFill(OrderTypeNotSupported)
  }

  function ApplyMarketImpact(side: Side, quantity: int, prevVolume: int, price: real): real {
    if prevVolume <= 0 || price <= 0.0 || quantity <= 0 then price else
      var frac := quantity as real / prevVolume as real;
      if frac <= 0.005 then price else
        var scaled := (frac - 0.005) * 0.1;
        var impact := if scaled < 0.002 then scaled else 0.002;
        if side == Buy then price * (1.0 + impact) else price * (1.0 - impact)
  }

  /** An order that passes the liquidity check had real prior volume. */
  lemma LiquidityNeedsVolume(quantity: int, prevVolume: int)
    requires quantity > 0 && !LiquidityExceeded(quantity, prevVolume)
    ensures prevVolume >= 100 * quantity
  {
    assert quantity as real <= 0.01 * prevVolume as real;
  }

  lemma FractionBound(quantity: int, prevVolume: int)
    requires quantity > 0 && prevVolume >= 100 * quantity
    ensures quantity as real / prevVolume as real <= 0.01
  {
    var q, v := quantity as real, prevVolume as real;
    assert v >= 100.0 * q;
    assert q / v * v == q;
    if q / v > 0.01 {
      assert q / v * v > 0.01 * v;
    }
  }

  /** The 1% liquidity check keeps impact within 0.05%, so the 0.2% cap is never reached. */
  lemma ImpactIsSmall(side: Side, order: int, slice: int, prevVolume: int, price: real)
    requires 0 < slice <= order && !LiquidityExceeded(order, prevVolume) && price > 0.0
    ensures var p := ApplyMarketImpact(side, slice, prevVolume, price);
      && 0.9995 * price <= p <= 1.0005 * price
      && (side == Buy ==> price <= p)
      && (side != Buy ==> p <= price)
  {
    LiquidityNeedsVolume(order, prevVolume);
    FractionBound(slice, prevVolume);
    var frac := slice as real / prevVolume as real;
    if frac > 0.005 {
      var impact := (frac - 0.005) * 0.1;
      assert 0.0 < impact <= 0.0005;
      assert 0.0 <= price * impact <= 0.0005 * price;
      assert price * (1.0 + impact) == price + price * impact;
      assert price * (1.0 - impact) == price - price * impact;
    }
  }
}
