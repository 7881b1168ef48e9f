/** Hourly slices against one bar: internal/orderbook/path.go. */
module Path {
  import opened Market
  import opened Rules

  const NSE_TICK_SIZE: real := 0.05
  const DEFAULT_PARTICIPATION_RATE: real := 0.10
  const SPREAD_RANGE_K: real := 0.10

  function VWAPProxy(bar: Bar): real {
    (bar.high + bar.low + bar.close) / 3.0
  }

  function HalfSpread(bar: Bar): real {
    var range := if bar.high - bar.low < 0.0 then 0.0 else bar.high - bar.low;
    var hs := SPREAD_RANGE_K * range;
    if hs < NSE_TICK_SIZE then NSE_TICK_SIZE else hs
  }

  function ApplyAggressiveSpread(side: Side, price: real, halfSpread: real): real {
    if halfSpread <= 0.0 then price
    else if side == Buy then price + halfSpread
    else price - halfSpread
  }

  /** min(remaining, floor(rate * volume)), never negative. */
  function ParticipationCap(remaining: int, barVolume: int, rate: real): int {
    if remaining <= 0 then 0 else
      var r := if rate <= 0.0 then DEFAULT_PARTICIPATION_RATE else rate;
      var floor := (r * barVolume as real).Floor;
      var maxFill := if floor < 0 then 0 else floor;
      if maxFill > remaining then remaining else maxFill
  }

  function Min(a: real, b: real): real {
    if a < b then a else b
  }

  function Max(a: real, b: real): real {
    if a > b then a else b
  }

  datatype PathResult =
    | PathFill(qty: int, price: real, aggressive: bool)
    | PathDefer
    | PathReject(reason: Reason)

  function Slice(remaining: int, bar: Bar, rate: real, price: real, aggressive: bool): PathResult {
    var qty := ParticipationCap(remaining, bar.volume, rate);
    if qty <= 0 then PathDefer else PathFill(qty, price, aggressive)
  }

  function ResolvePathFill(otype: OrderType, side: Side, limitPrice: real, remaining: int, bar: Bar, rate: real)
    : PathResult
  {
    if remaining <= 0 then PathReject(InvalidQuantity) else
      match otype
      case MarketOrder => Slice(remaining, bar, rate, VWAPProxy(bar), true)
      case LimitOrder =>
        if limitPrice <= 0.0 then PathReject(InvalidLimitPrice) else
          (match side
           case Buy =>
             if bar.low > limitPrice then PathDefer else
               var px := if bar.open <= limitPrice then Min(limitPrice, bar.open) else limitPrice;
               Slice(remaining, bar, rate, px, false)
           case Sell =>
             if bar.high < limitPrice then PathDefer else
               var px := if bar.open >= limitPrice then Max(limitPrice, bar.open) else limitPrice;
               Slice(remaining, bar, rate, px, false)
           case OtherSide => PathReject(InvalidSide))
      case StopOrder =>
        if limitPrice <= 0.0 then PathReject(InvalidStopPrice) else
          (match side
           case Buy =>
             if bar.high < limitPrice then PathDefer
             else Slice(remaining, bar, rate, Min(limitPrice, bar.open), true)
           case Sell =>
             if bar.low > limitPrice then PathDefer
             else Slice(remaining, bar, rate, Max(limitPrice, bar.open), true)
           case OtherSide => PathReject(InvalidSide))
      case OtherType => PathReject(OrderTypeNotSupported)
  }

  predicate CircuitBandBreached(high: real, low: real, prevClose: real) {
    && prevClose > 0.0
    && ((high - prevClose) / prevClose * 100.0 > 10.0 || (prevClose - low) / prevClose * 100.0 > 10.0)
  }

  lemma PercentAbove(x: real, base: real)
    requires base > 0.0
    ensures x / base * 100.0 > 10.0 <==> x > 0.1 * base
  {
    var q := x / base;
    assert q * base == x;
    if q > 0.1 {
      assert q * base > 0.1 * base;
    } else {
      assert q * base <= 0.1 * base;
    }
  }

  /** The percentage test is a band of 10% around the previous close. */
  lemma BandIsNarrow(bar: Bar, prevClose: real)
    requires prevClose > 0.0
    ensures !CircuitBandBreached(bar.high, bar.low, prevClose)
      <==> bar.high <= 1.1 * prevClose && bar.low >= 0.9 * prevClose
  {
    PercentAbove(bar.high - prevClose, prevClose);
    PercentAbove(prevClose - bar.low, prevClose);
  }

  /** The daily breaker is the same band, applied to the open alone. */
  lemma DailyBreakerIsBand(open: real, prevClose: real)
    requires prevClose > 0.0
    ensures !CircuitTriggered(open, prevClose) <==> 0.9 * prevClose <= open <= 1.1 * prevClose
  {
    PercentAbove(open - prevClose, prevClose);
    PercentAbove(prevClose - open, prevClose);
    Opposite(open - prevClose, prevClose);
  }

  lemma Opposite(x: real, base: real)
    requires base > 0.0
    ensures -x / base == -(x / base)
  {
    var q, r := x / base, -x / base;
    assert q * base == x && r * base == -x;
    assert (q + r) * base == 0.0;
  }

  /** The price a slice trades at before market impact. */
  function QuotedPrice(side: Side, r: PathResult, bar: Bar): real
    requires r.PathFill?
  {
    if r.aggressive then ApplyAggressiveSpread(side, r.price, HalfSpread(bar)) else r.price
  }

  /**
   * Every quoted slice price is positive.  The sell-stop case needs the band, the previous close and the
   * minimum price together: without the band a wide bar's half-spread could exceed the open.
   */
  lemma QuotedPriceIsPositive(otype: OrderType, side: Side, limitPrice: real, remaining: int, bar: Bar, rate: real,
                              prevClose: real)
    requires bar.WellFormed() && !BelowMinPrice(bar.open)
    requires prevClose > 0.0 && !CircuitBandBreached(bar.high, bar.low, prevClose)
    requires ResolvePathFill(otype, side, limitPrice, remaining, bar, rate).PathFill?
    ensures QuotedPrice(side, ResolvePathFill(otype, side, limitPrice, remaining, bar, rate), bar) > 0.0
  {
    BandIsNarrow(bar, prevClose);
  }

  /** Limit slices never trade through their limit; market slices stay within the bar widened by the half-spread. */
  lemma QuotedPriceBound(otype: OrderType, side: Side, limitPrice: real, remaining: int, bar: Bar, rate: real)
    requires bar.WellFormed()
    requires ResolvePathFill(otype, side, limitPrice, remaining, bar, rate).PathFill?
    ensures var r := ResolvePathFill(otype, side, limitPrice, remaining, bar, rate);
      var px := QuotedPrice(side, r, bar);
      && 0 < r.qty <= remaining
      && (otype == LimitOrder && side == Buy ==> px <= limitPrice && bar.low <= px <= bar.high)
      && (otype == LimitOrder && side == Sell ==> limitPrice <= px && bar.low <= px <= bar.high)
      && (otype == MarketOrder ==> bar.low - HalfSpread(bar) <= px <= bar.high + HalfSpread(bar))
  {
  }

  /**
   * One bar triggers an order in hourly mode exactly when it would in daily mode, volume permitting, and an hourly
   * limit slice is never worse than the daily limit fill.
   */
  lemma ModesTriggerAlike(otype: OrderType, side: Side, limitPrice: real, remaining: int, bar: Bar, rate: real)
    requires ParticipationCap(remaining, bar.volume, rate) > 0
    ensures var d := ResolveFill(otype, side, limitPrice, bar);
      var h := ResolvePathFill(otype, side, limitPrice, remaining, bar, rate);
      && (d.FillAt? <==> h.PathFill?) && (d.DeferFill? <==> h.PathDefer?)
      && (d.RejectFill? ==> h == PathReject(d.reason))
      && (otype == LimitOrder && h.PathFill? ==>
            !h.aggressive && (if side == Buy then h.price <= d.price else d.price <= h.price))
  {
    assert remaining > 0;
  }

  /**
   * The price an hourly stop fills at, before spread and impact, lies in the bar exactly when the stop itself does
   * not lie beyond the side it triggers from: not below the low for a buy, not above the high for a sell.
   */
  lemma StopInsideBarExactly(side: Side, stop: real, remaining: int, bar: Bar, rate: real)
    requires bar.WellFormed() && ResolvePathFill(StopOrder, side, stop, remaining, bar, rate).PathFill?
    ensures bar.low <= ResolvePathFill(StopOrder, side, stop, remaining, bar, rate).price <= bar.high
      <==> if side == Buy then bar.low <= stop else stop <= bar.high
  {
  }

  /**
   * The price it is quoted at, half-spread included, lies in the bar exactly when moreover the spread does not carry it
   * out: for a buy the stop plus half-spread reaches the low, and stop or open plus half-spread stays below the high.
   */
  lemma QuotedStopInsideBarExactly(side: Side, stop: real, remaining: int, bar: Bar, rate: real)
    requires bar.WellFormed() && ResolvePathFill(StopOrder, side, stop, remaining, bar, rate).PathFill?
    ensures var hs := HalfSpread(bar);
      bar.low <= QuotedPrice(side, ResolvePathFill(StopOrder, side, stop, remaining, bar, rate), bar) <= bar.high
      <==> if side == Buy then bar.low <= stop + hs && (stop + hs <= bar.high || bar.open + hs <= bar.high)
           else stop - hs <= bar.high && (bar.low <= stop - hs || bar.low <= bar.open - hs)
  {
  }

  /** An hourly sell stop can trade above everything the bar printed, so no bar containment holds for stops. */
  lemma StopCanFillOutsideBar()
    ensures exists bar: Bar, stop: real ::
      && bar.WellFormed()
      && ResolvePathFill(StopOrder, Sell, stop, 10, bar, 0.1) == PathFill(10, stop, true)
      && QuotedPrice(Sell, PathFill(10, stop, true), bar) > bar.high
  {
    var bar := Bar(88.0, 90.0, 85.0, 89.0, 10000);
    var r := ResolvePathFill(StopOrder, Sell, 92.0, 10, bar, 0.1);
    assert (0.1 * bar.volume as real).Floor == 1000;
    assert r == PathFill(10, 92.0, true);
    assert HalfSpread(bar) == 0.5;
    assert bar.WellFormed() && QuotedPrice(Sell, PathFill(10, 92.0, true), bar) > bar.high;
  }
}
