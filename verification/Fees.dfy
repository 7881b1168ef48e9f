/** The fee schedule of internal/fees/fees.go, on exact reals. */
module Fees {

  const DELIVERY_STT_RATE: real := 0.001
  const INTRADAY_STT_RATE: real := 0.00025

  datatype Breakdown = Breakdown(
    brokerage: real, stt: real, gst: real, exchange: real, sebi: real, stamp: real, total: real)
  {
    function TotalDebit(tradeValue: real): real {
      tradeValue + total
    }

    function TotalCredit(tradeValue: real): real {
      tradeValue - total
    }

    /** Component-wise sum: what an order row holds after a further slice. */
    function Plus(b: Breakdown): Breakdown {
      Breakdown(brokerage + b.brokerage, stt + b.stt, gst + b.gst, exchange + b.exchange,
                sebi + b.sebi, stamp + b.stamp, total + b.total)
    }
  }

  const NO_FEES := Breakdown(0.0, 0.0, 0.0, 0.0, 0.0, 0.0, 0.0)

  function BuyFees(tradeValue: real): Breakdown {
    var brokerage := 0.001 * tradeValue;
    var gst := 0.18 * brokerage;
    var exchange := 0.0000345 * tradeValue;
    var sebi := 0.000001 * tradeValue;
    var stamp := 0.00015 * tradeValue;
    Breakdown(brokerage, 0.0, gst, exchange, sebi, stamp, brokerage + gst + exchange + sebi + stamp)
  }

  function SellBase(tradeValue: real, stt: real): Breakdown {
    var brokerage := 0.001 * tradeValue;
    var gst := 0.18 * brokerage;
    var exchange := 0.0000345 * tradeValue;
    var sebi := 0.000001 * tradeValue;
    Breakdown(brokerage, stt, gst, exchange, sebi, 0.0, brokerage + gst + exchange + sebi + stt)
  }

  function SellFees(tradeValue: real): Breakdown {
    SellBase(tradeValue, DELIVERY_STT_RATE * tradeValue)
  }

  function SellFeesMixed(deliveryValue: real, intradayValue: real): Breakdown {
    SellBase(deliveryValue + intradayValue,
             DELIVERY_STT_RATE * deliveryValue + INTRADAY_STT_RATE * intradayValue)
  }

  /** The schedule in figures: each component's rate, and a total that is their sum. */
  lemma BuyFeesInFigures(value: real)
    ensures var f := BuyFees(value);
      && f.brokerage == 0.001 * value && f.gst == 0.00018 * value && f.exchange == 0.0000345 * value
      && f.sebi == 0.000001 * value && f.stamp == 0.00015 * value && f.stt == 0.0
      && f.total == f.brokerage + f.gst + f.exchange + f.sebi + f.stamp + f.stt == 0.0013655 * value
      && f.TotalDebit(value) == 1.0013655 * value
  {
  }

  lemma SellFeesInFigures(delivered: real, value: real)
    ensures var f := SellFeesMixed(delivered, value - delivered);
      && f.brokerage == 0.001 * value && f.gst == 0.00018 * value && f.exchange == 0.0000345 * value
      && f.sebi == 0.000001 * value && f.stamp == 0.0 && f.stt == 0.001 * delivered + 0.00025 * (value - delivered)
      && f.total == f.brokerage + f.gst + f.exchange + f.sebi + f.stamp + f.stt
      && f.total == 0.0012155 * value + 0.001 * delivered + 0.00025 * (value - delivered)
      && f.TotalCredit(value) == value - f.total
    ensures SellFees(value).total == 0.0022155 * value
  {
  }

  /** Slicing an order never changes its fees: every component is additive in the trade value. */
  lemma FeesAreAdditive(v: real, w: real, d: real, e: real)
    ensures BuyFees(v).Plus(BuyFees(w)) == BuyFees(v + w)
    ensures SellFeesMixed(v, w).Plus(SellFeesMixed(d, e)) == SellFeesMixed(v + d, w + e)
    ensures SellFees(v) == SellFeesMixed(v, 0.0)
  {
  }

  /** The same for a sale given by its value and the part of it taxed as delivery. */
  lemma MixedFeesAreAdditive(v: real, dv: real, w: real, dw: real)
    ensures SellFeesMixed(dv, v - dv).Plus(SellFeesMixed(dw, w - dw)) == SellFeesMixed(dv + dw, v + w - (dv + dw))
  {
  }

  /** A sale always pays out something, and never more than its value. */
  lemma SaleCreditIsPositive(deliveryValue: real, intradayValue: real)
    requires deliveryValue >= 0.0 && intradayValue >= 0.0 && deliveryValue + intradayValue > 0.0
    ensures var v := deliveryValue + intradayValue;
      SellFees(v).TotalCredit(v) <= SellFeesMixed(deliveryValue, intradayValue).TotalCredit(v) < v
    ensures SellFees(deliveryValue + intradayValue).TotalCredit(deliveryValue + intradayValue) > 0.0
  {
  }

  /** The same, for a and b shares taxed as delivery and as intraday at one price. */
  lemma SliceCreditIsPositive(a: real, b: real, q: real, price: real, x: real, y: real, value: real)
    requires a >= 0.0 && b >= 0.0 && q == a + b > 0.0 && price > 0.0
    requires x == a * price && y == b * price && value == q * price
    ensures SellFeesMixed(x, y).TotalCredit(value) > 0.0
  {
    assert value == (a + b) * price == x + y;
    assert x >= 0.0 && y >= 0.0 && value > 0.0;
    SaleCreditIsPositive(x, y);
  }
}
