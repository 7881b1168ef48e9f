/** Order rows (internal/orders/store.go) and portfolio rows (internal/portfolio/tx.go, dq.go). */
module Ledger {
  import opened Common
  import opened Fees
  import opened Market
  import opened Rules

  type AgentId = nat

  const STARTING_CAPITAL: real := 1000000.0

  datatype Status = Pending | Filled | Rejected | Canceled

  /**
   * What really moved for an order.  The source keeps no such column: filled_quantity can overstate the shares
   * executed, and the delivery/intraday split of a sale survives only inside fee_stt.
   */
  datatype Trace = Trace(executed: int, delivered: int, deliveredValue: real)

  /** One row of `orders`; its position in the table is its (created_at, id) rank. */
  datatype Order = Order(
    agent: AgentId, symbol: Symbol, otype: OrderType, side: Side, quantity: int, price: Option<real>,
    status: Status, matchDate: Time, matchTs: Option<Time>,
    filledQty: int, remaining: Option<int>, filledPrice: real, filledAt: Option<Time>,
    fees: Breakdown, tradeValue: real, reason: Option<Reason>, trace: Trace)
  {
    function WorkingQty(): int {
      match remaining
      case Some(r) => r
      case None => if 0 < filledQty < quantity then quantity - filledQty else quantity
    }

    function LimitPrice(): real {
      match price
      case Some(p) => p
      case None => 0.0
    }

    predicate IsPending() {
      status == Pending
    }

    /** The price-time identity of an order: nothing in the engine may change it. */
    predicate SameTerms(o: Order) {
      agent == o.agent && symbol == o.symbol && otype == o.otype && side == o.side
      && quantity == o.quantity && price == o.price
    }
  }

  function NewOrder(agent: AgentId, symbol: Symbol, otype: OrderType, side: Side, quantity: int,
                    price: Option<real>, matchDate: Time, matchTs: Option<Time>): Order
  {
    Order(agent, symbol, otype, side, quantity, price, Pending, matchDate, matchTs,
          0, Some(quantity), 0.0, None, NO_FEES, 0.0, None, Trace(0, 0, 0.0))
  }

  /** One execution: quantity, price, fees, and how much of a sale was taxed as delivery. */
  datatype Execution = Execution(qty: int, price: real, fees: Breakdown, delivered: int) {
    function Value(): real {
      qty as real * price
    }

    function AddTo(t: Trace): Trace {
      Trace(t.executed + qty, t.delivered + delivered, t.deliveredValue + delivered as real * price)
    }
  }

  function MarkRejected(o: Order, reason: Reason): Order {
    if o.IsPending() then o.(status := Rejected, reason := Some(reason)) else o
  }

  function MarkFilled(o: Order, e: Execution, day: Time): Order {
    if o.IsPending() then
      o.(status := Filled, filledPrice := e.price, filledAt := Some(day), filledQty := o.quantity,
         remaining := Some(0), fees := e.fees, tradeValue := e.Value(), reason := None, trace := e.AddTo(o.trace))
    else o
  }

  function ApplySliceFill(o: Order, e: Execution, remainingAfter: int, day: Time, next: Option<Time>): Order {
    if o.IsPending() then
      var total := o.filledQty + e.qty;
      o.(status := if remainingAfter <= 0 then Filled else Pending,
         filledQty := total,
         remaining := Some(remainingAfter),
         filledPrice := if total <= 0 then e.price
                        else (o.filledPrice * o.filledQty as real + e.price * e.qty as real) / total as real,
         filledAt := Some(day),
         matchTs := if next.Some? then next else o.matchTs,
         fees := o.fees.Plus(e.fees),
         tradeValue := o.tradeValue + e.Value(),
         reason := None,
         trace := e.AddTo(o.trace))
    else o
  }

  function UpdateMatchOnDate(o: Order, next: Time): Order {
    if o.IsPending() then o.(matchDate := next) else o
  }

  function UpdateMatchOnTs(o: Order, next: Time, matchDate: Time): Order {
    if o.IsPending() then o.(matchTs := Some(next), matchDate := matchDate) else o
  }

  function CancelPending(o: Order): Order {
    if o.IsPending() then o.(status := Canceled) else o
  }

  /** The recorded buys of one agent in one symbol on one session date: one term of the SUM. */
  function RecordedBuy(agent: AgentId, symbol: Symbol, day: Time): Order -> int {
    (o: Order) =>
      if o.agent == agent && o.symbol == symbol && o.side == Buy && o.filledQty > 0 && o.filledAt == Some(day)
      then o.filledQty else 0
  }

  ghost function FilledBuyQtyOnSession(orders: seq<Order>, agent: AgentId, symbol: Symbol, day: Time): int {
    SumInt(orders, RecordedBuy(agent, symbol, day))
  }

  datatype Holding = Holding(quantity: int, avgBuyPrice: real)
  datatype Snapshot = Snapshot(total: real, cash: real, invested: real)

  /** A portfolio row with its holdings and snapshots. */
  datatype Account = Account(
    cash: real, holdings: map<Symbol, Holding>, disqualified: bool, missedTicks: nat,
    snapshots: map<Time, Snapshot>)
  {
    function HeldQty(s: Symbol): int {
      if s in holdings then holdings[s].quantity else 0
    }

    /** The most recent snapshot, by date. */
    function LastSnapshot(): Option<Snapshot> {
      if snapshots == map[] then None else
        assert snapshots.Keys != {};
        Some(snapshots[MaxOf(snapshots.Keys)])
    }
  }

  function OpenAccount(startDate: Time): Account {
    Account(STARTING_CAPITAL, map[], false, 0,
            map[startDate - startDate % 86400 - 86400 := Snapshot(STARTING_CAPITAL, STARTING_CAPITAL, 0.0)])
  }

  /** UpsertHoldingAfterBuy.  A zero total cannot arise: every holding row stays positive (Books.Solvent). */
  function AddHolding(held: map<Symbol, Holding>, s: Symbol, qty: int, price: real): map<Symbol, Holding> {
    if s !in held then held[s := Holding(qty, price)] else
      var newQty := held[s].quantity + qty;
      var cost := held[s].quantity as real * held[s].avgBuyPrice + qty as real * price;
      held[s := Holding(newQty, if newQty == 0 then price else cost / newQty as real)]
  }

  /** ReduceHoldingAfterSell: a row that reaches zero is deleted. */
  function RemoveHolding(held: map<Symbol, Holding>, s: Symbol, qty: int): map<Symbol, Holding>
    requires s in held && held[s].quantity >= qty
  {
    var newQty := held[s].quantity - qty;
    if newQty == 0 then held - {s} else held[s := held[s].(quantity := newQty)]
  }

  /** The simulation's mutable tables. */
  datatype World = World(orders: seq<Order>, accounts: map<AgentId, Account>)

  /** Mark-to-market value of a set of holdings: a sum over a map, so in no particular order. */
  ghost function MarkedValue(held: map<Symbol, Holding>, marks: map<Symbol, real>): real
    requires held.Keys <= marks.Keys
    decreases |held|
  {
    if held == map[] then 0.0 else
      var s := AnyOf(held.Keys);
      held[s].quantity as real * marks[s] + MarkedValue(held - {s}, marks)
  }

  /** The iteration order of the map does not matter: any holding can be taken out first. */
  lemma {:induction false} MarkedValueRemove(held: map<Symbol, Holding>, marks: map<Symbol, real>, s: Symbol)
    requires s in held && held.Keys <= marks.Keys
    ensures MarkedValue(held, marks) == held[s].quantity as real * marks[s] + MarkedValue(held - {s}, marks)
    decreases |held|
  {
    var t := AnyOf(held.Keys);
    if t != s {
      var withoutT := held - {t};
      MarkedValueRemove(withoutT, marks, s);
      assert (held - {s}).Keys != {} by {
        assert t in held - {s};
      }
      MarkedValueRemove(held - {s}, marks, t);
      assert held - {t} - {s} == held - {s} - {t};
    }
  }

  /** Positive holdings at positive marks are worth something exactly when there are any. */
  lemma {:induction false} MarkedValueSign(held: map<Symbol, Holding>, marks: map<Symbol, real>)
    requires held.Keys <= marks.Keys
    requires forall s :: s in held ==> held[s].quantity > 0 && marks[s] > 0.0
    ensures held != map[] <==> MarkedValue(held, marks) > 0.0
    ensures held == map[] <==> MarkedValue(held, marks) == 0.0
    decreases |held|
  {
    if held != map[] {
      var s := AnyOf(held.Keys);
      MarkedValueSign(held - {s}, marks);
      assert held[s].quantity as real * marks[s] > 0.0;
    }
  }

  /** A symbol without a previous close counts as nothing, so at previous closes a value is only never negative. */
  lemma {:induction false} MarkedValueAtLeastZero(held: map<Symbol, Holding>, marks: map<Symbol, real>)
    requires held.Keys <= marks.Keys
    requires forall s :: s in held ==> held[s].quantity > 0 && marks[s] >= 0.0
    ensures MarkedValue(held, marks) >= 0.0
    decreases |held|
  {
    if held != map[] {
      var s := AnyOf(held.Keys);
      MarkedValueAtLeastZero(held - {s}, marks);
      assert held[s].quantity as real * marks[s] >= 0.0;
    }
  }
}
