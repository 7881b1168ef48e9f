/** What every filled daily row was traded at and how it was taxed, on every run. */
module DailyLaw {
  import opened Common
  import opened Market
  import opened Rules
  import opened Ledger
  import opened Tape
  import opened Matching
  import opened Books
  import opened Runs
  import opened Rulebook

  /** The price rests on the date's own bar and the volume of the last bar before it. */
  ghost predicate PricedOn(h: History, o: Order, day: Time, base: real, t: Time, prev: Bar) {
    && (o.symbol, day) in h.daily && IsLastBar(h.daily, o.symbol, day, false, t, prev)
    && DailyBase(base, o, h.daily[(o.symbol, day)]) && Impacted(o.filledPrice, base, o.side, o.quantity, prev.volume)
  }

  /** A row that traded did so whole, at its price, and a sale was taxed as delivery throughout. */
  ghost predicate DailyRow(h: History, o: Order) {
    o.trace.executed > 0 ==>
      && o.status == Filled && o.trace.executed == o.filledQty == o.quantity && o.filledAt.Some?
      && (exists base, t, prev :: PricedOn(h, o, o.filledAt.value, base, t, prev))
      && (o.side == Sell ==> o.trace.delivered == o.quantity && o.trace.deliveredValue == o.tradeValue)
  }

  lemma PreviousVolume(h: History, s: Symbol, day: Time) returns (t: Time, prev: Bar)
    requires DayView(h, day).PrevVolume(s) > 0
    ensures IsLastBar(h.daily, s, day, false, t, prev) && prev.volume == DayView(h, day).PrevVolume(s)
  {
    PreviousBarIsLast(h, s, day);
    prev := PrevTradingDayBar(h, s, day).value;
    t :| IsLastBar(h.daily, s, day, false, t, prev);
  }

  /** The row a daily trade writes. */
  lemma TradedRow(h: History, day: Time, o: Order, o': Order, e: Execution)
    requires DayView(h, day).Sound() && OrderInv(o) && o.IsPending() && AllOrNothing(o)
    requires var p := PlanDaily(DayView(h, day), o); p.Execute? && e.qty == p.qty && e.price == p.price
    requires o.side == Sell ==> e.delivered == e.qty
    requires o' == RecordFill(o, e, 0, day, None)
    ensures DailyRow(h, o')
  {
    var v := DayView(h, day);
    DailyPriceInFigures(v, o);
    var base, price :| PlanDaily(v, o) == Execute(price, o.quantity, 0, None)
      && DailyBase(base, o, v.bars[o.symbol]) && Impacted(price, base, o.side, o.quantity, v.PrevVolume(o.symbol));
    var t, prev := PreviousVolume(h, o.symbol, day);
    QueriesNameTheirSymbols(h, o.symbol, day);
    assert o' == MarkFilled(o, e, day);
    assert PricedOn(h, o', day, base, t, prev);
  }

  /** A row that is not pending is not touched, and one that does not trade has nothing to account for. */
  lemma QuietRow(h: History, o: Order, o': Order)
    requires DailyRow(h, o) && OrderInv(o) && AllOrNothing(o) && (o' == o || (o.IsPending() && o'.trace == o.trace))
    ensures DailyRow(h, o')
  {
  }

  lemma StepRow(h: History, w: World, day: Time, i: nat)
    requires var v := DayView(h, day); WorldInv(w, false) && v.Sound() && i < |w.orders| && DailyRow(h, w.orders[i])
    ensures DailyRow(h, MatchStep(w, DayView(h, day), i).orders[i])
  {
    var v, o := DayView(h, day), w.orders[i];
    if Due(v, o) {
      match TryFill(w, v, o)
      case Refused(reason) => QuietRow(h, o, MarkRejected(o, reason));
      case Held => PostponeKeepsRow(v, o);
                   QuietRow(h, o, Postpone(v, o));
      case Traded(o', _) =>
        AttemptEffect(w, v, i);
        PlanFacts(v, o);
        var acc, p := w.accounts[o.agent], PlanFor(v, o);
        if o.side == Buy {
          FillBuyBooks(acc, v, o, p);
          TradedRow(h, day, o, o', BuyExecution(p));
        } else {
          var bought := FilledBuyQtyOnSession(w.orders, o.agent, o.symbol, v.day);
          FillSellBooks(acc, v, o, p, bought);
          TradedRow(h, day, o, o', SellExecution(v, acc.HeldQty(o.symbol), bought, p.qty, p.qty, p.price));
        }
    }
  }

  ghost predicate DailyRows(h: History, w: World) {
    forall i :: 0 <= i < |w.orders| ==> DailyRow(h, w.orders[i])
  }

  lemma StepRows(h: History, w: World, day: Time, i: nat)
    requires WorldInv(w, false) && DayView(h, day).Sound() && i < |w.orders| && DailyRows(h, w)
    ensures DailyRows(h, MatchStep(w, DayView(h, day), i))
  {
    var w' := MatchStep(w, DayView(h, day), i);
    forall j | 0 <= j < |w'.orders|
      ensures DailyRow(h, w'.orders[j])
    {
      if j == i {
        StepRow(h, w, day, i);
      } else {
        assert w'.orders[j] == w.orders[j];
      }
    }
  }

  lemma {:induction false} MatchingRows(h: History, w: World, day: Time, i: nat)
    requires WorldInv(w, false) && DayView(h, day).Sound() && i <= |w.orders| && DailyRows(h, w)
    ensures DailyRows(h, MatchFrom(w, DayView(h, day), i))
    decreases |w.orders| - i
  {
    if i < |w.orders| {
      StepRows(h, w, day, i);
      MatchStepKeepsBooks(w, DayView(h, day), i);
      MatchingRows(h, MatchStep(w, DayView(h, day), i), day, i + 1);
    }
  }

  lemma EventRows(m: Setup, w: World, e: Event)
    requires !m.hourly && WellFormed(m.history) && WorldInv(w, false) && DailyRows(m.history, w)
    ensures DailyRows(m.history, Apply(m, w, e))
  {
    match e
    case Match(day) =>
      ViewsAreSound(m, day);
      MatchingRows(m.history, w, day, 0);
    case Cancel(i) =>
      if i < |w.orders| {
        QuietRow(m.history, w.orders[i], CancelPending(w.orders[i]));
      }
    case _ =>
  }

  /**
   * On every daily run, a filled row traded whole at the open of its date, or at its limit, moved by the impact its
   * quantity has on the previous day's volume; and a sale was taxed as delivery throughout.
   */
  lemma {:induction false} DailyFillsInFigures(m: Setup, events: seq<Event>)
    requires !m.hourly && WellFormed(m.history)
    ensures DailyRows(m.history, Run(m, EMPTY_WORLD, events))
  {
    if events != [] {
      var n := |events| - 1;
      BooksBalance(m, events[..n]);
      DailyFillsInFigures(m, events[..n]);
      EventRows(m, Run(m, EMPTY_WORLD, events[..n]), events[n]);
    }
  }
}
