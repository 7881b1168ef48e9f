/** Properties of whole hourly sessions: whose turn it is, halts, and participation. */
module Hourly {
  import opened Common
  import opened Calendar
  import opened Market
  import opened Rules
  import opened Path
  import opened Ledger
  import opened Tape
  import opened Matching
  import opened Books
  import opened Runs

  // ----- Locating one order inside a session -----

  /** The tables when matching, started at rank j, reaches rank i. */
  ghost function MatchUpTo(w: World, v: View, j: nat, i: nat): (r: World)
    requires j <= i <= |w.orders|
    ensures |r.orders| == |w.orders|
    decreases i - j
  {
    if j == i then w else MatchUpTo(MatchStep(w, v, j), v, j + 1, i)
  }

  lemma {:induction false} MatchSplits(w: World, v: View, j: nat, i: nat)
    requires j <= i <= |w.orders|
    ensures MatchFrom(w, v, j) == MatchFrom(MatchUpTo(w, v, j, i), v, i)
    ensures forall k :: i <= k < |w.orders| ==> MatchUpTo(w, v, j, i).orders[k] == w.orders[k]
    ensures forall k :: 0 <= k < j ==> MatchUpTo(w, v, j, i).orders[k] == w.orders[k]
    decreases i - j
  {
    if j < i {
      MatchSplits(MatchStep(w, v, j), v, j + 1, i);
    }
  }

  lemma {:induction false} MatchUpToKeepsBooks(w: World, v: View, j: nat, i: nat)
    requires j <= i <= |w.orders| && WorldInv(w, v.hourly) && v.Sound()
    ensures WorldInv(MatchUpTo(w, v, j, i), v.hourly)
    decreases i - j
  {
    if j < i {
      MatchStepKeepsBooks(w, v, j);
      MatchUpToKeepsBooks(MatchStep(w, v, j), v, j + 1, i);
    }
  }

  /** A row is changed by a session only when its own turn comes. */
  lemma RowInSession(w: World, v: View, i: nat)
    requires i < |w.orders|
    ensures MatchUpTo(w, v, 0, i).orders[i] == w.orders[i]
    ensures MatchFrom(w, v, 0).orders[i] == MatchStep(MatchUpTo(w, v, 0, i), v, i).orders[i]
  {
    MatchSplits(w, v, 0, i);
    var here := MatchUpTo(w, v, 0, i);
    var done := MatchStep(here, v, i);
    MatchedPrefixIsFixed(done, v, i + 1);
  }

  lemma {:induction false} MatchedPrefixIsFixed(w: World, v: View, i: nat)
    requires i <= |w.orders|
    ensures forall k :: 0 <= k < i ==> MatchFrom(w, v, i).orders[k] == w.orders[k]
    decreases |w.orders| - i
  {
    if i < |w.orders| {
      MatchedPrefixIsFixed(MatchStep(w, v, i), v, i + 1);
    }
  }

  // ----- Session halts -----

  /** The scanned prefix only grows, so a halt outlasts the bar that caused it. */
  lemma HaltPersists(h: History, s: Symbol, t1: Time, t2: Time, rate: real)
    requires t1 <= t2 && SameSession(t1, t2) && SessionHalted(h, s, t1)
    ensures s in HourView(h, t2, rate).halted
  {
    var t :| t in SessionBarsUpTo(h, s, t1, t1) && BreachAt(h, s, t, SessionCalendarUTC(t1));
    SessionBarsAre(h, s, t1, t1, t);
    SessionBarsAre(h, s, t2, t2, t);
    QueriesNameTheirSymbols(h, s, t);
    assert SessionHalted(h, s, t2);
  }

  ghost predicate SymbolUntouched(w: World, w': World, s: Symbol) {
    && |w.orders| <= |w'.orders| && w.accounts.Keys <= w'.accounts.Keys
    && (forall i :: 0 <= i < |w.orders| ==> w'.orders[i].symbol == w.orders[i].symbol)
    && (forall i :: 0 <= i < |w.orders| && w.orders[i].symbol == s ==> Untraded(w.orders[i], w'.orders[i]))
    && (forall i :: |w.orders| <= i < |w'.orders| && w'.orders[i].symbol == s ==> w'.orders[i].trace.executed == 0)
    && (forall a :: a in w.accounts ==> w'.accounts[a].HeldQty(s) == w.accounts[a].HeldQty(s))
  }

  /** A trade in another symbol leaves this one's holding alone. */
  lemma OtherTrade(w: World, v: View, o: Order, s: Symbol)
    requires o.symbol != s && TryFill(w, v, o).Traded?
    ensures o.agent in w.accounts && TryFill(w, v, o).account.HeldQty(s) == w.accounts[o.agent].HeldQty(s)
    ensures TryFill(w, v, o).order.symbol == o.symbol
  {
  }

  lemma HaltedStep(w: World, v: View, i: nat, s: Symbol)
    requires i < |w.orders| && v.hourly && s in v.halted
    ensures SymbolUntouched(w, MatchStep(w, v, i), s)
  {
    var o := w.orders[i];
    if Due(v, o) {
      if o.symbol == s {
        assert TryFill(w, v, o).Refused?;
      } else if TryFill(w, v, o).Traded? {
        OtherTrade(w, v, o, s);
      }
    }
  }

  lemma UntouchedIsTransitive(w: World, w': World, w'': World, s: Symbol)
    requires SymbolUntouched(w, w', s) && SymbolUntouched(w', w'', s)
    ensures SymbolUntouched(w, w'', s)
  {
  }

  lemma {:induction false} HaltedMatching(w: World, v: View, i: nat, s: Symbol)
    requires i <= |w.orders| && v.hourly && s in v.halted
    ensures SymbolUntouched(w, MatchFrom(w, v, i), s)
    decreases |w.orders| - i
  {
    if i < |w.orders| {
      HaltedStep(w, v, i, s);
      HaltedMatching(MatchStep(w, v, i), v, i + 1, s);
      UntouchedIsTransitive(w, MatchStep(w, v, i), MatchFrom(w, v, i), s);
    }
  }

  lemma ClosingTouchesNoHolding(w: World, v: View, s: Symbol)
    requires CloseAccounts(w, v).Some?
    ensures SymbolUntouched(w, CloseAccounts(w, v).value, s)
  {
    var w' := CloseAccounts(w, v).value;
    forall a | a in w.accounts
      ensures w'.accounts[a].HeldQty(s) == w.accounts[a].HeldQty(s)
    {
      assert w'.accounts[a] == CloseAccount(w.accounts[a], v);
    }
  }

  lemma RequestsTouchNoHolding(m: Setup, w: World, e: Event, s: Symbol)
    requires !e.Match?
    ensures SymbolUntouched(w, Apply(m, w, e), s)
  {
  }

  lemma HaltedEvent(m: Setup, w: World, e: Event, s: Symbol)
    requires m.hourly && (e.Match? ==> s in ViewAt(m, e.key).halted)
    ensures SymbolUntouched(w, Apply(m, w, e), s)
  {
    if e.Match? {
      var v := ViewAt(m, e.key);
      HaltedMatching(w, v, 0, s);
      if ProcessSession(w, v).Some? && v.ClosesSession() {
        ClosingTouchesNoHolding(MatchFrom(w, v, 0), v, s);
        UntouchedIsTransitive(w, MatchFrom(w, v, 0), ProcessSession(w, v).value, s);
      }
    } else {
      RequestsTouchNoHolding(m, w, e, s);
    }
  }

  /** Once a bar breaches the band for a symbol, nothing in that symbol trades at it or later in the session. */
  lemma {:induction false} HaltIsPermanent(m: Setup, w: World, events: seq<Event>, s: Symbol, t: Time)
    requires m.hourly && SessionHalted(m.history, s, t)
    requires forall i :: 0 <= i < |events| && events[i].Match? ==> t <= events[i].key && SameSession(t, events[i].key)
    ensures SymbolUntouched(w, Run(m, w, events), s)
  {
    if events != [] {
      var n := |events| - 1;
      HaltIsPermanent(m, w, events[..n], s, t);
      var before := Run(m, w, events[..n]);
      if events[n].Match? {
        HaltPersists(m.history, s, t, events[n].key, m.rate);
      }
      HaltedEvent(m, before, events[n], s);
      UntouchedIsTransitive(w, before, Run(m, w, events), s);
    }
  }

  // ----- Greedy participation -----

  /** Shares one bar offers an order: floor(rate * volume), nothing when the symbol did not print. */
  function Offered(v: View, s: Symbol): nat {
    if s !in v.bars then 0 else
      var floor := ((if v.rate <= 0.0 then DEFAULT_PARTICIPATION_RATE else v.rate) * v.bars[s].volume as real).Floor;
      if floor < 0 then 0 else floor
  }

  /** The row met a refusal other than running out of session. */
  predicate MetRejection(o: Order) {
    o.status == Rejected && o.reason != Some(DayOrderExpired)
  }

  /** Where a market order stands after bars that together offered some volume. */
  predicate Greedy(o: Order, offered: int, next: Option<Time>) {
    && o.trace.executed == Lesser(o.quantity, offered)
    && (if o.trace.executed == o.quantity then o.status == Filled
        else match next
          case Some(t) => o.IsPending() && o.matchTs == Some(t) && o.filledQty == o.trace.executed
          case None =>
            if o.trace.executed > 0 then o.status == Filled
            else o.status == Rejected && o.reason == Some(DayOrderExpired))
  }

  lemma OfferIsTaken(v: View, o: Order)
    requires v.hourly && OrderInv(o) && o.IsPending() && o.otype == MarketOrder
    ensures match PlanFor(v, o)
      case Execute(_, qty, _, _) => qty == Lesser(o.WorkingQty(), Offered(v, o.symbol))
      case Hold => Offered(v, o.symbol) == 0
      case Refuse(reason) => reason != DayOrderExpired
  {
  }

  lemma GreedyHold(v: View, o: Order)
    requires v.hourly && OrderInv(o) && o.IsPending() && Offered(v, o.symbol) == 0
    ensures Greedy(Postpone(v, o), o.trace.executed, v.next)
  {
    if o.filledQty > 0 {
      ExpiryKeepsRow(o, v.day);
    }
  }

  lemma GreedyRecord(v: View, o: Order, e: Execution, p: Plan)
    requires v.hourly && Tradable(o, p) && e.qty == p.qty == Lesser(o.WorkingQty(), Offered(v, o.symbol))
    requires p.next.Some? ==> p.next == v.next
    requires p.next.None? ==> p.qty == o.WorkingQty() || v.next.None?
    ensures Greedy(RecordFill(o, e, p.remainingAfter, v.day, p.next), o.trace.executed + Offered(v, o.symbol), v.next)
  {
  }

  /** One bar gives a market order all it offers, up to what is left of the order. */
  lemma GreedyStep(w: World, v: View, i: nat)
    requires WorldInv(w, true) && v.hourly && v.Sound() && i < |w.orders| && Due(v, w.orders[i])
    requires w.orders[i].otype == MarketOrder
    ensures var o, o' := w.orders[i], MatchStep(w, v, i).orders[i];
      MetRejection(o') || Greedy(o', o.trace.executed + Offered(v, o.symbol), v.next)
  {
    var o := w.orders[i];
    OfferIsTaken(v, o);
    match TryFill(w, v, o)
    case Refused(_) =>
    case Held => GreedyHold(v, o);
    case Traded(_, _) =>
      PlanFacts(v, o);
      var acc, p := w.accounts[o.agent], PlanFor(v, o);
      if o.side == Buy {
        FillBuyBooks(acc, v, o, p);
        GreedyRecord(v, o, BuyExecution(p), p);
      } else {
        var bought := FilledBuyQtyOnSession(w.orders, o.agent, o.symbol, v.day);
        GreedyRecord(v, o, SellExecution(v, acc.HeldQty(o.symbol), bought, p.qty, p.qty, p.price), p);
      }
  }

  lemma SessionKeepsRow(w: World, v: View, i: nat)
    requires i < |w.orders| && ProcessSession(w, v).Some?
    ensures |ProcessSession(w, v).value.orders| == |w.orders|
    ensures ProcessSession(w, v).value.orders[i] == MatchFrom(w, v, 0).orders[i]
  {
  }

  lemma GreedySession(w: World, v: View, i: nat, offered: nat)
    requires WorldInv(w, true) && v.hourly && v.Sound() && i < |w.orders| && ProcessSession(w, v).Some?
    requires w.orders[i].otype == MarketOrder
    requires MetRejection(w.orders[i]) || Greedy(w.orders[i], offered, Some(v.now))
    ensures |ProcessSession(w, v).value.orders| == |w.orders|
    ensures var o, o' := w.orders[i], ProcessSession(w, v).value.orders[i];
      o'.SameTerms(o) && (MetRejection(o') || Greedy(o', offered + Offered(v, o.symbol), v.next))
  {
    SessionKeepsRow(w, v, i);
    RowInSession(w, v, i);
    var here := MatchUpTo(w, v, 0, i);
    MatchUpToKeepsBooks(w, v, 0, i);
    if Due(v, w.orders[i]) {
      GreedyStep(here, v, i);
      AttemptEffect(here, v, i);
    }
  }

  /** A row is left alone by a session it is not due in. */
  lemma NotDueKeepsRow(w: World, v: View, i: nat)
    requires i < |w.orders| && !Due(v, w.orders[i]) && ProcessSession(w, v).Some?
    ensures |ProcessSession(w, v).value.orders| == |w.orders| && ProcessSession(w, v).value.orders[i] == w.orders[i]
  {
    SessionKeepsRow(w, v, i);
    RowInSession(w, v, i);
  }

  /** The event matches the bar an order waits for, and commits. */
  ghost predicate Reaches(m: Setup, w: World, e: Event, bar: Option<Time>) {
    e.Match? && bar == Some(e.key) && ProcessSession(w, ViewAt(m, e.key)).Some?
  }

  /** The bar an order due at `first` waits for after a run; none once its session is over. */
  ghost function WaitsFor(m: Setup, w: World, events: seq<Event>, first: Time): Option<Time> {
    if events == [] then Some(first) else
      var prior, e := events[..|events| - 1], events[|events| - 1];
      var bar := WaitsFor(m, w, prior, first);
      if Reaches(m, Run(m, w, prior), e, bar) then ViewAt(m, e.key).next else bar
  }

  /** What the bars it waited for have offered. */
  ghost function OfferedOver(m: Setup, w: World, events: seq<Event>, first: Time, s: Symbol): nat {
    if events == [] then 0 else
      var prior, e := events[..|events| - 1], events[|events| - 1];
      OfferedOver(m, w, prior, first, s)
      + if Reaches(m, Run(m, w, prior), e, WaitsFor(m, w, prior, first)) then Offered(ViewAt(m, e.key), s) else 0
  }

  /** Where a market order stands: withdrawn, refused, or served greedily. */
  predicate Served(o: Order, withdrawn: bool, offered: int, next: Option<Time>) {
    (withdrawn && o.status == Canceled) || MetRejection(o) || Greedy(o, offered, next)
  }

  lemma GreedyMatch(m: Setup, w: World, key: Time, i: nat, withdrawn: bool, offered: nat, bar: Option<Time>)
    requires m.hourly && WellFormed(m.history) && WorldInv(w, true) && i < |w.orders|
    requires w.orders[i].otype == MarketOrder && Served(w.orders[i], withdrawn, offered, bar)
    ensures var w', v := Apply(m, w, Match(key)), ViewAt(m, key);
      && i < |w'.orders| && w'.orders[i].SameTerms(w.orders[i])
      && if Reaches(m, w, Match(key), bar)
         then Served(w'.orders[i], withdrawn, offered + Offered(v, w.orders[i].symbol), v.next)
         else Served(w'.orders[i], withdrawn, offered, bar)
  {
    var v := ViewAt(m, key);
    ViewsAreSound(m, key);
    if ProcessSession(w, v).Some? {
      if Due(v, w.orders[i]) {
        GreedySession(w, v, i, offered);
      } else {
        NotDueKeepsRow(w, v, i);
      }
    }
  }

  /** A request changes an order only by withdrawing it. */
  lemma RequestKeepsServed(m: Setup, w: World, e: Event, i: nat)
    requires !e.Match? && i < |w.orders|
    ensures var w' := Apply(m, w, e);
      i < |w'.orders| && w'.orders[i] == if e == Cancel(i) then CancelPending(w.orders[i]) else w.orders[i]
  {
  }

  lemma GreedyEvent(m: Setup, w: World, e: Event, i: nat, withdrawn: bool, offered: nat, bar: Option<Time>)
    requires m.hourly && WellFormed(m.history) && WorldInv(w, true) && i < |w.orders|
    requires w.orders[i].otype == MarketOrder && Served(w.orders[i], withdrawn, offered, bar)
    ensures var w', reaches, still := Apply(m, w, e), Reaches(m, w, e, bar), withdrawn || e == Cancel(i);
      && i < |w'.orders| && w'.orders[i].SameTerms(w.orders[i])
      && Served(w'.orders[i], still,
                offered + (if reaches then Offered(ViewAt(m, e.key), w.orders[i].symbol) else 0),
                if reaches then ViewAt(m, e.key).next else bar)
  {
    if e.Match? {
      GreedyMatch(m, w, e.key, i, withdrawn, offered, bar);
    } else {
      RequestKeepsServed(m, w, e, i);
    }
  }

  /**
   * Greedy participation.  Over any run of requests, silences, failures and matches, an hourly market order that was
   * neither withdrawn nor refused has executed exactly min(quantity, sum of floor(rate * volume)) over the bars of
   * its session matched so far; at the close it is filled if that is positive and expired otherwise.
   */
  lemma {:induction false} GreedyParticipation(m: Setup, w: World, events: seq<Event>, i: nat, first: Time)
    requires m.hourly && WellFormed(m.history) && WorldInv(w, true) && i < |w.orders|
    requires w.orders[i].otype == MarketOrder && w.orders[i].trace.executed == 0
    requires w.orders[i].IsPending() && w.orders[i].matchTs == Some(first)
    ensures WorldInv(Run(m, w, events), true) && i < |Run(m, w, events).orders|
    ensures var o := Run(m, w, events).orders[i];
      && o.SameTerms(w.orders[i])
      && Served(o, Cancel(i) in events, OfferedOver(m, w, events, first, o.symbol), WaitsFor(m, w, events, first))
  {
    RunKeepsBooks(m, w, events);
    if events != [] {
      var n := |events| - 1;
      var before, s := Run(m, w, events[..n]), w.orders[i].symbol;
      RunKeepsBooks(m, w, events[..n]);
      GreedyParticipation(m, w, events[..n], i, first);
      GreedyEvent(m, before, events[n], i, Cancel(i) in events[..n], OfferedOver(m, w, events[..n], first, s),
                  WaitsFor(m, w, events[..n], first));
      assert events == events[..n] + [events[n]];
    }
  }
}
