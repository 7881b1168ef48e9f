# Market simulator: matching engine, ledger, clock

A Dafny model of the Go `market-simulator`: how it matches orders against a market history, moves cash and shares,
and steps a simulation clock that decides which session each order is matched in. Prices and cash are exact reals,
quantities and instants (seconds) are integers, and a market history is a finite map of daily and hourly bars.

Two coupled layers are modelled.

- **Engine and ledger.** Daily matching is all or nothing; hourly matching slices orders by volume participation and
  carries the remainder to later bars of the session. `Engine` holds the imperative form (transactions, row updates,
  caches filled as they are needed, map loops in any order); `Matching` holds one function of the tables and the market
  view (`Tape`) that both forms of `ProcessSimulation…` equal. Everything about runs is proved of that function.
- **Clock and registry.** `LiveRegistry` holds the objects updated in place (`LiveClock`, `LiveRegistry`, PlaceOrder);
  `Clock` holds the step functions they equal; `Simulation` couples registry, tables and per-tick counters into one
  state machine with matcher failures, publishing failures and restarts.

`Metrics` holds the closed-trade analyser and the drawdown scan.

| module | content |
|---|---|
| Common, Calendar, Market, Fees, Rules, Path | values, session dates, queries over the history, fee schedule, daily and hourly pricing rules |
| Ledger, Tape, Matching | order and portfolio rows, what a step can see of the market, the matching step |
| Books, Runs, Audit | row and account invariants, runs of events, the cash and share audits |
| Rulebook, DailyLaw, Silence, Protocol | the rules in figures: prices, checks, costs, snapshots, disqualification by silence, what requests do |
| Independence, LookAhead, Hourly, Delivery | relational and per-session properties |
| Clock, Lifecycle, SessionOrder, Checkpoints, Schedule | registry steps, which sessions get matched, checkpoints, agreement with the engine |
| Simulation, Stranding, Limits, Commits | the coupled machine, which session an order waits for, the per-tick limits, when matches commit |
| Engine, LiveRegistry, Metrics | the imperative forms |

`Order.trace` (shares really executed, shares and value taxed as delivery) and the registry's `matched` and
`checkpoints` logs are bookkeeping of the model: the program keeps no such columns. No branch depends on them.

## Where the code departs from the tidy statement

- **Overstated rows.** A partial first slice on a session's last bar takes the MarkFilled branch, which records the
  whole quantity as filled (engine_hourly.go:219-222, engine.go:373-377, store.go:111). `Audit.OverstatementExactly`
  says when, `Audit.OverstatementHappens` gives a case, `Audit.RowLaws` says exactly which rows obey
  price * quantity = value.  Later sales of the session are then split against too many recorded buys:
  `Delivery.DeliverySplitExactly` says exactly when the session's tax split is right all the same, and
  `Delivery.SaleIsMisTaxed` gives a sale of shares held overnight that is taxed as intraday.
- **A lost checkpoint event.** With a zero-length window, if a tick advances onto a session where a checkpoint falls due
  and the checkpoint event cannot be published, Tick restores a clock whose session has already been matched
  (registry.go:370-377, autotick.go:114-126). The next tick matches that session again.
  `SessionOrder.InOrderExactly` shows that this is the only way clock and log get out of step, and
  `SessionOrder.EachSessionOnceExactly` which later closes then repeat a session; `SessionOrder.SessionMatchedTwice` is a
  concrete run, and `SessionOrder.NeverSkipped` says what still holds afterwards.
- **Stranded orders.** While the clock is behind, an order can be stored for a session that has already been matched.
  `Stranding.NoOrderStranded` says that this is exactly when an order is stranded; `Stranding.OrderIsStranded` is a run
  in which the order is still pending after a restart and the last session.
- **Checkpoints that are left.** The registry accepts a plain Start while a checkpoint is awaited, and an undone pause
  leaves one too. `Checkpoints.GateHoldsClock` says that these are the only ways out besides Proceed;
  `Checkpoints.CheckpointsAreEvenlySpaced` says exactly when the spacing itself breaks: when a session is then completed
  before Proceed. `Checkpoints.SpacingBreaks` is a run whose second checkpoint comes one session after the first.
- **Limits per tick.** docs/rules.md section 5.2 allows an agent ten orders per tick. The counter is also cleared by
  every committed close and by a restart (registry.go:423, registry.go:148-151), so more get through before the next
  tick: exactly when what the counter has forgotten makes up the limit (`Limits.LimitHoldsExactly`).
  `Limits.TwiceTheLimit` stores twenty orders, or lets two hundred calls through, with a single tick.
- **Daily matches that cannot commit.** A daily close marks every holding at the date's own bar and errs without one, so
  one held symbol that did not print makes the whole match fail, for every agent (`Commits.DailyCommitsExactly`,
  `Commits.DailyMatchFails`). Hourly closes mark at the last bar printed and always commit
  (`Commits.HourlyMatchesCommit`).
- **Zero-length windows and silence.** Tick clears the call counters before it closes the window it has just opened
  (registry.go:354-371), so every active agent is charged a missed tick however many calls it made
  (`Simulation.ZeroWindowIgnoresCalls`). A window of positive length counts them (`Simulation.OpenWindowCountsCalls`).
- **Hourly stops** can fill outside the bar (`Path.StopCanFillOutsideBar`). Before spread and impact that is exactly when
  the stop lies beyond the side it triggers from (`Path.StopInsideBarExactly`); the half-spread can carry a price out of
  the bar as well, and `Path.QuotedStopInsideBarExactly` says exactly when it stays inside. Impact adds up to 0.05%.
- **Concentration.** docs/rules.md section 6.1 checks the order's cost, brokerage included; the code checks the
  position's size at previous closes, costs not counted (engine.go:360-364). The model follows the code.
- **Cash check.** docs/rules.md section 6.2 counts brokerage only, at the open; the code counts every fee, at the
  impacted price (engine.go:353-358). The model follows the code.

## Model

| member | source | states |
|---|---|---|
| Engine.Engine.ProcessSimulationDay | market-simulator/internal/orderbook/engine.go:75-250 | The whole daily transaction: loading caches, the order loop and the snapshot loop produce exactly the tables of the matching specification, and an error leaves the tables as they were |
| Engine.Engine.ProcessSimulationBar | market-simulator/internal/orderbook/engine_hourly.go:21-158 | The same for one hourly bar, with snapshots only on the session's last bar; the lazily filled caches make no difference to the result |
| Engine.Engine.TryFillOrder | market-simulator/internal/orderbook/engine.go:252-311 | One order against the daily bar: the reason returned and the rows written are those of the specification, branch by branch; a refusal or deferral writes nothing |
| Engine.Engine.PlanSlice | market-simulator/internal/orderbook/engine_hourly.go:178-225 | The market side of an hourly attempt: breaker, universe, bar, minimum price, liquidity, path resolution, spread, impact, and what is carried to the next bar |
| Engine.Engine.TryFillHourly | market-simulator/internal/orderbook/engine_hourly.go:160-238 | One order against an hourly bar: verdict and writes are the specification's |
| Engine.Engine.FillBuy | market-simulator/internal/orderbook/engine.go:313-396 | Cash and concentration checks, then cash, holding and row move together; every rejection leaves the transaction unchanged |
| Engine.Engine.FillSell | market-simulator/internal/orderbook/engine.go:398-464 | Holdings check, then cash, holding and row move together; every rejection leaves the transaction unchanged |
| Engine.Engine.HourlySellFees | market-simulator/internal/orderbook/engine_hourly.go:240-264 | The delivery part of an hourly sale is what was held overnight beyond the session's recorded buys, clamped to the slice |
| Engine.Engine.PrevClose | market-simulator/internal/orderbook/engine.go:46-60 | The cached lookup returns the close of the symbol's last bar before the day, and zero if it has none, and keeps the cache truthful |
| Engine.Engine.PortfolioPV | market-simulator/internal/orderbook/engine.go:62-72 | The map loop computes cash plus holdings at previous closes whatever order the map yields |
| Engine.Engine.LoadDay | market-simulator/internal/orderbook/engine.go:91-127 | After the symbol loop every pending symbol's breaker, previous close and volume agree with the market, including missing bars |
| Engine.Engine.LoadHour | market-simulator/internal/orderbook/engine_hourly.go:52-87 | The same for an hourly bar, the breaker being a scan of the session so far |
| Engine.Engine.ScanSession | market-simulator/internal/orderbook/engine_hourly.go:79-85 | The early-exit scan says halted exactly when some bar of the session up to now breached the band |
| Engine.Engine.ListPendingForDate | market-simulator/internal/orders/store.go:67-80 | Exactly the due rows, in creation order |
| Engine.Engine.ListPendingForTs | market-simulator/internal/orders/store.go:82-95 | Exactly the rows due at the bar, in creation order |
| Engine.Engine.MatchDay | market-simulator/internal/orderbook/engine.go:131-169 | Iterating over the pending list taken up front is the in-order scan of the whole table |
| Engine.Engine.MatchHour | market-simulator/internal/orderbook/engine_hourly.go:91-136 | The same for an hourly bar |
| Engine.Engine.Invested | market-simulator/internal/orderbook/engine.go:208-219 | Fails exactly when a holding has no bar, otherwise the value of all holdings whatever the map order |
| Engine.Engine.WriteSnapshots | market-simulator/internal/orderbook/engine_hourly.go:266-329 | Fails exactly when an active agent cannot be marked, otherwise closes every account as specified |
| Engine.Tx.FilledBuyQty | market-simulator/internal/orders/store.go:175-186 | The running total is the SUM over the table as it stands inside the transaction |
| Engine.SkipIdle | market-simulator/internal/orders/store.go:67-95 | Rows that are not due do not affect a session, so walking a pending list equals scanning the table |
| Rulebook.ViewInFigures | market-simulator/internal/orderbook/engine_hourly.go:31-39 | A daily step is for its date, an hourly one for its instant on that instant's IST date; it goes on exactly to the market's next bar of the same date |
| Rulebook.DayHaltInFigures | market-simulator/internal/orderbook/rules.go:17-23 | A symbol is halted for a day whose open is outside 90% to 110% of the close of its last bar before |
| Rulebook.HourHaltInFigures | market-simulator/internal/orderbook/engine_hourly.go:66-87 | And for an hourly session from the first bar on whose high or low is |
| Rulebook.RestrictionsInFigures | market-simulator/internal/orderbook/rules.go:26-42 | Liquidity is 1% of the previous volume, the minimum price 10, and concentration 20% of the portfolio's value give or take a billionth |
| Rulebook.ImpactInFigures | market-simulator/internal/orderbook/rules.go:102-115 | Past the liquidity check the price moves against the trader by a tenth of what the quantity takes of the previous volume beyond 0.5%, and not at all up to that |
| Rulebook.DailyPriceInFigures | market-simulator/internal/orderbook/engine.go:263-310 | A daily order trades exactly when every rule lets it and the day's range reaches its price: whole, at the open or its limit, with impact |
| Rulebook.DailyRefusalInFigures | market-simulator/internal/orderbook/engine.go:263-299 | A refused daily order is refused for the first rule it breaks; one that is only not triggered waits |
| Rulebook.HourlyPriceInFigures | market-simulator/internal/orderbook/engine_hourly.go:185-225 | An hourly slice is min(remaining, floor(rate * volume)) at the mean of high, low and close, the better of limit and open, or the stop's price, plus or minus the half-spread where it is paid, with the slice's own impact; the rest waits for the session's next bar if there is one |
| Rulebook.HourlyRefusalInFigures | market-simulator/internal/orderbook/engine_hourly.go:174-210 | A refused hourly order is refused for the first rule it breaks; without a bar, a trigger or volume it waits |
| Rulebook.BuyInFigures | market-simulator/internal/orderbook/engine.go:353-372 | A buy costs its value and 0.13655% of it; it is refused exactly when cash is short of that, and then exactly when the position would exceed the limit |
| Rulebook.AddingMovesCost | market-simulator/internal/portfolio/tx.go:61-85 | A purchase adds its cost to average price times quantity and touches no other holding |
| Rulebook.SellingKeepsCost | market-simulator/internal/portfolio/tx.go:87-105 | A sale keeps the average price of what remains, drops a holding that is sold out, and touches no other |
| Rulebook.SellInFigures | market-simulator/internal/orderbook/engine.go:419-439 | A sale needs the shares and brings its value less 0.12155%, 0.1% of what is taxed as delivery and 0.025% of the rest |
| Rulebook.TradeInFigures | market-simulator/internal/orders/store.go:104-159 | What a trade writes to its row: value, shares, date, next bar, remainder, and whether the row is closed |
| Rulebook.WaitingInFigures | market-simulator/internal/orderbook/engine_hourly.go:93-118 | A waiting order moves to the next day or bar; at the end it is rejected as such, or closed if it is partly filled |
| Rulebook.OpeningInFigures | market-simulator/internal/portfolio/dq.go:175-178 | A portfolio opens with a million in cash and a snapshot of it on the day before the start |
| Rulebook.MarksInFigures | market-simulator/internal/market/data.go:252-274 | Holdings are marked at the close of the date's bar, or at the last close printed by the bar's instant |
| Rulebook.SnapshotInFigures | market-simulator/internal/orderbook/engine.go:196-222 | A closing session records each active agent's cash, its holdings at the session's marks, and their sum; any other session records nothing |
| DailyLaw.DailyFillsInFigures | market-simulator/internal/orderbook/engine.go:252-311 | On every daily run a filled row traded whole at the open of its date, or at its limit, moved by its impact on the last volume before; a sale was delivery throughout |
| Books.PlanFacts | market-simulator/internal/orderbook/engine_hourly.go:178-225 | A slice that gets past the market checks has positive price and quantity, never more than is left, and respects the limit up to 0.05% |
| Books.MarketSliceBound | market-simulator/internal/orderbook/engine_hourly.go:212-216 | An hourly market fill stays within (Low - half-spread) * 0.9995 and (High + half-spread) * 1.0005 |
| Books.BookingLemma | market-simulator/internal/orders/store.go:104-159 | Whichever UPDATE records a slice, the row keeps price * shares = value and additive fees, and its net cash moves by exactly the debit or credit |
| Books.FillBuyEffect | market-simulator/internal/orderbook/engine.go:353-379 | A committed buy moves one account and one row by matching amounts and keeps the account solvent; it overstates exactly when a partial first slice carries nothing over |
| Books.BuyStaysConcentrated | market-simulator/internal/orderbook/engine.go:353-371 | After a committed buy cash is not negative and the position, at previous closes, is at most 20% of the pre-trade portfolio value at previous closes |
| Books.FillSellEffect | market-simulator/internal/orderbook/engine.go:423-446 | The same for a sale, in either fee regime |
| Books.ExpiryKeepsRow | market-simulator/internal/orderbook/engine_hourly.go:94-100 | Closing a partly filled order with an empty slice keeps its average price, value, fees and quantity |
| Runs.SessionKeepsBooks | market-simulator/internal/orderbook/engine.go:131-239 | A successful transaction keeps every row law, every account solvent and every account reconciled with its rows |
| Runs.BooksBalance | market-simulator/internal/orderbook/engine.go:75-250 | The same in every state reachable by registrations, orders, cancellations, missed ticks and matches |
| Audit.CashAudit | market-simulator/internal/orderbook/engine.go:353-379 | On every run cash = 1,000,000 - sum over buys of 1.0013655 * value + sum over sells of value less 0.12155% of it, 0.1% of its delivery part and 0.025% of the rest, over all of the agent's rows whatever their status |
| Audit.FeesAudit | market-simulator/internal/fees/fees.go:32-73 | On every run every component of every row's fees is its rate times the row's whole value, and the total is their sum |
| Audit.ShareConservation | market-simulator/internal/portfolio/tx.go:61-105 | On every run a holding is exactly executed buys minus executed sells, and never negative |
| Audit.NeverInsolvent | market-simulator/internal/orderbook/engine.go:208-234 | Cash is never negative, holdings are positive, and no match ever disqualifies anyone: the zero-value disqualification is unreachable |
| Audit.EquityIsPositive | market-simulator/internal/portfolio/tx.go:125-135 | On every run every value in an agent's equity series is positive and the sum of cash and investment, neither of them negative |
| Audit.RowLaws | market-simulator/internal/orders/store.go:104-159 | On every run: price * executed = value; price * recorded quantity = value exactly for rows that do not overstate; pending rows have filled + remaining = quantity; daily rows are all or nothing; fees are those of the whole value; limits hold up to 0.05% |
| Audit.OverstatementExactly | market-simulator/internal/orderbook/engine_hourly.go:217-225 | A match overstates filled_quantity exactly when it trades a partial first slice on a session's last bar |
| Audit.OverstatementHappens | market-simulator/internal/orders/store.go:104-126 | A concrete case: 100 of 500 shares trade on the last bar and the row says filled, 500 |
| Audit.DisqualifiedOrdersAreRejected | market-simulator/internal/orderbook/engine.go:263-266 | A session rejects every due order of a disqualified agent as agent_disqualified and touches none of its others |
| Audit.DisqualificationIsFinal | market-simulator/internal/portfolio/dq.go:51-85 | From disqualification on, over any further run, cash, holdings, executions and the latest snapshot never change |
| Independence.StepCommutes | market-simulator/internal/orderbook/engine.go:131-169 | Matching one order is one step of its own agent's simulation and no step of anyone else's |
| Independence.AgentIndependence | market-simulator/internal/orderbook/engine.go:91-235 | A session leaves each agent the rows, cash, holdings and snapshots it would have alone |
| Independence.FailureIsShared | market-simulator/internal/orderbook/engine.go:210-214 | A session's transaction fails exactly when some agent's own session would fail |
| Independence.RunsAreIndependent | market-simulator/internal/orderbook/engine_hourly.go:52-141 | Over any run of registrations, orders, cancellations, silences, failures and matches, an agent's rows and account are those of the run without the other agents' requests |
| LookAhead.NoLookAhead | market-simulator/internal/orderbook/engine_hourly.go:33-87 | Two histories with the same calendar and the same bars up to a point give identical tables after any run up to that point |
| Hourly.RowInSession | market-simulator/internal/orderbook/engine_hourly.go:91-136 | A session changes a row only at its own turn |
| Hourly.HaltPersists | market-simulator/internal/orderbook/engine_hourly.go:75-86 | A breach at one bar still halts the symbol at every later bar of the session |
| Hourly.HaltIsPermanent | market-simulator/internal/orderbook/engine_hourly.go:66-87 | Once a bar breaches the band, no row or holding in the symbol trades again in the session, over any interleaving of requests and matches |
| Hourly.GreedyStep | market-simulator/internal/orderbook/engine_hourly.go:199-225 | One bar gives a market order min(remaining, floor(rate * volume)) unless it is refused |
| Hourly.GreedyParticipation | market-simulator/internal/orderbook/path.go:46-61 | Over any run of requests, silences, failures and matches, a market order neither withdrawn nor refused has executed exactly min(Q, sum of floor(rate * volume)) over the bars of its session matched so far; at the close it is filled if that is positive and expired if it is zero |
| Delivery.RecordedIsExecuted | market-simulator/internal/orders/store.go:175-186 | Where no buy overstates, the session's recorded buys are its executed buys |
| Delivery.DeliverySplit | market-simulator/internal/orderbook/engine_hourly.go:250-263 | In particular the split is min(sold, held overnight) wherever recorded buys are executed buys at the end of the run |
| Delivery.RecordedCoversExecuted | market-simulator/internal/orders/store.go:175-186 | The session's recorded buys are never fewer than its executed buys |
| Delivery.SplitStep | market-simulator/internal/orderbook/engine_hourly.go:240-264 | Matching one order never mends the tax split, and keeps it exactly when it is not a sale that the excess of recorded over executed buys bites into |
| Delivery.DeliverySplitExactly | market-simulator/internal/orderbook/engine_hourly.go:250-263 | However a session's buys and sells are sliced and interleaved, delivery-taxed shares never exceed min(sold, held overnight), and equal it exactly when every sale of the session was split as it should be |
| Delivery.SaleIsMisTaxed | market-simulator/internal/orderbook/engine_hourly.go:254-262 | A concrete last bar: 100 of 300 shares held overnight are sold after an overstated buy and none is taxed as delivery |
| Fees.FeesAreAdditive | market-simulator/internal/fees/fees.go:32-73 | Slicing never changes fees, component by component; a daily sale is a mixed sale with no intraday part |
| Fees.BuyFeesInFigures | market-simulator/internal/fees/fees.go:32-46 | The five components of a buy and their sum, 0.13655% of the value |
| Fees.SellFeesInFigures | market-simulator/internal/fees/fees.go:48-73 | The components of a sale and their sum, whatever part of it is delivery |
| Fees.SaleCreditIsPositive | market-simulator/internal/fees/fees.go:27-29 | A sale pays out more than zero and less than its value, and intraday tax is never worse for the seller |
| Calendar.DayRangeIsPreimage | market-simulator/internal/market/session.go:49-59 | An IST day range is exactly the set of instants whose session date is that day |
| Calendar.InclusiveRangeIsPreimage | market-simulator/internal/market/session.go:62-66 | An inclusive date range is exactly the set of instants whose session date lies in it |
| Calendar.SessionsAreMonotone | market-simulator/internal/market/session.go:31-37 | Later instants never have earlier session dates |
| Calendar.SessionDateIsIST | market-simulator/internal/market/session.go:22-46 | The session date is the date on a clock five and a half hours ahead of UTC |
| Market.SessionBarsAre | market-simulator/internal/market/data.go:313-340 | A session scan returns exactly the symbol's bars of that session that are not in the future |
| Market.NextIsAdjacent | market-simulator/internal/market/data.go:110-122 | The next trading day (and next bar) is strictly later with none in between; its absence means there is none at all |
| Market.PreviousBarIsLast | market-simulator/internal/market/data.go:144-161 | The previous trading day's bar is the symbol's last one before the day, none in between; its absence means there is none |
| Market.MarkIsLast | market-simulator/internal/market/data.go:252-274 | The bar at or before an instant is the symbol's last one not after it; its absence means there is none |
| Market.LastBarIsReturned | market-simulator/internal/market/data.go:144-161 | The last bar is unique, and the one returned |
| Rules.ImpactIsSmall | market-simulator/internal/orderbook/rules.go:102-115 | Past the 1% liquidity check impact is within 0.05% and against the trader, so the 0.2% cap is never reached |
| Path.BandIsNarrow | market-simulator/internal/orderbook/path.go:163-174 | The percentage test is exactly low >= 90% and high <= 110% of the previous close |
| Path.DailyBreakerIsBand | market-simulator/internal/orderbook/rules.go:17-23 | The daily breaker trips exactly when the open is outside 90%..110% of the previous close |
| Path.QuotedPriceIsPositive | market-simulator/internal/orderbook/path.go:22-43 | Inside the band and above the minimum price no spread drives a quoted price to zero |
| Path.QuotedPriceBound | market-simulator/internal/orderbook/path.go:87-160 | Limit slices stay at or inside their limit and the bar; market slices stay in the bar widened by the half-spread; slices never exceed what remains |
| Path.ModesTriggerAlike | market-simulator/internal/orderbook/rules.go:54-99 | With volume to trade, a bar triggers, defers or rejects an order in hourly mode exactly when the daily rule does, and never at a worse limit price |
| Path.StopCanFillOutsideBar | market-simulator/internal/orderbook/path.go:133-156 | A concrete sell stop fills above the bar's high, so no bar containment is claimed for stops |
| Path.StopInsideBarExactly | market-simulator/internal/orderbook/path.go:133-156 | Before spread and impact, a stop that fills is priced inside the bar exactly when it lies on the inner side: at or above the low for a buy, at or below the high for a sell |
| Path.QuotedStopInsideBarExactly | market-simulator/internal/orderbook/path.go:35-43 | With the half-spread, exactly when moreover stop or open leaves room for it |
| Ledger.MarkedValueRemove | market-simulator/internal/orderbook/engine.go:210-219 | The value of a holdings map does not depend on the order it is read in |
| Ledger.MarkedValueSign | market-simulator/internal/orderbook/engine.go:208-223 | Positive holdings at positive closes are worth something exactly when there are any |
| Lifecycle.StartInvertsPersistence | market-simulator/internal/clock/registry.go:211-222 | The index searches resume a restarted simulation at exactly the persisted session |
| Lifecycle.TickKeeps | market-simulator/internal/clock/registry.go:299-380 | A tick keeps the clock, marker, persisted row and window in step exactly when it does not lose a checkpoint event |
| Lifecycle.LostIffTwoBehind | market-simulator/internal/clock/registry.go:370-377 | In a zero-length window the restored clock is two sessions behind exactly when a checkpoint event was lost |
| SessionOrder.InOrderExactly | market-simulator/internal/clock/registry.go:186-446 | Over any interleaving of start, pause, tick, close, proceed, failures and restarts: the matched sessions stay a prefix of the schedule, each once, with the clock at the next session or the last matched, exactly when no tick loses a checkpoint event |
| SessionOrder.EachSessionOnceExactly | market-simulator/internal/clock/registry.go:383-424 | The log of matched sessions is a prefix of the schedule, each once, exactly when no committed close is of a window dated at or before the last one matched |
| SessionOrder.NeverSkipped | market-simulator/internal/clock/registry.go:299-446 | Whatever fails, no session is skipped or matched out of order; the latest one may at worst be matched again |
| SessionOrder.WalkCovers | market-simulator/internal/clock/registry.go:417-424 | Such a log contains every session up to the last, no other, and never goes back |
| SessionOrder.SessionMatchedTwice | market-simulator/internal/clock/autotick.go:114-126 | A concrete four-action run of a valid configuration in which the second session is matched twice |
| Checkpoints.CheckpointsAreEvenlySpaced | market-simulator/internal/clock/autotick.go:102-134 | While sessions are matched in order, checkpoint j falls after exactly (j + 1) * interval completed sessions and never at the end, exactly when no session but the last is completed while a checkpoint is awaited (with an interval of one, always) |
| Checkpoints.GateHoldsClock | market-simulator/internal/clock/autotick.go:85-100 | An awaited checkpoint holds the clock all along a run exactly when Proceed is the only way out of one; then no session is matched meanwhile, none is lost, and checkpoints are evenly spaced |
| Checkpoints.SpacingBreaks | market-simulator/internal/clock/registry.go:237-248 | A concrete run, with every session matched in order, in which a plain Start out of an awaited checkpoint is followed by a checkpoint one session later |
| Checkpoints.DrivingCompletes | market-simulator/internal/clock/registry.go:332-347 | Ticking, and proceeding at checkpoints, decreases an explicit measure until every session is matched once and the simulation is completed |
| Checkpoints.CompletesInBoundedTicks | market-simulator/internal/clock/autotick.go:85-100 | From a fresh start 6 * sessions + 2 such steps complete the simulation |
| Commits.CommitsExactly | market-simulator/internal/orderbook/engine.go:208-219 | A match commits exactly when it closes no session or every active agent holds, before it, only what the close can mark: nothing traded in the session makes it fail or saves it |
| Commits.DailyCommitsExactly | market-simulator/internal/orderbook/engine.go:210-214 | A daily match commits exactly when every symbol an active agent holds has a bar on the date |
| Commits.DailyMatchFails | market-simulator/internal/orderbook/engine.go:210-214 | A concrete date without a bar for a held symbol: the match fails, although the other agent's own would commit |
| Commits.HourlyMatchesCommit | market-simulator/internal/orderbook/engine_hourly.go:302-306 | On every run, whenever the database is up every hourly window that is closed commits |
| Commits.HourlyDrivingCompletes | market-simulator/internal/clock/autotick.go:85-100 | From any live hourly state, whatever happened before, ticking and proceeding on a healthy database matches every session once and completes the simulation |
| Schedule.ScheduleIsDense | market-simulator/internal/market/data.go:179-207 | No day or bar of the market falls between two scheduled ones without being scheduled |
| Schedule.NextScheduled | market-simulator/internal/market/data.go:210-226 | The market's next day or bar is the schedule's next entry |
| Schedule.CountersMeet | market-simulator/internal/clock/clock.go:55-83 | The session bar counters meet exactly at the last bar of a session |
| Schedule.EngineAgreesWithClock | market-simulator/internal/orderbook/engine_hourly.go:33-39 | The engine's end of session, the clock's last bar of session, and the meeting of the bar counters are the same condition for every scheduled bar |
| Simulation.TickRefinesRegistry | market-simulator/internal/clock/registry.go:299-380 | A tick of the whole simulation is the registry's tick with the matcher's verdicts as its outcomes |
| Simulation.RunRefinesRegistry | market-simulator/internal/clock/registry.go:186-446 | The registry inside any run of the whole simulation is where its own run leads, so everything shown of registry runs holds there |
| Simulation.WorldIsRun | market-simulator/internal/orderbook/engine.go:75-250 | The tables inside any run of the whole simulation are where their own run leads, so everything shown of runs of the tables holds there |
| Limits.CountersAreTrue | market-simulator/internal/clock/registry.go:100-151 | On every run a counter is what was granted since it was last cleared, by an opened window, a committed close or a restart, and never more than ten orders or a hundred calls |
| Limits.OverLimitExactly | market-simulator/internal/clock/registry.go:100-146 | A granted order or call is one too many since the last opened window exactly when a committed close or a restart has cleared the counter since, and what was granted before that makes up the limit with what the counter shows |
| Limits.LimitHoldsExactly | market-simulator/internal/clock/registry.go:100-146 | All along a run no agent gets more than the limit between two opened windows, exactly when nothing is granted on a counter that has forgotten enough |
| Limits.StoredIsTable | market-simulator/internal/api/handlers.go:144-183 | An agent's rows in the order table are exactly the submissions granted to it |
| Limits.TwiceTheLimit | market-simulator/internal/clock/registry.go:421-424 | A concrete run with one tick in which twenty orders are stored, and one in which two hundred calls pass |
| Stranding.MatchingStrandsNone | market-simulator/internal/orderbook/engine.go:131-154 | A successful match of the next session leaves every pending order with a key beyond that session |
| Stranding.RematchTouchesNone | market-simulator/internal/orderbook/engine.go:131-154 | Matching a session again touches no order, none being due |
| Stranding.PlacementIsOnMarket | market-simulator/internal/api/handlers.go:149-176 | A new order's match key is a session of the market, not before the schedule begins |
| Stranding.NoOrderStranded | market-simulator/internal/clock/registry.go:548-563 | All along a run of the whole simulation every pending order's key is a market session strictly after the last one matched, exactly when no order is stored while the session it would be for has already been matched |
| Stranding.KeptCheckpointsStrandNone | market-simulator/internal/clock/registry.go:370-377 | Where no tick loses a checkpoint event that never happens, and no order is stranded |
| Stranding.OrderIsStranded | market-simulator/internal/api/handlers.go:149-176 | A concrete run: after a lost checkpoint event an order is stored for the session just matched, and after a restart the simulation matches its last session with the order still pending |
| Stranding.PlacementExactly | market-simulator/internal/api/handlers.go:149-176 | After lost checkpoints, a new order is still ahead of the marker exactly when the clock is at most one session behind (or none, while a window is open) |
| Stranding.SessionLeavesNothingPending | market-simulator/internal/orderbook/engine_hourly.go:93-118 | Once a session's last bar is matched and no order is stranded, every order due at a bar of the session is closed |
| Simulation.BooksBalanceThroughout | market-simulator/internal/clock/registry.go:383-446 | Cash, shares, rows and solvency survive every run of clock and engine together, lost checkpoints included |
| Simulation.ZeroWindowIgnoresCalls | market-simulator/internal/clock/registry.go:352-377 | With zero-length windows every active agent is charged a missed tick whatever calls it made |
| Simulation.OpenWindowCountsCalls | market-simulator/internal/clock/registry.go:383-400 | Closing a window of positive length charges an active agent a missed tick exactly when it made no call |
| LiveRegistry.LiveRegistry.Start | market-simulator/internal/clock/registry.go:186-277 | Start on the in-memory clock and persisted row does what the registry specification says, tables and counters untouched |
| LiveRegistry.LiveRegistry.Pause | market-simulator/internal/clock/registry.go:280-296 | Pause closes the window, persists the status and touches nothing else |
| LiveRegistry.LiveRegistry.Tick | market-simulator/internal/clock/registry.go:299-380 | The whole tick, with its rollback, moves clock, window, marker, counters, row and tables as the simulation specification says, and errs exactly when a close fails or the clock cannot be moved |
| LiveRegistry.LiveRegistry.CloseWindowAndMatch | market-simulator/internal/clock/registry.go:383-446 | Closing a window records silence, runs the matcher and moves the marker only after a committed match; it errs exactly when the specification does |
| LiveRegistry.LiveRegistry.OpenNextWindow | market-simulator/internal/clock/registry.go:312-368 | Advance if the session is already matched, complete after the last, otherwise open the window with fresh counters |
| LiveRegistry.LiveRegistry.Advance | market-simulator/internal/clock/registry.go:332-347 | Moving the clock on, or completing and dropping it after the last session |
| LiveRegistry.LiveRegistry.OpenWindow | market-simulator/internal/clock/registry.go:353-368 | The window is for the clock's session, the counters are cleared, and the clock's position is persisted |
| LiveRegistry.LiveRegistry.SettleAtOnce | market-simulator/internal/clock/registry.go:370-377 | A zero-length window is closed at once, and the clock put back exactly when that fails |
| LiveRegistry.LiveRegistry.MaybeCheckpoint | market-simulator/internal/clock/autotick.go:102-134 | Counting, pausing and persisting at a checkpoint, before the event is published |
| LiveRegistry.LiveRegistry.Proceed | market-simulator/internal/clock/autotick.go:85-100 | Proceed is refused unless a checkpoint is awaited; otherwise it resets the counter and starts the clock |
| Protocol.PauseStops | market-simulator/internal/clock/registry.go:280-296 | Pausing closes the window where the clock stands, and a paused clock does not tick |
| Protocol.StartResumes | market-simulator/internal/clock/registry.go:238-248 | Starting a paused clock goes on where it stood |
| Protocol.StartRefused | market-simulator/internal/clock/registry.go:195-209 | A completed simulation and one without days do not start; a running one is left alone |
| Protocol.ProceedOnlyAwaited | market-simulator/internal/clock/autotick.go:85-100 | Proceed answers only an awaited checkpoint, and then opens the gate, starts a new segment, and starts the clock |
| Protocol.NextWindowInFigures | market-simulator/internal/clock/registry.go:323-368 | A tick opens the next window at the clock's session while that is unmatched, else at the one after it, and past the last completes the simulation |
| LiveRegistry.LiveRegistry.RecordMissedTicks | market-simulator/internal/clock/registry.go:461-495 | The agent loop charges, resets or skips every agent once; what that amounts to is `Silence.SilenceDisqualifies` |
| Silence.SilenceDisqualifies | market-simulator/internal/portfolio/dq.go:87-113 | On every run an active agent's counter is the number of windows closed since its last counted call, and it is disqualified exactly if it was ever silent in as many windows in a row as the limit says |
| Silence.SilenceInSimulation | market-simulator/internal/clock/registry.go:461-495 | The same over every run of the simulation: disqualified exactly when the counter has reached the limit |
| LiveRegistry.LiveRegistry.PlaceOrder | market-simulator/internal/api/handlers.go:88-194 | An accepted order is stored with the right key and takes one slot; any refusal leaves tables and counters as they were |
| Protocol.AcceptedExactly | market-simulator/internal/api/handlers.go:122-176 | An order is accepted exactly when it is well made, the clock runs or is paused, its agent may trade and has a slot, there is a session for it, and the database is up |
| Protocol.StoredAsSent | market-simulator/internal/orders/store.go:45-53 | An accepted order is stored last, as sent, with nothing filled; any other request changes nothing |
| Protocol.KeyInFigures | market-simulator/internal/api/handlers.go:149-176 | Its session is the clock's own while that is open or unmatched, and else the market's next one |
| Protocol.CallsAndRegistrations | market-simulator/internal/clock/registry.go:134-146 | A call counts until the agent has made a hundred; registering opens a portfolio once |
| LiveRegistry.LiveRegistry.InsertOrder | market-simulator/internal/api/handlers.go:149-183 | Given a slot, the row is inserted with the session's key, or the slot is given back exactly and nothing is stored |
| LiveRegistry.LiveRegistry.ChooseSession | market-simulator/internal/api/handlers.go:149-176 | The key chosen on the live objects is the one the simulation specification chooses |
| LiveRegistry.LiveRegistry.TryAcceptOrderSubmission | market-simulator/internal/clock/registry.go:100-112 | A submission is refused exactly when the agent's counter stands at ten, and otherwise counted; what the counter stands for is `Limits.CountersAreTrue` |
| LiveRegistry.LiveRegistry.RollbackOrderSubmission | market-simulator/internal/clock/registry.go:115-131 | One slot is given back, a counter reaching zero being deleted |
| LiveRegistry.RollbackUndoes | market-simulator/internal/clock/registry.go:100-131 | Rollback undoes an accepted submission exactly when no counter was kept at zero |
| LiveRegistry.LiveRegistry.AllowAPICall | market-simulator/internal/clock/registry.go:134-146 | A call is refused exactly when the agent's counter stands at a hundred, and otherwise counted |
| LiveRegistry.LiveClock.Tick | market-simulator/internal/clock/clock.go:112-136 | A clock that is not running errs and stays; otherwise it advances by one entry, or completes at the last, whether or not the event can be published |
| LiveRegistry.LiveClock.SessionBarIndex | market-simulator/internal/clock/clock.go:55-70 | The early-return loop counts the session's bars up to the current one |
| LiveRegistry.LiveClock.SessionBarCount | market-simulator/internal/clock/clock.go:72-83 | The loop counts all the session's bars |
| LiveRegistry.FindTradingDay | market-simulator/internal/clock/registry.go:565-574 | The first day with the date, else the first entry |
| LiveRegistry.FindBar | market-simulator/internal/clock/registry.go:576-590 | The bar itself if there is one, else the last bar not after the instant, else the first entry |
| LiveRegistry.FindBarOnSession | market-simulator/internal/clock/registry.go:592-608 | The session's first bar if there is one, else what the search by instant finds |
| Metrics.MaxDrawdown | market-simulator/internal/portfolio/metrics.go:57-73 | One pass with a running peak attains the largest decline from the peak so far, infinite exactly when a value falls below a peak of zero; of positive values it is the maximum of (v_i - v_j) / v_i over all i <= j, in [0, 1) |
| Metrics.FifoRefinement | market-simulator/internal/portfolio/metrics.go:116-141 | The lot-by-lot analysis pairs the same shares in the same order as a share-by-share first-in first-out queue |
| Metrics.SellLots | market-simulator/internal/portfolio/metrics.go:123-140 | The inner loop ends and consumes the oldest lots first, tallying each closed piece |
| Metrics.AnalyzeSymbol | market-simulator/internal/portfolio/metrics.go:116-141 | One symbol's loop tallies exactly its closed trades |
| Metrics.GroupBySymbol | market-simulator/internal/portfolio/metrics.go:101-106 | Grouping keeps each symbol's fills in order, and totals the value of all fills |
| Metrics.TallyGroups | market-simulator/internal/portfolio/metrics.go:109-142 | The loop over symbols totals every symbol's closed trades whatever order the map yields |
| Metrics.AnalyzeClosedTrades | market-simulator/internal/portfolio/metrics.go:95-149 | Over the closed trades of all symbols together: their number, the number that sold above their buying price, that share in percent, the average time held, and the value of all fills |
| Metrics.TallyInFigures | market-simulator/internal/portfolio/metrics.go:130-134 | A tally is the number of its trades, of its winners, and the sum of the times they were held |
| Metrics.ClosedTradesArePairs | market-simulator/internal/portfolio/metrics.go:109-142 | Share by share, the closed trades of all symbols are what first-in first-out queues pair, prices and dates included |
| Metrics.StatisticsAreSane | market-simulator/internal/portfolio/metrics.go:143-147 | On time-ordered fills the average holding time is never negative and the win rate is in [0, 100] |

## Left out

- Metrics.AnalyzeClosedTrades: the per-symbol sort is not modelled; a symbol's fills are taken in the order given, which the queries deliver in time order.
- Delivery.DeliverySplit: stated where recorded buys equal executed buys; `Delivery.DeliverySplitExactly` is the general statement.
- Checkpoints.CheckpointsAreEvenlySpaced: stated for runs in which no checkpoint event is lost; once a session is matched twice, completed sessions and matches no longer count the same.
- LiveRegistry.LiveRegistry.PlaceOrder: one atomic step; a window closing between the choice of session and the insert is not modelled, nor is the gap between closing a window and setting the marker.
- LiveRegistry.LiveRegistry.Tick: a failing UpdateClock, which restores the clock but leaves the window open, is not modelled; failures are those of the matching transaction and of publishing.
- Rounding: float64 and NUMERIC(15,4) are exact reals here.
- The database: a matching step is one atomic transaction, which commits or fails as a whole; single failing statements, connections and locks are left out, and so is a cancellation racing a match. COALESCEd columns are never null after insertion and hold zero.
- Time of day: windows that expire and automatic ticks are events that may happen at any moment; the tickers' own timing is left out.
- Several simulations at once: the registry's maps are restricted to one simulation. The bar interval, the checkpoint interval and the other configuration values are fixed for a run; parsing and clamping them is left out.
- The last matched date and timestamp are one persisted field, in the unit of the configured interval.
- `filled_at_ts`, order ids and event payloads: no branch of the engine reads them.
- Order types and sides are datatypes with an "anything else" value; trimming and lower-casing of strings is left out. The stock universe is a parameter of the history.
- Disqualification for repeated 4xx responses, and the HTTP, authentication, Redis and WebSocket layers.
- Daily orders deferred past the end of the schedule stay pending when the history goes on; only their match key is claimed. The limit on a bar's volume holds per order slice, not across orders.
- Sharpe ratio, turnover, sector tables, leaderboard and chart queries, the agent orchestrator, dashboard and ingestion: arithmetic or plumbing with only easy properties.
