/** The clock and registry objects of internal/clock, updated in place, and PlaceOrder of internal/api. */
module LiveRegistry {
  import opened Common
  import opened Calendar
  import opened Market
  import opened Ledger
  import opened Runs
  import opened Clock
  import opened Schedule
  import opened Simulation
  import Engine

  // ----- Index searches -----

  /** The first day with the date; the first entry if there is none. */
  predicate FoundDay(days: seq<Time>, asOf: Time, r: nat) {
    if exists i :: 0 <= i < |days| && TruncateDay(days[i]) == TruncateDay(asOf)
    then r < |days| && TruncateDay(days[r]) == TruncateDay(asOf)
         && forall j :: 0 <= j < r ==> TruncateDay(days[j]) != TruncateDay(asOf)
    else r == 0
  }

  method FindTradingDay(days: seq<Time>, asOf: Time) returns (r: nat)
    ensures FoundDay(days, asOf, r) && r == IndexOfTradingDay(days, asOf, 0)
  {
    for i := 0 to |days|
      invariant forall j :: 0 <= j < i ==> TruncateDay(days[j]) != TruncateDay(asOf)
      invariant IndexOfTradingDay(days, asOf, 0) == IndexOfTradingDay(days, asOf, i)
    {
      if TruncateDay(days[i]) == TruncateDay(asOf) {
        return i;
      }
    }
    r := 0;
  }

  /** The bar itself; without it the last one before the instant; the first entry if there is none. */
  predicate FoundBar(bars: seq<Time>, asOf: Time, r: nat) {
    if asOf in bars then r < |bars| && bars[r] == asOf && asOf !in bars[..r]
    else if exists i :: 0 <= i < |bars| && bars[i] <= asOf
    then r < |bars| && bars[r] <= asOf && forall j :: r < j < |bars| ==> asOf < bars[j]
    else r == 0
  }

  method FindBar(bars: seq<Time>, asOf: Time) returns (best: nat)
    ensures FoundBar(bars, asOf, best) && best == IndexOfBar(bars, asOf, 0, 0)
  {
    best := 0;
    for i := 0 to |bars|
      invariant asOf !in bars[..i]
      invariant (forall j :: 0 <= j < i ==> asOf < bars[j]) || (best < i && bars[best] <= asOf)
      invariant (exists j :: 0 <= j < i && bars[j] <= asOf) || best == 0
      invariant forall j :: best < j < i ==> asOf < bars[j]
      invariant IndexOfBar(bars, asOf, 0, 0) == IndexOfBar(bars, asOf, i, best)
    {
      if bars[i] <= asOf {
        if bars[i] == asOf {
          return i;
        }
        best := i;
      }
    }
  }

  /** The session's first bar; without one, what the search by instant finds. */
  predicate FoundOnSession(bars: seq<Time>, session: Time, r: nat) {
    if exists i :: 0 <= i < |bars| && SessionCalendarUTC(bars[i]) == SessionCalendarUTC(session)
    then r < |bars| && SessionCalendarUTC(bars[r]) == SessionCalendarUTC(session)
         && forall j :: 0 <= j < r ==> SessionCalendarUTC(bars[j]) != SessionCalendarUTC(session)
    else FoundBar(bars, session, r)
  }

  method FindBarOnSession(bars: seq<Time>, session: Time) returns (best: nat)
    ensures FoundOnSession(bars, session, best) && best == IndexOfBarOnSession(bars, session, 0)
  {
    best := 0;
    var found := false;
    for i := 0 to |bars|
      invariant found ==> best < i && SessionCalendarUTC(bars[best]) == SessionCalendarUTC(session)
      invariant forall j :: 0 <= j < (if found then best else i) ==>
        SessionCalendarUTC(bars[j]) != SessionCalendarUTC(session)
      invariant found ==> best == IndexOfBarOnSession(bars, session, 0)
      invariant !found ==> IndexOfBarOnSession(bars, session, 0) == IndexOfBarOnSession(bars, session, i)
    {
      if SessionCalendarUTC(bars[i]) == SessionCalendarUTC(session) && !found {
        best, found := i, true;
      }
    }
    if !found {
      best := FindBar(bars, session);
    }
  }

  // ----- The clock -----

  class LiveClock {
    const hourly: bool
    const schedule: seq<Time>
    var index: nat
    var date: Time
    var status: ClockStatus

    constructor (hourly: bool, schedule: seq<Time>, index: nat, status: ClockStatus)
      requires index < |schedule|
      ensures this.hourly == hourly && this.schedule == schedule
      ensures Value() == SimClock(index, schedule[index], status)
    {
      this.hourly, this.schedule, this.index, this.status := hourly, schedule, index, status;
      this.date := schedule[index];
    }

    function Value(): SimClock
      reads this
    {
      SimClock(index, date, status)
    }

    method SessionBarIndex() returns (n: nat)
      requires index < |schedule| && date == schedule[index]
      ensures n == if hourly then SessionBars(schedule, date, index + 1) else 1
    {
      if !hourly || schedule == [] {
        return 1;
      }
      n := 0;
      for i := 0 to |schedule|
        invariant i <= index && n == SessionBars(schedule, date, i)
      {
        if SameSession(schedule[i], date) {
          n := n + 1;
          if i == index {
            return n;
          }
        }
      }
    }

    method SessionBarCount() returns (n: nat)
      ensures n == if hourly then SessionBars(schedule, date, |schedule|) else 1
    {
      if !hourly {
        return 1;
      }
      n := 0;
      for i := 0 to |schedule|
        invariant n == SessionBars(schedule, date, i)
      {
        if SameSession(schedule[i], date) {
          n := n + 1;
        }
      }
    }

    predicate IsLastBarOfSession()
      reads this
    {
      !hourly || index >= |schedule| - 1 || !SameSession(date, schedule[index + 1])
    }

    /** SimClock.Tick: advance, or complete after the last entry; a clock that is not running is left alone. */
    method Tick(publishOk: bool) returns (err: Option<ClockError>)
      modifies this
      ensures old(status) != Running ==> err == Some(ClockNotRunning) && Value() == old(Value())
      ensures old(status) == Running ==> err == Published(publishOk)
      ensures old(status) == Running ==>
        Value() == if old(index) >= |schedule| - 1 then old(Value()).(status := Completed)
                   else SimClock(old(index) + 1, schedule[old(index) + 1], Running)
    {
      if status != Running {
        return Some(ClockNotRunning);
      }
      if index >= |schedule| - 1 {
        status := Completed;
        return Published(publishOk);
      }
      index := index + 1;
      date := schedule[index];
      err := Published(publishOk);
    }

    method Restore(index: nat, date: Time, status: ClockStatus)
      modifies this
      ensures Value() == SimClock(index, date, status)
    {
      this.index, this.date, this.status := index, date, status;
    }
  }

  lemma AttemptIgnoresWindow(m: Plant, s: Sim, t: Sim, dbOk: bool)
    requires s.world == t.world && s.apiCalls == t.apiCalls && s.reg.windowDate == t.reg.windowDate
    ensures Attempt(m, s, dbOk) == Attempt(m, t, dbOk)
  {
  }

  /** The portfolio rows once every agent outside `left` has had its tick recorded. */
  ghost function PartlyNoted(was: map<AgentId, Account>, left: set<AgentId>, calls: map<AgentId, nat>, limit: int)
    : map<AgentId, Account>
  {
    map a | a in was :: if a in left then was[a] else RecordMissedTick(was[a], CountOf(calls, a), limit)
  }

  /** Recording one more agent's tick. */
  lemma NoteOne(was: map<AgentId, Account>, left: set<AgentId>, calls: map<AgentId, nat>, limit: int, a: AgentId)
    requires left <= was.Keys && a in left
    ensures var now := PartlyNoted(was, left, calls, limit);
      a in now
      && now[a := RecordMissedTick(now[a], CountOf(calls, a), limit)] == PartlyNoted(was, left - {a}, calls, limit)
  {
  }

  lemma NoneNoted(was: map<AgentId, Account>, calls: map<AgentId, nat>, limit: int)
    ensures PartlyNoted(was, was.Keys, calls, limit) == was
  {
  }

  lemma AllNoted(w: World, calls: map<AgentId, nat>, limit: int)
    ensures PartlyNoted(w.accounts, {}, calls, limit) == RecordMissed(w, calls, limit).accounts
  {
  }

  function GiveBack(counts: map<AgentId, nat>, a: AgentId): map<AgentId, nat> {
    if CountOf(counts, a) <= 1 then counts - {a} else counts[a := CountOf(counts, a) - 1]
  }

  /** A rollback undoes an accepted submission exactly when no counter was kept at zero. */
  lemma RollbackUndoes(counts: map<AgentId, nat>, a: AgentId)
    ensures GiveBack(counts[a := CountOf(counts, a) + 1], a) == counts <==> (a in counts ==> counts[a] > 0)
  {
    var taken := counts[a := CountOf(counts, a) + 1];
    if CountOf(counts, a) == 0 {
      assert a !in GiveBack(taken, a);
      assert a !in counts ==> GiveBack(taken, a) == counts;
    } else {
      assert taken[a := CountOf(counts, a)] == counts;
    }
  }

  // ----- The registry -----

  class LiveRegistry {
    const plant: Plant
    const engine: Engine.Engine
    var clock: LiveClock?
    var windowOpen: bool
    var windowDate: Time
    var lastMatched: Option<Time>
    var db: Db
    var apiCalls: map<AgentId, nat>
    var orderCounts: map<AgentId, nat>
    ghost var matched: seq<Time>
    ghost var checkpoints: seq<nat>

    constructor (plant: Plant, engine: Engine.Engine)
      requires engine.history == plant.history && engine.Tables() == EMPTY_WORLD
      ensures Valid() && this.plant == plant && this.engine == engine && State() == NEW_SIM
    {
      this.plant, this.engine := plant, engine;
      clock, windowOpen, windowDate, lastMatched := null, false, 0, None;
      db := Db(Paused, None, None, None, 0, false);
      apiCalls, orderCounts := map[], map[];
      matched, checkpoints := [], [];
    }

    ghost predicate Valid()
      reads this, clock
    {
      && engine.history == plant.history
      && (clock != null ==> clock.schedule == plant.Cfg().schedule && clock.hourly == plant.hourly)
      && (clock != null ==> clock.index < |clock.schedule| && clock.date == clock.schedule[clock.index])
      && (windowOpen ==> clock != null && clock.status == Running)
      && (forall a :: a in orderCounts ==> orderCounts[a] > 0)
    }

    ghost function Reg(): Registry
      reads this, clock
    {
      Registry(if clock == null then None else Some(clock.Value()), windowOpen, windowDate, lastMatched, db, matched,
               checkpoints)
    }

    ghost function State(): Sim
      reads this, clock, engine
    {
      Sim(Reg(), engine.Tables(), apiCalls, orderCounts)
    }

    /** UpdateClock and persistAsOfTS on the simulation's row. */
    method Persist(date: Time, status: ClockStatus, withTs: bool)
      modifies this`db
      ensures db == var d := UpdateClock(plant.Cfg(), old(db), date, status);
        if withTs then PersistAsOfTS(plant.Cfg(), d, date) else d
    {
      var session := if plant.hourly then SessionCalendarUTC(date) else TruncateDay(date);
      db := db.(asOfDate := Some(session), status := status);
      if withTs && plant.hourly {
        db := db.(asOfTs := Some(date));
      }
    }

    /** Where the persisted row says to resume. */
    method ResumeIndex(days: seq<Time>) returns (i: nat)
      requires days == plant.Cfg().schedule
      ensures i == StartIndex(plant.Cfg(), db)
    {
      i := 0;
      if plant.hourly {
        if db.asOfTs.Some? {
          i := FindBar(days, db.asOfTs.value);
        } else if db.asOfDate.Some? {
          i := FindBarOnSession(days, db.asOfDate.value);
        }
      } else if db.asOfDate.Some? {
        i := FindTradingDay(days, db.asOfDate.value);
      }
    }

    method Start(publishOk: bool) returns (err: Option<ClockError>)
      requires Valid()
      modifies this, clock
      ensures Valid() && engine.Tables() == old(engine.Tables())
      ensures (Reg(), err) == Clock.Start(plant.Cfg(), old(Reg()), publishOk)
      ensures apiCalls == old(apiCalls) && orderCounts == old(orderCounts)
      ensures clock == old(clock) || fresh(clock)
    {
      if db.status == Completed {
        return Some(ClockCompleted);
      }
      var days := ScheduleOf(plant.history, plant.hourly, plant.start, plant.end);
      if |days| == 0 {
        return Some(NoTradingDays);
      }
      var idx := ResumeIndex(days);
      if clock != null {
        if clock.status == Paused {
          clock.status := Running;
          Persist(clock.date, Running, true);
          return Published(publishOk);
        }
        if clock.status == Running {
          return None;
        }
      }
      err := StartFresh(days, idx, publishOk);
    }

    /** Start without a clock in memory: build one where the row says, and reload the marker. */
    method StartFresh(days: seq<Time>, idx: nat, publishOk: bool) returns (err: Option<ClockError>)
      requires Valid() && !windowOpen && days == plant.Cfg().schedule && idx < |days|
      modifies this`clock, this`lastMatched, this`db
      ensures Valid() && fresh(clock) && clock.Value() == SimClock(idx, days[idx], Running)
      ensures lastMatched == old(db).lastMatched && err == Published(publishOk)
      ensures db == PersistAsOfTS(plant.Cfg(), UpdateClock(plant.Cfg(), old(db), clock.date, Running), clock.date)
    {
      var c := new LiveClock(plant.hourly, days, idx, Running);
      clock := c;
      lastMatched := db.lastMatched;
      Persist(c.date, Running, true);
      err := Published(publishOk);
    }

    method Pause() returns (err: Option<ClockError>)
      requires Valid()
      modifies this, clock
      ensures Valid() && clock == old(clock) && engine.Tables() == old(engine.Tables())
      ensures (Reg(), err) == Clock.Pause(plant.Cfg(), old(Reg()))
      ensures apiCalls == old(apiCalls) && orderCounts == old(orderCounts)
    {
      if clock == null {
        return Some(NoActiveClock);
      }
      if clock.status == Completed {
        return Some(ClockCompleted);
      }
      clock.status := Paused;
      windowOpen := false;
      Persist(clock.date, Paused, false);
      err := None;
    }

    /** recordMissedTicks: silence is charged agent by agent, outside the matching transaction. */
    method RecordMissedTicks(calls: map<AgentId, nat>)
      modifies engine`accounts
      ensures engine.Tables() == RecordMissed(old(engine.Tables()), calls, plant.missedLimit)
    {
      ghost var was := engine.accounts;
      var left := engine.accounts.Keys;
      NoneNoted(was, calls, plant.missedLimit);
      while left != {}
        invariant left <= was.Keys && engine.orders == old(engine.orders)
        invariant engine.accounts == PartlyNoted(was, left, calls, plant.missedLimit)
        decreases |left|
      {
        var a :| a in left;
        NoteOne(was, left, calls, plant.missedLimit, a);
        var acc := NoteTick(engine.accounts[a], CountOf(calls, a));
        engine.accounts := engine.accounts[a := acc];
        left := left - {a};
      }
      AllNoted(old(engine.Tables()), calls, plant.missedLimit);
    }

    /** One agent's missed-tick counter: reset by a call, otherwise incremented, and disqualifying at the limit. */
    method NoteTick(acc: Account, calls: nat) returns (acc': Account)
      ensures acc' == RecordMissedTick(acc, calls, plant.missedLimit)
    {
      acc' := acc;
      if acc.disqualified {
        return;
      }
      if calls > 0 {
        acc' := acc.(missedTicks := 0);
        return;
      }
      acc' := acc.(missedTicks := acc.missedTicks + 1);
      if acc'.missedTicks >= plant.missedLimit {
        acc' := acc'.(disqualified := true);
      }
    }

    /** maybeCheckpoint, after a match that committed. */
    method MaybeCheckpoint(countDay: bool, publishOk: bool) returns (err: Option<ClockError>)
      requires Valid() && clock != null && clock.status == Running && !windowOpen
      modifies this`db, this`windowOpen, this`checkpoints, clock
      ensures Valid()
      ensures (Reg(), err) == Clock.MaybeCheckpoint(plant.Cfg(), old(Reg()), old(clock.Value()), countDay, publishOk)
    {
      if !countDay {
        return None;
      }
      var newDays := db.daysSince + 1;
      db := db.(daysSince := newDays);
      if newDays < plant.interval || clock.index >= |clock.schedule| - 1 {
        return None;
      }
      clock.status := Paused;
      db := db.(awaiting := true);
      Persist(clock.date, Paused, false);
      windowOpen := false;
      checkpoints := checkpoints + [CompletedSessions(plant.Cfg(), |matched|)];
      err := Published(publishOk);
    }

    /** The matcher call of CloseWindowAndMatch.  dbOk says whether the matching transaction's commit can succeed. */
    method RunMatcher(date: Time, dbOk: bool) returns (ok: bool)
      requires Valid() && date == windowDate
      modifies engine`orders, engine`accounts
      ensures (engine.Tables(), ok) == Attempt(plant, old(State()), dbOk)
    {
      RecordMissedTicks(apiCalls);
      ok := dbOk;
      if dbOk {
        if plant.hourly {
          ok := engine.ProcessSimulationBar(date, plant.rate);
        } else {
          ok := engine.ProcessSimulationDay(date);
        }
      }
    }

    /** After a committed match: move the marker, reset the counters, and maybe pause at a checkpoint. */
    method FinishMatch(date: Time, publishOk: bool) returns (err: Option<ClockError>)
      requires Valid() && !windowOpen && date == windowDate
      requires clock != null && clock.status == Running
      modifies this`windowOpen, this`lastMatched, this`db, this`apiCalls, this`orderCounts, this`matched,
        this`checkpoints, clock
      ensures Valid() && apiCalls == map[] && orderCounts == map[]
      ensures (Reg(), err) == CloseWindow(plant.Cfg(), old(Reg()).(windowOpen := true), true, publishOk)
    {
      var key := if plant.hourly then date else TruncateDay(date);
      lastMatched := Some(key);
      apiCalls, orderCounts := map[], map[];
      db := db.(lastMatched := Some(key));
      matched := matched + [key];
      var countDay := clock.IsLastBarOfSession();
      err := MaybeCheckpoint(countDay, publishOk);
    }

    method CloseWindowAndMatch(dbOk: bool, publishOk: bool) returns (err: Option<ClockError>)
      requires Valid()
      modifies this`windowOpen, this`lastMatched, this`db, this`apiCalls, this`orderCounts, this`matched,
        this`checkpoints, clock, engine`orders, engine`accounts
      ensures Valid() && State() == CloseSim(plant, old(State()), dbOk, publishOk) && !windowOpen
      ensures err.Some? <==> CloseFails(plant, old(State()), dbOk, publishOk)
    {
      if !windowOpen {
        return None;
      }
      windowOpen := false;
      AttemptIgnoresWindow(plant, State(), old(State()), dbOk);
      var ok := RunMatcher(windowDate, dbOk);
      if !ok {
        return Some(MatcherFailed);
      }
      assert Reg().(windowOpen := true) == old(Reg());
      err := FinishMatch(windowDate, publishOk);
    }

    /** The middle of Tick: advance if the current session is matched, then open its window. */
    method OpenNextWindow(publishOk: bool) returns (result: TickResult)
      requires Valid() && !windowOpen
      modifies this`windowOpen, this`windowDate, this`db, this`clock, this`apiCalls, this`orderCounts, clock
      ensures Valid() && (Reg(), result) == OpenNext(plant.Cfg(), old(Reg()), publishOk)
      ensures result == Opened ==> apiCalls == map[] && orderCounts == map[] && clock == old(clock) && clock != null
      ensures result != Opened ==> apiCalls == old(apiCalls) && orderCounts == old(orderCounts)
      ensures clock == null || clock == old(clock)
    {
      if clock == null {
        return Failed(NoActiveClock);
      }
      if clock.status != Running {
        return Failed(ClockNotRunning);
      }
      var advance := ShouldAdvance(lastMatched, clock.date);
      if plant.hourly {
        advance := ShouldAdvanceExact(lastMatched, clock.date);
      }
      if advance {
        result := Advance(publishOk);
        if result != Opened {
          return;
        }
      }
      OpenWindow();
      result := Opened;
    }

    /** Past a matched session: move the clock on, or complete the simulation after the last one. */
    method Advance(publishOk: bool) returns (result: TickResult)
      requires Valid() && !windowOpen && clock != null && clock.status == Running
      modifies this`windowOpen, this`db, this`clock, clock
      ensures Valid() && (clock == null || clock == old(clock))
      ensures var r, c, s := old(Reg()), old(clock.Value()), old(clock.schedule);
        if c.index < |s| - 1 && publishOk
        then result == Opened && Reg() == r.(clock := Some(SimClock(c.index + 1, s[c.index + 1], Running)))
        else Advances(plant.Cfg(), r.lastMatched, c.date) ==>
          result != Opened && (Reg(), result) == OpenNext(plant.Cfg(), r, publishOk)
    {
      var prevDate := clock.date;
      var err := clock.Tick(publishOk);
      if err.Some? {
        return Failed(err.value);
      }
      if clock.status == Completed {
        db := db.(asOfDate := Some(TruncateDay(prevDate)), status := Completed);
        clock := null;
        windowOpen := false;
        return Finished;
      }
      result := Opened;
    }

    /** Open the window for the clock's session, with fresh counters, and persist where the clock stands. */
    method OpenWindow()
      requires Valid() && clock != null && clock.status == Running
      modifies this`windowOpen, this`windowDate, this`db, this`apiCalls, this`orderCounts
      ensures Valid() && apiCalls == map[] && orderCounts == map[]
      ensures Reg() == Clock.OpenWindow(plant.Cfg(), old(Reg()), clock.Value())
    {
      apiCalls, orderCounts := map[], map[];
      windowOpen, windowDate := true, clock.date;
      Persist(clock.date, clock.status, true);
    }

    /** Tick: settle an open window, advance and open the next one, and close it at once if windows are empty. */
    method Tick(f: Outcomes) returns (err: Option<ClockError>)
      requires Valid()
      modifies this, clock, engine`orders, engine`accounts
      ensures Valid() && State() == TickSim(plant, old(State()), f)
      ensures err.Some? <==> TickFails(plant, old(State()), f)
    {
      if windowOpen {
        err := CloseWindowAndMatch(f.firstMatch, f.firstPublish);
        if err.Some? {
          return;
        }
      }
      err := TickFromRest(f);
    }

    method TickFromRest(f: Outcomes) returns (err: Option<ClockError>)
      requires Valid() && !windowOpen
      modifies this, clock, engine`orders, engine`accounts
      ensures Valid() && State() == TickRest(plant, old(State()), f)
      ensures err.Some? <==> RestFails(plant, old(State()), f)
    {
      var prev := if clock == null then SimClock(0, 0, Paused) else clock.Value();
      var result := OpenNextWindow(f.tickPublish);
      if result.Failed? {
        return Some(result.error);
      }
      if result.Finished? || !plant.batch {
        return None;
      }
      assert State() == Sim(OpenNext(plant.Cfg(), old(Reg()), f.tickPublish).0, old(engine.Tables()), map[], map[]);
      err := SettleAtOnce(prev, f);
    }

    /** A window of length zero: close it, and put the clock back if that fails. */
    method SettleAtOnce(prev: SimClock, f: Outcomes) returns (err: Option<ClockError>)
      requires Valid() && windowOpen
      requires prev.index < |clock.schedule| && prev.date == clock.schedule[prev.index] && prev.status == Running
      modifies this`windowOpen, this`lastMatched, this`db, this`apiCalls, this`orderCounts, this`matched,
        this`checkpoints, clock, engine`orders, engine`accounts
      ensures Valid() && (err.Some? <==> CloseFails(plant, old(State()), f.secondMatch, f.secondPublish))
      ensures var s3 := CloseSim(plant, old(State()), f.secondMatch, f.secondPublish);
        State() == if err.Some? then s3.(reg := Restore(s3.reg, prev)) else s3
    {
      err := CloseWindowAndMatch(f.secondMatch, f.secondPublish);
      if err.Some? {
        clock.Restore(prev.index, prev.date, prev.status);
      }
    }

    /** Proceed clears the checkpoint gate and starts the clock again. */
    method Proceed(publishOk: bool) returns (err: Option<ClockError>)
      requires Valid()
      modifies this, clock
      ensures Valid() && (Reg(), err) == Clock.Proceed(plant.Cfg(), old(Reg()), publishOk)
      ensures engine.Tables() == old(engine.Tables()) && apiCalls == old(apiCalls) && orderCounts == old(orderCounts)
    {
      if !db.awaiting {
        return Some(NotAwaitingProceed);
      }
      db := db.(daysSince := 0, awaiting := false);
      err := Start(publishOk);
    }

    // ----- Submissions -----

    method TryAcceptOrderSubmission(a: AgentId) returns (ok: bool)
      modifies this`orderCounts
      ensures ok <==> CountOf(old(orderCounts), a) < MAX_ORDERS_PER_TICK
      ensures orderCounts == if ok then old(orderCounts)[a := CountOf(old(orderCounts), a) + 1] else old(orderCounts)
    {
      var n := if a in orderCounts then orderCounts[a] else 0;
      if n >= MAX_ORDERS_PER_TICK {
        return false;
      }
      orderCounts := orderCounts[a := n + 1];
      ok := true;
    }

    /** Give one slot back; a counter that reaches zero is deleted. */
    method RollbackOrderSubmission(a: AgentId)
      modifies this`orderCounts
      ensures orderCounts == GiveBack(old(orderCounts), a)
    {
      var n := if a in orderCounts then orderCounts[a] else 0;
      if n <= 1 {
        orderCounts := orderCounts - {a};
      } else {
        orderCounts := orderCounts[a := n - 1];
      }
    }

    method AllowAPICall(a: AgentId) returns (ok: bool)
      requires Valid()
      modifies this`apiCalls
      ensures Valid() && State() == SimStep(plant, old(State()), CallApi(a))
      ensures ok <==> CountOf(old(apiCalls), a) < MAX_API_CALLS_PER_TICK
    {
      var n := if a in apiCalls then apiCalls[a] else 0;
      if n >= MAX_API_CALLS_PER_TICK {
        return false;
      }
      apiCalls := apiCalls[a := n + 1];
      ok := true;
    }

    predicate FillsOnCurrent()
      reads this, clock
    {
      clock != null &&
      (windowOpen || !(if plant.hourly then ShouldAdvanceExact(lastMatched, clock.date)
                       else ShouldAdvance(lastMatched, clock.date)))
    }

    /** The session a new order is for: the clock's own if it has still to match, else the market's next. */
    method ChooseSession() returns (key: Option<Time>)
      requires Valid() && clock != null
      ensures key == PlacementKey(plant, Reg())
    {
      if FillsOnCurrent() {
        key := Some(if plant.hourly then clock.date else TruncateDay(clock.date));
      } else if plant.hourly {
        key := NextBar(plant.history, clock.date);
      } else {
        key := NextTradingDay(plant.history, TruncateDay(clock.date));
      }
    }

    /** The rest of PlaceOrder once a slot is taken: choose the session and insert the row, or give the slot back. */
    method InsertOrder(q: Request, dbOk: bool, ghost counts: map<AgentId, nat>) returns (result: PlaceResult)
      requires Valid() && clock != null
      requires orderCounts == counts[q.agent := CountOf(counts, q.agent) + 1]
      requires q.agent in counts ==> counts[q.agent] > 0
      modifies this`orderCounts, engine`orders
      ensures match PlacementKey(plant, old(Reg()))
        case None => result == NoNextSession && orderCounts == counts && engine.orders == old(engine.orders)
        case Some(key) =>
          if dbOk then
            && result == Accepted && orderCounts == old(orderCounts)
            && engine.orders == old(engine.orders) + [BuildOrder(plant, q, key)]
          else result == NotPersisted && orderCounts == counts && engine.orders == old(engine.orders)
    {
      RollbackUndoes(counts, q.agent);
      var key := ChooseSession();
      if key.None? {
        RollbackOrderSubmission(q.agent);
        return NoNextSession;
      }
      if !dbOk {
        RollbackOrderSubmission(q.agent);
        return NotPersisted;
      }
      engine.orders := engine.orders + [BuildOrder(plant, q, key.value)];
      result := Accepted;
    }

    /** PlaceOrder: take a slot, choose the match session, insert the row; give the slot back if that fails. */
    method PlaceOrder(q: Request, dbOk: bool) returns (result: PlaceResult)
      requires Valid()
      modifies this`orderCounts, engine`orders
      ensures Valid() && (State(), result) == PlaceSim(plant, old(State()), q, dbOk)
    {
      if clock == null || clock.status == Completed {
        return Declined;
      }
      if !ValidOrder(plant.history.listed, BuildOrder(plant, q, 0)) {
        return Declined;
      }
      if q.agent in engine.accounts && engine.accounts[q.agent].disqualified {
        return Declined;
      }
      var accepted := TryAcceptOrderSubmission(q.agent);
      if !accepted {
        return TooMany;
      }
      result := InsertOrder(q, dbOk, old(orderCounts));
    }
  }
}
