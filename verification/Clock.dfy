/** The simulation clock and registry (internal/clock) as functions of one simulation's state. */
module Clock {
  import opened Common
  import opened Calendar

  datatype ClockStatus = Running | Paused | Completed
  datatype ClockError =
    | NoActiveClock | ClockNotRunning | ClockCompleted | NoTradingDays | NotAwaitingProceed
    | MatcherFailed | PublishFailed

  /** Fixed for a run: bar interval, trading days or bars, checkpoint interval, and whether windows have length zero. */
  datatype Config = Config(hourly: bool, schedule: seq<Time>, checkpointInterval: nat, batch: bool)

  /** The moving part of a SimClock. */
  datatype SimClock = SimClock(index: nat, date: Time, status: ClockStatus)

  /** The persisted `simulations` row, with the clock's fragments of its config. */
  datatype Db = Db(
    status: ClockStatus, asOfDate: Option<Time>, asOfTs: Option<Time>, lastMatched: Option<Time>,
    daysSince: nat, awaiting: bool)

  /**
   * One simulation in the registry.  `matched` and `checkpoints` are history: the sessions matched so far, and at
   * each checkpoint the number of sessions completed by then.
   */
  datatype Registry = Registry(
    clock: Option<SimClock>, windowOpen: bool, windowDate: Time, lastMatched: Option<Time>, db: Db,
    matched: seq<Time>, checkpoints: seq<nat>)

  const NEW_REGISTRY := Registry(None, false, 0, None, Db(Paused, None, None, None, 0, false), [], [])

  function ShouldAdvance(lastMatched: Option<Time>, current: Time): bool {
    lastMatched.Some? && !(TruncateDay(lastMatched.value) < TruncateDay(current))
  }

  function ShouldAdvanceExact(lastMatched: Option<Time>, current: Time): bool {
    lastMatched.Some? && !(lastMatched.value < current)
  }

  predicate Advances(cfg: Config, lastMatched: Option<Time>, current: Time) {
    if cfg.hourly then ShouldAdvanceExact(lastMatched, current) else ShouldAdvance(lastMatched, current)
  }

  function SessionCalendar(cfg: Config, date: Time): Time {
    if cfg.hourly then SessionCalendarUTC(date) else TruncateDay(date)
  }

  /** clock.go's IsLastBarOfSession, at a position of the schedule. */
  predicate EndsSession(cfg: Config, i: nat)
  {
    !cfg.hourly || i >= |cfg.schedule| - 1 || !SameSession(cfg.schedule[i], cfg.schedule[i + 1])
  }

  // ----- Index searches -----

  function IndexOfTradingDay(days: seq<Time>, asOf: Time, i: nat): (r: nat)
    requires i <= |days|
    ensures days != [] ==> r < |days|
    decreases |days| - i
  {
    if i == |days| then 0
    else if TruncateDay(days[i]) == TruncateDay(asOf) then i
    else IndexOfTradingDay(days, asOf, i + 1)
  }

  function IndexOfBar(bars: seq<Time>, asOf: Time, i: nat, best: nat): (r: nat)
    requires i <= |bars|
    ensures best < |bars| ==> r < |bars|
    decreases |bars| - i
  {
    if i == |bars| then best
    else if bars[i] == asOf then i
    else IndexOfBar(bars, asOf, i + 1, if bars[i] <= asOf then i else best)
  }

  function IndexOfBarOnSession(bars: seq<Time>, session: Time, i: nat): (r: nat)
    requires i <= |bars|
    ensures bars != [] ==> r < |bars|
    decreases |bars| - i
  {
    if i == |bars| then IndexOfBar(bars, session, 0, 0)
    else if SessionCalendarUTC(bars[i]) == SessionCalendarUTC(session) then i
    else IndexOfBarOnSession(bars, session, i + 1)
  }

  /** Where Start resumes from what was persisted. */
  function StartIndex(cfg: Config, db: Db): nat {
    if cfg.hourly then
      match (db.asOfTs, db.asOfDate)
      case (Some(t), _) => IndexOfBar(cfg.schedule, t, 0, 0)
      case (None, Some(d)) => IndexOfBarOnSession(cfg.schedule, d, 0)
      case (None, None) => 0
    else
      match db.asOfDate
      case Some(d) => IndexOfTradingDay(cfg.schedule, d, 0)
      case None => 0
  }

  // ----- Steps -----

  function UpdateClock(cfg: Config, db: Db, date: Time, status: ClockStatus): Db {
    db.(asOfDate := Some(SessionCalendar(cfg, date)), status := status)
  }

  function PersistAsOfTS(cfg: Config, db: Db, date: Time): Db {
    if cfg.hourly then db.(asOfTs := Some(date)) else db
  }

  function Published(ok: bool): Option<ClockError> {
    if ok then None else Some(PublishFailed)
  }

  function Start(cfg: Config, r: Registry, publishOk: bool): (Registry, Option<ClockError>) {
    if r.db.status == Completed then (r, Some(ClockCompleted))
    else if cfg.schedule == [] then (r, Some(NoTradingDays))
    else if r.clock.Some? && r.clock.value.status == Running then (r, None)
    else if r.clock.Some? && r.clock.value.status == Paused then
      var c := r.clock.value.(status := Running);
      (r.(clock := Some(c), db := PersistAsOfTS(cfg, UpdateClock(cfg, r.db, c.date, Running), c.date)),
       Published(publishOk))
    else
      var i := StartIndex(cfg, r.db);
      var date := if i < |cfg.schedule| then cfg.schedule[i] else 0;
      (r.(clock := Some(SimClock(i, date, Running)), lastMatched := r.db.lastMatched,
          db := PersistAsOfTS(cfg, UpdateClock(cfg, r.db, date, Running), date)),
       Published(publishOk))
  }

  function Pause(cfg: Config, r: Registry): (Registry, Option<ClockError>) {
    match r.clock
    case None => (r, Some(NoActiveClock))
    case Some(c) =>
      if c.status == Completed then (r, Some(ClockCompleted)) else
        (r.(clock := Some(c.(status := Paused)), windowOpen := false,
            db := UpdateClock(cfg, r.db, c.date, Paused)),
         None)
  }

  datatype TickResult = Failed(error: ClockError) | Finished | Opened

  /** The part of Tick between its two matches: advance if the current session is matched, then open the window. */
  function OpenNext(cfg: Config, r: Registry, publishOk: bool): (Registry, TickResult) {
    match r.clock
    case None => (r, Failed(NoActiveClock))
    case Some(c) =>
      if c.status != Running then (r, Failed(ClockNotRunning))
      else if !Advances(cfg, r.lastMatched, c.date) then (OpenWindow(cfg, r, c), Opened)
      else if c.index >= |cfg.schedule| - 1 then
        if !publishOk then (r.(clock := Some(c.(status := Completed))), Failed(PublishFailed)) else
          (r.(clock := None, windowOpen := false,
              db := r.db.(asOfDate := Some(TruncateDay(c.date)), status := Completed)), Finished)
      else
        var c' := SimClock(c.index + 1, cfg.schedule[c.index + 1], Running);
        if !publishOk then (r.(clock := Some(c')), Failed(PublishFailed))
        else (OpenWindow(cfg, r, c'), Opened)
  }

  function OpenWindow(cfg: Config, r: Registry, c: SimClock): Registry {
    r.(clock := Some(c), windowOpen := true, windowDate := c.date,
       db := PersistAsOfTS(cfg, UpdateClock(cfg, r.db, c.date, c.status), c.date))
  }

  /** Completed trading sessions among the first k scheduled days or bars. */
  function CompletedSessions(cfg: Config, k: nat): nat {
    if k == 0 then 0 else CompletedSessions(cfg, k - 1) + if EndsSession(cfg, k - 1) then 1 else 0
  }

  function MaybeCheckpoint(cfg: Config, r: Registry, c: SimClock, countDay: bool, publishOk: bool)
    : (Registry, Option<ClockError>)
  {
    if !countDay then (r, None) else
      var days := r.db.daysSince + 1;
      var counted := r.(db := r.db.(daysSince := days));
      if days < cfg.checkpointInterval || c.index >= |cfg.schedule| - 1 then (counted, None) else
        (counted.(clock := Some(c.(status := Paused)), windowOpen := false,
                  db := UpdateClock(cfg, counted.db.(awaiting := true), c.date, Paused),
                  checkpoints := r.checkpoints + [CompletedSessions(cfg, |r.matched|)]),
         Published(publishOk))
  }

  function MatchKey(cfg: Config, date: Time): Time {
    if cfg.hourly then date else TruncateDay(date)
  }

  /** CloseWindowAndMatch, given whether the matching transaction committed. */
  function CloseWindow(cfg: Config, r: Registry, matchOk: bool, publishOk: bool): (Registry, Option<ClockError>) {
    if !r.windowOpen then (r, None)
    else if !matchOk then (r.(windowOpen := false), Some(MatcherFailed))
    else
      var key := MatchKey(cfg, r.windowDate);
      var done := r.(windowOpen := false, lastMatched := Some(key), db := r.db.(lastMatched := Some(key)),
                     matched := r.matched + [key]);
      match r.clock
      case None => (done, None)
      case Some(c) =>
        if c.status != Running then (done, None)
        else MaybeCheckpoint(cfg, done, c, EndsSession(cfg, c.index), publishOk)
  }

  function Restore(r: Registry, c: SimClock): Registry {
    r.(clock := Some(c))
  }

  /** The outcomes the environment chooses for one Tick; true means success. */
  datatype Outcomes = Outcomes(
    firstMatch: bool, firstPublish: bool, tickPublish: bool, secondMatch: bool, secondPublish: bool)

  const ALL_WELL := Outcomes(true, true, true, true, true)

  function Tick(cfg: Config, r: Registry, f: Outcomes): (Registry, Option<ClockError>) {
    var (r1, e1) := CloseWindow(cfg, r, f.firstMatch, f.firstPublish);
    if e1.Some? then (r1, e1) else
      var (r2, result) := OpenNext(cfg, r1, f.tickPublish);
      match result
      case Failed(e) => (r2, Some(e))
      case Finished => (r2, None)
      case Opened =>
        if !cfg.batch then (r2, None) else
          var (r3, e3) := CloseWindow(cfg, r2, f.secondMatch, f.secondPublish);
          if e3.Some? then (Restore(r3, r1.clock.value), e3) else (r3, None)
  }

  function Proceed(cfg: Config, r: Registry, publishOk: bool): (Registry, Option<ClockError>) {
    if !r.db.awaiting then (r, Some(NotAwaitingProceed))
    else Start(cfg, r.(db := r.db.(daysSince := 0, awaiting := false)), publishOk)
  }

  /** The process dies: only the database survives. */
  function Crash(r: Registry): Registry {
    r.(clock := None, windowOpen := false, lastMatched := None)
  }

  /** OrderFillsOnCurrentDate: is the next match still the clock's current session? */
  predicate OrderFillsOnCurrentDate(cfg: Config, r: Registry) {
    match r.clock
    case None => false
    case Some(c) => r.windowOpen || !Advances(cfg, r.lastMatched, c.date)
  }
}
