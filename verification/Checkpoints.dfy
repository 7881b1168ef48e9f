/** Checkpoint segments, and how many ticks a simulation needs. */
module Checkpoints {
  import opened Common
  import opened Clock
  import opened Lifecycle
  import opened SessionOrder

  lemma {:induction false} CompletedGrows(cfg: Config, j: nat, k: nat)
    requires j <= k
    ensures CompletedSessions(cfg, j) <= CompletedSessions(cfg, k)
    decreases k - j
  {
    if j < k {
      CompletedGrows(cfg, j, k - 1);
    }
  }

  // ----- Segments -----

  ghost predicate Spaced(checkpoints: seq<nat>, interval: nat, total: nat) {
    forall j :: 0 <= j < |checkpoints| ==> checkpoints[j] == (j + 1) * interval < total
  }

  lemma SpacedAppend(checkpoints: seq<nat>, interval: nat, total: nat, next: nat)
    requires Spaced(checkpoints, interval, total) && next == (|checkpoints| + 1) * interval < total
    ensures Spaced(checkpoints + [next], interval, total)
  {
    var longer := checkpoints + [next];
    forall j | 0 <= j < |longer|
      ensures longer[j] == (j + 1) * interval < total
    {
      assert j < |checkpoints| ==> longer[j] == checkpoints[j];
    }
  }

  /**
   * Checkpoint j was taken after exactly (j + 1) * interval completed sessions, never at the end of the schedule.
   * Until the schedule is done, the persisted counter is what has been completed since, and a checkpoint is awaited
   * with nothing completed beyond it.
   */
  ghost predicate SegmentInv(cfg: Config, r: Registry) {
    var done, n := CompletedSessions(cfg, |r.matched|), |r.checkpoints|;
    && Spaced(r.checkpoints, cfg.checkpointInterval, CompletedSessions(cfg, |cfg.schedule|))
    && (|r.matched| < |cfg.schedule| ==>
          if r.db.awaiting then done == cfg.checkpointInterval * n && r.db.daysSince >= cfg.checkpointInterval
          else done == cfg.checkpointInterval * n + r.db.daysSince && r.db.daysSince < cfg.checkpointInterval)
  }

  /** Closing the window commits a match that ends a session, not the last one, while a checkpoint is awaited. */
  predicate ClosesWhileAwaiting(cfg: Config, r: Registry, matchOk: bool) {
    && r.windowOpen && matchOk && r.db.awaiting && r.clock.Some? && r.clock.value.status == Running
    && EndsSession(cfg, r.clock.value.index) && r.clock.value.index < |cfg.schedule| - 1
  }

  predicate MatchesWhileAwaiting(cfg: Config, r: Registry, a: Action) {
    match a
    case DoCloseWindow(matchOk, _) => ClosesWhileAwaiting(cfg, r, matchOk)
    case DoTick(f) =>
      var (r1, e1) := CloseWindow(cfg, r, f.firstMatch, f.firstPublish);
      var (r2, result) := OpenNext(cfg, r1, f.tickPublish);
      ClosesWhileAwaiting(cfg, r, f.firstMatch)
      || (cfg.batch && e1.None? && result == Opened && ClosesWhileAwaiting(cfg, r2, f.secondMatch))
    case _ => false
  }

  predicate NoneMatchesWhileAwaiting(cfg: Config, actions: seq<Action>) {
    actions != [] ==>
      var prior := actions[..|actions| - 1];
      NoneMatchesWhileAwaiting(cfg, prior) && !MatchesWhileAwaiting(cfg, After(cfg, prior), actions[|actions| - 1])
  }

  /** Where a step leaves the segment: broken if it completed a session too early, otherwise in order. */
  ghost predicate SegmentAfter(cfg: Config, r: Registry, early: bool) {
    if early && cfg.checkpointInterval > 1
    then !Spaced(r.checkpoints, cfg.checkpointInterval, CompletedSessions(cfg, |cfg.schedule|))
    else SegmentInv(cfg, r)
  }

  lemma NextMultiple(n: nat, interval: nat)
    ensures interval * (n + 1) == interval * n + interval == (n + 1) * interval
  {
  }

  /** One more checkpoint, after `done` sessions: it keeps the spacing exactly when it is the next multiple. */
  lemma NextCheckpoint(cfg: Config, checkpoints: seq<nat>, done: nat)
    requires Spaced(checkpoints, cfg.checkpointInterval, CompletedSessions(cfg, |cfg.schedule|))
    requires done < CompletedSessions(cfg, |cfg.schedule|)
    ensures Spaced(checkpoints + [done], cfg.checkpointInterval, CompletedSessions(cfg, |cfg.schedule|))
      <==> done == (|checkpoints| + 1) * cfg.checkpointInterval
  {
    var longer := checkpoints + [done];
    assert longer[|checkpoints|] == done;
    if done == (|checkpoints| + 1) * cfg.checkpointInterval {
      SpacedAppend(checkpoints, cfg.checkpointInterval, CompletedSessions(cfg, |cfg.schedule|), done);
    }
  }

  /** A multiple of the interval plus one is the next multiple exactly when the interval is one. */
  lemma OneMore(n: nat, interval: nat)
    requires interval >= 1
    ensures interval * n + 1 == (n + 1) * interval <==> interval == 1
  {
    NextMultiple(n, interval);
  }

  lemma CompletedOneMore(cfg: Config, k: nat)
    requires k < |cfg.schedule|
    ensures CompletedSessions(cfg, k + 1) == CompletedSessions(cfg, k) + if EndsSession(cfg, k) then 1 else 0
    ensures k + 1 < |cfg.schedule| ==> CompletedSessions(cfg, k + 1) < CompletedSessions(cfg, |cfg.schedule|)
  {
    if k + 1 < |cfg.schedule| {
      CompletedGrows(cfg, k + 1, |cfg.schedule| - 1);
      assert EndsSession(cfg, |cfg.schedule| - 1);
    }
  }

  /** What a committed match of session k does to the segment. */
  lemma SegmentCommit(cfg: Config, r: Registry, publishOk: bool)
    requires RegInv(cfg, r) && SegmentInv(cfg, r) && r.windowOpen
    ensures SegmentAfter(cfg, CloseWindow(cfg, r, true, publishOk).0, ClosesWhileAwaiting(cfg, r, true))
  {
    var k, n := |r.matched|, |r.checkpoints|;
    NextMultiple(n, cfg.checkpointInterval);
    OneMore(n, cfg.checkpointInterval);
    CompletedOneMore(cfg, k);
    if EndsSession(cfg, k) && k + 1 < |cfg.schedule| {
      NextCheckpoint(cfg, r.checkpoints, CompletedSessions(cfg, k + 1));
    }
  }

  lemma SegmentClose(cfg: Config, r: Registry, matchOk: bool, publishOk: bool)
    requires RegInv(cfg, r) && SegmentInv(cfg, r)
    ensures SegmentAfter(cfg, CloseWindow(cfg, r, matchOk, publishOk).0, ClosesWhileAwaiting(cfg, r, matchOk))
  {
    if r.windowOpen && matchOk {
      SegmentCommit(cfg, r, publishOk);
    }
  }

  /** What a tick leaves, stage by stage. */
  lemma TickParts(cfg: Config, r: Registry, f: Outcomes)
    ensures var (r1, e1) := CloseWindow(cfg, r, f.firstMatch, f.firstPublish);
      var (r2, result) := OpenNext(cfg, r1, f.tickPublish);
      var (r3, e3) := CloseWindow(cfg, r2, f.secondMatch, f.secondPublish);
      Tick(cfg, r, f).0 ==
        if e1.Some? then r1
        else if result != Opened || !cfg.batch then r2
        else if e3.Some? then Restore(r3, r1.clock.value)
        else r3
  {
  }

  lemma OpeningKeepsLogs(cfg: Config, r: Registry, publishOk: bool)
    ensures var r' := OpenNext(cfg, r, publishOk).0;
      r'.checkpoints == r.checkpoints && r'.matched == r.matched
      && r'.db.awaiting == r.db.awaiting && r'.db.daysSince == r.db.daysSince
  {
  }

  lemma ClosingGrowsLog(cfg: Config, r: Registry, matchOk: bool, publishOk: bool)
    ensures r.checkpoints <= CloseWindow(cfg, r, matchOk, publishOk).0.checkpoints
  {
  }

  lemma TickGrowsLog(cfg: Config, r: Registry, f: Outcomes)
    ensures var r1 := CloseWindow(cfg, r, f.firstMatch, f.firstPublish).0;
      r.checkpoints <= r1.checkpoints <= Tick(cfg, r, f).0.checkpoints
  {
    var r1 := CloseWindow(cfg, r, f.firstMatch, f.firstPublish).0;
    var r2 := OpenNext(cfg, r1, f.tickPublish).0;
    ClosingGrowsLog(cfg, r, f.firstMatch, f.firstPublish);
    OpeningKeepsLogs(cfg, r1, f.tickPublish);
    ClosingGrowsLog(cfg, r2, f.secondMatch, f.secondPublish);
    TickParts(cfg, r, f);
  }

  /** The log of checkpoints only grows, so a broken spacing stays broken. */
  lemma LogGrows(cfg: Config, r: Registry, a: Action)
    ensures r.checkpoints <= Step(cfg, r, a).checkpoints
  {
    match a
    case DoTick(f) => TickGrowsLog(cfg, r, f);
    case DoCloseWindow(matchOk, ok) => ClosingGrowsLog(cfg, r, matchOk, ok);
    case _ =>
  }

  lemma BrokenStaysBroken(checkpoints: seq<nat>, longer: seq<nat>, interval: nat, total: nat)
    requires checkpoints <= longer && !Spaced(checkpoints, interval, total)
    ensures !Spaced(longer, interval, total)
  {
    var j :| 0 <= j < |checkpoints| && !(checkpoints[j] == (j + 1) * interval < total);
    assert longer[j] == checkpoints[j];
  }

  lemma RegInvParts(cfg: Config, r: Registry, f: Outcomes)
    requires RegInv(cfg, r)
    ensures var r1 := CloseWindow(cfg, r, f.firstMatch, f.firstPublish).0;
      RegInv(cfg, r1) && RegInv(cfg, OpenNext(cfg, r1, f.tickPublish).0)
  {
    var k := |r.matched|;
    AtRest(cfg, r, f, k, 1);
    CloseLogs(cfg, r, f.firstMatch, f.firstPublish, k, 1);
    var r1 := CloseWindow(cfg, r, f.firstMatch, f.firstPublish).0;
    OpenNextKeeps(cfg, r1, f.tickPublish, Reach(r, k, f.firstMatch), 1);
  }

  /** The second, zero-length window of a tick; putting the clock back changes nothing here. */
  lemma SegmentRest(cfg: Config, r1: Registry, r2: Registry, f: Outcomes, c: SimClock)
    requires r2 == OpenNext(cfg, r1, f.tickPublish).0 && RegInv(cfg, r2) && SegmentInv(cfg, r1)
    ensures SegmentInv(cfg, r2)
    ensures var r3 := CloseWindow(cfg, r2, f.secondMatch, f.secondPublish).0;
      var early := ClosesWhileAwaiting(cfg, r2, f.secondMatch);
      SegmentAfter(cfg, r3, early) && SegmentAfter(cfg, Restore(r3, c), early)
  {
    OpeningKeepsLogs(cfg, r1, f.tickPublish);
    SegmentClose(cfg, r2, f.secondMatch, f.secondPublish);
  }

  lemma SegmentTick(cfg: Config, r: Registry, f: Outcomes)
    requires RegInv(cfg, r) && SegmentInv(cfg, r)
    ensures SegmentAfter(cfg, Tick(cfg, r, f).0, MatchesWhileAwaiting(cfg, r, DoTick(f)))
  {
    var (r1, e1) := CloseWindow(cfg, r, f.firstMatch, f.firstPublish);
    var (r2, result) := OpenNext(cfg, r1, f.tickPublish);
    SegmentClose(cfg, r, f.firstMatch, f.firstPublish);
    TickParts(cfg, r, f);
    if ClosesWhileAwaiting(cfg, r, f.firstMatch) && cfg.checkpointInterval > 1 {
      TickGrowsLog(cfg, r, f);
      BrokenStaysBroken(r1.checkpoints, Tick(cfg, r, f).0.checkpoints, cfg.checkpointInterval,
                        CompletedSessions(cfg, |cfg.schedule|));
    } else {
      RegInvParts(cfg, r, f);
      SegmentRest(cfg, r1, r2, f, if r1.clock.Some? then r1.clock.value else SimClock(0, 0, Paused));
    }
  }

  lemma SegmentProceed(cfg: Config, r: Registry, publishOk: bool)
    requires RegInv(cfg, r) && SegmentInv(cfg, r)
    ensures SegmentInv(cfg, Proceed(cfg, r, publishOk).0)
  {
    if r.db.awaiting {
      var cleared := r.(db := r.db.(daysSince := 0, awaiting := false));
      assert SegmentInv(cfg, cleared);
      assert Proceed(cfg, r, publishOk) == Start(cfg, cleared, publishOk);
    }
  }

  lemma SegmentStep(cfg: Config, r: Registry, a: Action)
    requires RegInv(cfg, r) && SegmentInv(cfg, r)
    ensures SegmentAfter(cfg, Step(cfg, r, a), MatchesWhileAwaiting(cfg, r, a))
  {
    match a
    case DoTick(f) => SegmentTick(cfg, r, f);
    case DoCloseWindow(matchOk, ok) => SegmentClose(cfg, r, matchOk, ok);
    case DoProceed(ok) => SegmentProceed(cfg, r, ok);
    case _ =>
  }

  /**
   * Consecutive checkpoints are exactly `interval` completed sessions apart (sessions, not bars) and none falls on the
   * last one, exactly when no session but the last is completed while a checkpoint is awaited; with an interval of
   * one, always.
   */
  lemma {:induction false} CheckpointsAreEvenlySpaced(cfg: Config, actions: seq<Action>)
    requires ValidConfig(cfg) && NoneLost(cfg, actions)
    ensures Spaced(After(cfg, actions).checkpoints, cfg.checkpointInterval, CompletedSessions(cfg, |cfg.schedule|))
      <==> cfg.checkpointInterval == 1 || NoneMatchesWhileAwaiting(cfg, actions)
    ensures cfg.checkpointInterval == 1 || NoneMatchesWhileAwaiting(cfg, actions) ==>
      SegmentInv(cfg, After(cfg, actions))
  {
    InOrderExactly(cfg, actions);
    if actions != [] {
      var m := |actions| - 1;
      var r, a := After(cfg, actions[..m]), actions[m];
      CheckpointsAreEvenlySpaced(cfg, actions[..m]);
      if cfg.checkpointInterval == 1 || NoneMatchesWhileAwaiting(cfg, actions[..m]) {
        SegmentStep(cfg, r, a);
      } else {
        LogGrows(cfg, r, a);
        BrokenStaysBroken(r.checkpoints, Step(cfg, r, a).checkpoints, cfg.checkpointInterval,
                          CompletedSessions(cfg, |cfg.schedule|));
      }
    }
  }

  // ----- The gate -----

  /** While a checkpoint is awaited, the clock does not run. */
  ghost predicate Held(cfg: Config, r: Registry) {
    r.db.awaiting ==>
      cfg.schedule != [] && r.db.status != Completed && (r.clock.Some? ==> r.clock.value.status == Paused)
  }

  /** A zero-length window whose checkpoint event cannot be published: Tick undoes the pause. */
  predicate UndoesPause(cfg: Config, r: Registry, f: Outcomes) {
    var (r1, e1) := CloseWindow(cfg, r, f.firstMatch, f.firstPublish);
    var (r2, result) := OpenNext(cfg, r1, f.tickPublish);
    && cfg.batch && e1.None? && result == Opened && f.secondMatch && !f.secondPublish
    && r2.clock.Some? && CheckpointDue(cfg, r2.db, r2.clock.value.index)
  }

  /** Proceed is the only way out of a checkpoint, and no tick undoes one. */
  predicate GateRespected(cfg: Config, r: Registry, a: Action) {
    match a
    case DoStart(_) => !r.db.awaiting
    case DoTick(f) => !UndoesPause(cfg, r, f)
    case _ => true
  }

  predicate AllGatesRespected(cfg: Config, actions: seq<Action>) {
    actions != [] ==>
      var prior := actions[..|actions| - 1];
      AllGatesRespected(cfg, prior) && GateRespected(cfg, After(cfg, prior), actions[|actions| - 1])
  }

  lemma GateClose(cfg: Config, r: Registry, matchOk: bool, publishOk: bool, k: nat)
    requires RegAt(cfg, r, k, 2) && Held(cfg, r)
    ensures Held(cfg, CloseWindow(cfg, r, matchOk, publishOk).0) && !ClosesWhileAwaiting(cfg, r, matchOk)
  {
  }

  lemma GateOpen(cfg: Config, r: Registry, publishOk: bool)
    requires Held(cfg, r)
    ensures var (r', result) := OpenNext(cfg, r, publishOk); Held(cfg, r') && (result == Opened ==> !r'.db.awaiting)
  {
  }

  /** The second, zero-length window of a tick: its checkpoint survives exactly when its event is published. */
  lemma GateRest(cfg: Config, r1: Registry, r2: Registry, matchOk: bool, publishOk: bool)
    requires r2.windowOpen && r2.clock.Some? && r2.clock.value.status == Running
    requires !r2.db.awaiting && cfg.schedule != []
    requires r2.db.status != Completed && r1.clock.Some? && r1.clock.value.status == Running
    ensures var (r3, e3) := CloseWindow(cfg, r2, matchOk, publishOk);
      var last := if e3.Some? then Restore(r3, r1.clock.value) else r3;
      Held(cfg, last) <==> !(matchOk && !publishOk && CheckpointDue(cfg, r2.db, r2.clock.value.index))
  {
  }

  lemma GateTick(cfg: Config, r: Registry, f: Outcomes, k: nat)
    requires RegAt(cfg, r, k, 2) && Held(cfg, r)
    ensures Held(cfg, Tick(cfg, r, f).0) <==> !UndoesPause(cfg, r, f)
    ensures !MatchesWhileAwaiting(cfg, r, DoTick(f))
  {
    var (r1, e1) := CloseWindow(cfg, r, f.firstMatch, f.firstPublish);
    var (r2, result) := OpenNext(cfg, r1, f.tickPublish);
    GateClose(cfg, r, f.firstMatch, f.firstPublish, k);
    GateOpen(cfg, r1, f.tickPublish);
    AtRest(cfg, r, f, k, 2);
    if e1.None? && result == Opened && cfg.batch {
      GateRest(cfg, r1, r2, f.secondMatch, f.secondPublish);
    }
    TickParts(cfg, r, f);
  }

  /** One step keeps an awaited checkpoint's hold on the clock exactly when it respects the gate. */
  lemma GateStep(cfg: Config, r: Registry, a: Action, k: nat)
    requires RegAt(cfg, r, k, 2) && Held(cfg, r)
    ensures Held(cfg, Step(cfg, r, a)) <==> GateRespected(cfg, r, a)
    ensures !MatchesWhileAwaiting(cfg, r, a)
  {
    match a
    case DoTick(f) => GateTick(cfg, r, f, k);
    case _ =>
  }

  ghost predicate HeldThroughout(cfg: Config, actions: seq<Action>) {
    && (actions != [] ==> HeldThroughout(cfg, actions[..|actions| - 1]))
    && Held(cfg, After(cfg, actions))
  }

  /**
   * An awaited checkpoint holds the clock, all along a run, exactly when Proceed is the only way out of one: no Start
   * and no undone pause leaves it.  Then no session is matched while a checkpoint is awaited, and none is lost, so
   * the checkpoints are evenly spaced.
   */
  lemma {:induction false} GateHoldsClock(cfg: Config, actions: seq<Action>)
    requires ValidConfig(cfg)
    ensures HeldThroughout(cfg, actions) <==> AllGatesRespected(cfg, actions)
    ensures AllGatesRespected(cfg, actions) ==> NoneMatchesWhileAwaiting(cfg, actions) && NoneLost(cfg, actions)
    ensures AllGatesRespected(cfg, actions) ==> SegmentInv(cfg, After(cfg, actions))
  {
    if actions != [] {
      var m := |actions| - 1;
      GateHoldsClock(cfg, actions[..m]);
      if HeldThroughout(cfg, actions[..m]) {
        var r := After(cfg, actions[..m]);
        var k := NeverSkipped(cfg, actions[..m]);
        GateStep(cfg, r, actions[m], k);
        InOrderExactly(cfg, actions[..m]);
        if Loses(cfg, r, actions[m]) {
          LosingUndoes(cfg, r, actions[m].outcomes);
        }
      }
    }
    if AllGatesRespected(cfg, actions) {
      CheckpointsAreEvenlySpaced(cfg, actions);
    }
  }

  lemma LosingUndoes(cfg: Config, r: Registry, f: Outcomes)
    requires RegInv(cfg, r) && LostCheckpoint(cfg, r, f)
    ensures UndoesPause(cfg, r, f)
  {
    AtRest(cfg, r, f, |r.matched|, 1);
  }

  // ----- The spacing can break -----

  const FOUR := Config(false, [0, 86400, 172800, 259200], 2, true)
  const FOUR_1 := Registry(Some(SimClock(0, 0, Running)), false, 0, None,
                           Db(Running, Some(0), None, None, 0, false), [], [])
  const FOUR_2 := Registry(Some(SimClock(0, 0, Running)), false, 0, Some(0),
                           Db(Running, Some(0), None, Some(0), 1, false), [0], [])
  const FOUR_3 := Registry(Some(SimClock(1, 86400, Paused)), false, 86400, Some(86400),
                           Db(Paused, Some(86400), None, Some(86400), 2, true), [0, 86400], [2])
  const FOUR_4 := Registry(Some(SimClock(1, 86400, Running)), false, 86400, Some(86400),
                           Db(Running, Some(86400), None, Some(86400), 2, true), [0, 86400], [2])
  const FOUR_5 := Registry(Some(SimClock(2, 172800, Paused)), false, 172800, Some(172800),
                           Db(Paused, Some(172800), None, Some(172800), 3, true), [0, 86400, 172800], [2, 3])

  lemma FourIsValid()
    ensures ValidConfig(FOUR)
  {
  }

  lemma FourFirstTick()
    ensures Start(FOUR, NEW_REGISTRY, true).0 == FOUR_1 && Tick(FOUR, FOUR_1, ALL_WELL).0 == FOUR_2
    ensures !LostCheckpoint(FOUR, FOUR_1, ALL_WELL)
  {
    var open := OpenNext(FOUR, FOUR_1, true).0;
    assert open == FOUR_1.(windowOpen := true);
    assert [] + [0] == [0];
    assert CloseWindow(FOUR, open, true, true) == (FOUR_2, None);
  }

  lemma FourSecondTick()
    ensures Tick(FOUR, FOUR_2, ALL_WELL).0 == FOUR_3 && !LostCheckpoint(FOUR, FOUR_2, ALL_WELL)
    ensures Start(FOUR, FOUR_3, true).0 == FOUR_4
  {
    var open := OpenNext(FOUR, FOUR_2, true).0;
    assert open == FOUR_2.(clock := Some(SimClock(1, 86400, Running)), windowOpen := true, windowDate := 86400,
                             db := FOUR_2.db.(asOfDate := Some(86400)));
    assert CompletedSessions(FOUR, 2) == 2;
    assert [0] + [86400] == [0, 86400] && [] + [2] == [2];
    assert CloseWindow(FOUR, open, true, true) == (FOUR_3, None);
  }

  lemma FourThirdTick()
    ensures Tick(FOUR, FOUR_4, ALL_WELL).0 == FOUR_5 && !LostCheckpoint(FOUR, FOUR_4, ALL_WELL)
    ensures MatchesWhileAwaiting(FOUR, FOUR_4, DoTick(ALL_WELL))
  {
    var open := OpenNext(FOUR, FOUR_4, true).0;
    assert open == FOUR_4.(clock := Some(SimClock(2, 172800, Running)), windowOpen := true, windowDate := 172800,
                             db := FOUR_4.db.(asOfDate := Some(172800)));
    assert CompletedSessions(FOUR, 3) == 3;
    assert [0, 86400] + [172800] == [0, 86400, 172800] && [2] + [3] == [2, 3];
    assert CloseWindow(FOUR, open, true, true) == (FOUR_5, None);
  }

  lemma FourReaches(actions: seq<Action>, a: Action, r: Registry, r': Registry) returns (longer: seq<Action>)
    requires After(FOUR, actions) == r && Step(FOUR, r, a) == r' && NoneLost(FOUR, actions) && !Loses(FOUR, r, a)
    ensures longer == actions + [a] && After(FOUR, longer) == r' && NoneLost(FOUR, longer)
    ensures NoneMatchesWhileAwaiting(FOUR, longer) <==>
      NoneMatchesWhileAwaiting(FOUR, actions) && !MatchesWhileAwaiting(FOUR, r, a)
  {
    longer := actions + [a];
    assert longer[..|actions|] == actions;
  }

  lemma FourBeforeStart() returns (actions: seq<Action>)
    ensures After(FOUR, actions) == FOUR_3 && NoneLost(FOUR, actions)
  {
    FourFirstTick();
    FourSecondTick();
    var none: seq<Action> := [];
    actions := FourReaches(none, DoStart(true), NEW_REGISTRY, FOUR_1);
    actions := FourReaches(actions, DoTick(ALL_WELL), FOUR_1, FOUR_2);
    actions := FourReaches(actions, DoTick(ALL_WELL), FOUR_2, FOUR_3);
  }

  lemma FourAfterStart() returns (actions: seq<Action>)
    ensures After(FOUR, actions) == FOUR_5 && NoneLost(FOUR, actions) && !NoneMatchesWhileAwaiting(FOUR, actions)
    ensures !AllGatesRespected(FOUR, actions)
  {
    actions := FourBeforeStart();
    FourSecondTick();
    FourThirdTick();
    var held := actions;
    actions := FourReaches(actions, DoStart(true), FOUR_3, FOUR_4);
    assert actions[..|held|] == held && !AllGatesRespected(FOUR, actions);
    var before := actions;
    actions := FourReaches(actions, DoTick(ALL_WELL), FOUR_4, FOUR_5);
    assert actions[..|before|] == before;
  }

  /** Two ticks to a checkpoint, a plain Start, and a third tick: the next checkpoint comes one session later. */
  lemma SpacingBreaks() returns (actions: seq<Action>)
    ensures ValidConfig(FOUR) && NoneLost(FOUR, actions) && !NoneMatchesWhileAwaiting(FOUR, actions)
    ensures After(FOUR, actions).checkpoints == [2, 3]
    ensures !Spaced(After(FOUR, actions).checkpoints, 2, CompletedSessions(FOUR, 4))
    ensures !AllGatesRespected(FOUR, actions)
  {
    actions := FourAfterStart();
    FourIsValid();
    assert FOUR_5.checkpoints[1] == 3;
  }

  // ----- Completion -----

  /** A simulation someone is driving: its clock runs, or waits at a checkpoint. */
  ghost predicate Live(cfg: Config, r: Registry) {
    && RegInv(cfg, r) && r.clock.Some?
    && r.clock.value.status == (if r.db.awaiting then Paused else Running)
  }

  /** One drive: proceed past a checkpoint, tick otherwise; nothing fails. */
  function Drive(cfg: Config, r: Registry): Registry {
    if r.db.awaiting then Proceed(cfg, r, true).0 else Tick(cfg, r, ALL_WELL).0
  }

  function Measure(cfg: Config, r: Registry): int {
    match r.clock
    case None => 0
    case Some(c) =>
      4 * (|cfg.schedule| - |r.matched|) + 2 * (|cfg.schedule| - c.index)
      + (if r.db.awaiting then 1 else 0) + (if r.windowOpen then 0 else 1)
  }

  ghost predicate Done(cfg: Config, r: Registry) {
    r.db.status == Completed && r.matched == cfg.schedule
  }

  /** Matching an open window with no failures: one more session, and possibly a checkpoint. */
  lemma GoodClose(cfg: Config, r: Registry)
    requires RegInv(cfg, r) && r.windowOpen && !r.db.awaiting
    ensures var (r', e) := CloseWindow(cfg, r, true, true);
      && e.None? && Live(cfg, r') && !r'.windowOpen
      && |r'.matched| == |r.matched| + 1 && r'.clock.value.index == r.clock.value.index
  {
    CloseWindowKeeps(cfg, r, true, true, |r.matched|, 1);
    CloseLogs(cfg, r, true, true, |r.matched|, 1);
  }

  lemma GoodOpen(cfg: Config, r: Registry)
    requires Live(cfg, r) && !r.db.awaiting && !r.windowOpen
    ensures var (r', result) := OpenNext(cfg, r, true);
      && r'.matched == r.matched
      && (if |r.matched| > r.clock.value.index && r.clock.value.index == |cfg.schedule| - 1
          then result == Finished && Done(cfg, r')
          else result == Opened && Live(cfg, r') && r'.windowOpen && !r'.db.awaiting
               && r'.clock.value.index == r.clock.value.index + if |r.matched| > r.clock.value.index then 1 else 0)
  {
    OpenNextKeeps(cfg, r, true, |r.matched|, 1);
    AdvancesIffReached(cfg, r, |r.matched|, 1);
    if |r.matched| == |cfg.schedule| {
      assert cfg.schedule[..|cfg.schedule|] == cfg.schedule;
    }
  }

  lemma DriveTick(cfg: Config, r: Registry)
    requires Live(cfg, r) && !r.db.awaiting
    ensures var r' := Tick(cfg, r, ALL_WELL).0;
      Done(cfg, r') || (Live(cfg, r') && Measure(cfg, r') < Measure(cfg, r))
  {
    var r1 := CloseWindow(cfg, r, true, true).0;
    if r.windowOpen {
      GoodClose(cfg, r);
    } else {
      assert r1 == r;
    }
    if r1.db.awaiting {
      assert Tick(cfg, r, ALL_WELL).0 == r1;
    } else {
      GoodOpen(cfg, r1);
      var (r2, result) := OpenNext(cfg, r1, true);
      if result == Opened && cfg.batch {
        GoodClose(cfg, r2);
        assert Tick(cfg, r, ALL_WELL).0 == CloseWindow(cfg, r2, true, true).0;
      } else {
        assert Tick(cfg, r, ALL_WELL).0 == r2;
      }
    }
  }

  lemma DriveProceed(cfg: Config, r: Registry)
    requires Live(cfg, r) && r.db.awaiting
    ensures var r' := Proceed(cfg, r, true).0; Live(cfg, r') && Measure(cfg, r') < Measure(cfg, r)
  {
    ProceedKeeps(cfg, r, true, |r.matched|, 1);
  }

  function DriveN(cfg: Config, r: Registry, n: nat): Registry
    decreases n
  {
    if n == 0 || r.db.status == Completed then r else DriveN(cfg, Drive(cfg, r), n - 1)
  }

  /** Each drive decreases the measure until the simulation is completed, with every session matched once. */
  lemma {:induction false} DrivingCompletes(cfg: Config, r: Registry, n: nat)
    requires Live(cfg, r) && n > Measure(cfg, r)
    ensures Done(cfg, DriveN(cfg, r, n))
    decreases n
  {
    if r.db.awaiting {
      DriveProceed(cfg, r);
    } else {
      DriveTick(cfg, r);
    }
    var r' := Drive(cfg, r);
    if Done(cfg, r') {
      assert DriveN(cfg, r', n - 1) == r';
    } else {
      DrivingCompletes(cfg, r', n - 1);
    }
  }

  /** From a fresh start, 6 * sessions + 2 drives match the whole schedule and complete. */
  lemma CompletesInBoundedTicks(cfg: Config)
    requires ValidConfig(cfg) && cfg.schedule != []
    ensures Done(cfg, DriveN(cfg, Start(cfg, NEW_REGISTRY, true).0, 6 * |cfg.schedule| + 2))
  {
    InitialRegistry(cfg);
    StartKeeps(cfg, NEW_REGISTRY, true, 0, 1);
    DrivingCompletes(cfg, Start(cfg, NEW_REGISTRY, true).0, 6 * |cfg.schedule| + 2);
  }
}
