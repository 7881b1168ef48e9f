/** No session is skipped, repeated or reordered: the registry's whole-run safety. */
module SessionOrder {
  import opened Common
  import opened Clock
  import opened Lifecycle

  datatype Action =
    | DoStart(publishOk: bool)
    | DoPause
    | DoTick(outcomes: Outcomes)
    | DoCloseWindow(matchOk: bool, publishOk: bool)
    | DoProceed(publishOk: bool)
    | DoCrash

  function Step(cfg: Config, r: Registry, a: Action): Registry {
    match a
    case DoStart(ok) => Start(cfg, r, ok).0
    case DoPause => Pause(cfg, r).0
    case DoTick(f) => Tick(cfg, r, f).0
    case DoCloseWindow(matchOk, ok) => CloseWindow(cfg, r, matchOk, ok).0
    case DoProceed(ok) => Proceed(cfg, r, ok).0
    case DoCrash => Crash(r)
  }

  function After(cfg: Config, actions: seq<Action>): Registry {
    if actions == [] then NEW_REGISTRY
    else Step(cfg, After(cfg, actions[..|actions| - 1]), actions[|actions| - 1])
  }

  function ReachOf(cfg: Config, r: Registry, a: Action, k: nat): nat {
    match a
    case DoTick(f) => TickReach(cfg, r, f, k)
    case DoCloseWindow(matchOk, _) => Reach(r, k, matchOk)
    case _ => k
  }

  predicate Loses(cfg: Config, r: Registry, a: Action) {
    a.DoTick? && LostCheckpoint(cfg, r, a.outcomes)
  }

  lemma StepKeeps(cfg: Config, r: Registry, a: Action, k: nat, lag: nat)
    requires RegAt(cfg, r, k, lag)
    ensures RegAt(cfg, Step(cfg, r, a), ReachOf(cfg, r, a, k), lag) <==> (lag == 2 || !Loses(cfg, r, a))
  {
    match a
    case DoStart(ok) => StartKeeps(cfg, r, ok, k, lag);
    case DoPause => PauseKeeps(cfg, r, k, lag);
    case DoTick(f) => TickKeeps(cfg, r, f, k, lag);
    case DoCloseWindow(matchOk, ok) => CloseWindowKeeps(cfg, r, matchOk, ok, k, lag);
    case DoProceed(ok) => ProceedKeeps(cfg, r, ok, k, lag);
    case DoCrash => CrashKeeps(cfg, r, k, lag);
  }

  // ----- The log of matched sessions -----

  /** The log visits sessions 0, 1, ..., k-1 in order, possibly matching the latest one again. */
  ghost predicate Walk(cfg: Config, matched: seq<Time>, k: nat)
    requires k <= |cfg.schedule|
  {
    if matched == [] then k == 0 else
      var rest := matched[..|matched| - 1];
      k > 0 && matched[|matched| - 1] == cfg.schedule[k - 1]
      && (Walk(cfg, rest, k - 1) || (rest != [] && Walk(cfg, rest, k)))
  }

  ghost predicate LogAt(cfg: Config, matched: seq<Time>, k: nat, lag: nat)
    requires k <= |cfg.schedule|
  {
    if lag == 1 then matched == cfg.schedule[..k] else Walk(cfg, matched, k)
  }

  /** A walk leaves no session out, names no other, and never goes back. */
  lemma {:induction false} WalkCovers(cfg: Config, matched: seq<Time>, k: nat)
    requires ValidConfig(cfg) && k <= |cfg.schedule| && Walk(cfg, matched, k)
    ensures forall j :: 0 <= j < k ==> cfg.schedule[j] in matched
    ensures forall t :: t in matched ==> t in cfg.schedule[..k]
    ensures forall i, j :: 0 <= i < j < |matched| ==> matched[i] <= matched[j]
  {
    if matched != [] {
      var n := |matched| - 1;
      var rest := matched[..n];
      var k' := if Walk(cfg, rest, k - 1) then k - 1 else k;
      WalkCovers(cfg, rest, k');
      assert matched == rest + [cfg.schedule[k - 1]];
      forall i | 0 <= i < n
        ensures matched[i] <= matched[n]
      {
        assert rest[i] in cfg.schedule[..k'];
      }
    }
  }

  lemma CloseLogs(cfg: Config, r: Registry, matchOk: bool, publishOk: bool, k: nat, lag: nat)
    requires RegAt(cfg, r, k, lag) && LogAt(cfg, r.matched, k, lag)
    ensures Reach(r, k, matchOk) <= |cfg.schedule|
    ensures LogAt(cfg, CloseWindow(cfg, r, matchOk, publishOk).0.matched, Reach(r, k, matchOk), lag)
  {
    CloseWindowKeeps(cfg, r, matchOk, publishOk, k, lag);
    if r.windowOpen && matchOk {
      var log := r.matched + [r.windowDate];
      assert log[..|log| - 1] == r.matched;
      if lag == 1 {
        assert cfg.schedule[..k] + [cfg.schedule[k]] == cfg.schedule[..k + 1];
      }
    }
  }

  lemma TickMatched(cfg: Config, r: Registry, f: Outcomes)
    ensures var (r1, e1) := CloseWindow(cfg, r, f.firstMatch, f.firstPublish);
      var (r2, result) := OpenNext(cfg, r1, f.tickPublish);
      Tick(cfg, r, f).0.matched ==
        if e1.Some? then r1.matched
        else if result != Opened || !cfg.batch then r2.matched
        else CloseWindow(cfg, r2, f.secondMatch, f.secondPublish).0.matched
  {
  }

  lemma TickLogs(cfg: Config, r: Registry, f: Outcomes, k: nat, lag: nat)
    requires RegAt(cfg, r, k, lag) && LogAt(cfg, r.matched, k, lag)
    ensures TickReach(cfg, r, f, k) <= |cfg.schedule|
    ensures LogAt(cfg, Tick(cfg, r, f).0.matched, TickReach(cfg, r, f, k), lag)
  {
    TickMatched(cfg, r, f);
    CloseLogs(cfg, r, f.firstMatch, f.firstPublish, k, lag);
    var r1, k1 := CloseWindow(cfg, r, f.firstMatch, f.firstPublish).0, Reach(r, k, f.firstMatch);
    var r2 := OpenNext(cfg, r1, f.tickPublish).0;
    assert RegAt(cfg, r2, k1, lag) && r2.matched == r1.matched by {
      CloseWindowKeeps(cfg, r, f.firstMatch, f.firstPublish, k, lag);
      OpenNextKeeps(cfg, r1, f.tickPublish, k1, lag);
    }
    CloseLogs(cfg, r2, f.secondMatch, f.secondPublish, k1, lag);
  }

  lemma StepLogs(cfg: Config, r: Registry, a: Action, k: nat, lag: nat)
    requires RegAt(cfg, r, k, lag) && LogAt(cfg, r.matched, k, lag)
    ensures ReachOf(cfg, r, a, k) <= |cfg.schedule|
    ensures LogAt(cfg, Step(cfg, r, a).matched, ReachOf(cfg, r, a, k), lag)
  {
    match a
    case DoTick(f) => TickLogs(cfg, r, f, k, lag);
    case DoCloseWindow(matchOk, ok) => CloseLogs(cfg, r, matchOk, ok, k, lag);
    case DoProceed(ok) =>
      assert Step(cfg, r, a).matched == r.matched;
    case _ =>
      assert Step(cfg, r, a).matched == r.matched;
  }

  /**
   * The matched sessions are the first ones of the schedule, each once and in order, and the clock stands at the
   * next session or at the last one matched.
   */
  ghost predicate RegInv(cfg: Config, r: Registry) {
    && |r.matched| <= |cfg.schedule|
    && RegAt(cfg, r, |r.matched|, 1) && LogAt(cfg, r.matched, |r.matched|, 1)
  }

  lemma RegInvStep(cfg: Config, r: Registry, a: Action)
    requires RegInv(cfg, r)
    ensures RegInv(cfg, Step(cfg, r, a)) <==> !Loses(cfg, r, a)
    ensures |Step(cfg, r, a).matched| == ReachOf(cfg, r, a, |r.matched|) <= |cfg.schedule|
  {
    StepKeeps(cfg, r, a, |r.matched|, 1);
    StepLogs(cfg, r, a, |r.matched|, 1);
  }

  lemma InitialRegistry(cfg: Config)
    requires ValidConfig(cfg)
    ensures RegInv(cfg, NEW_REGISTRY) && RegAt(cfg, NEW_REGISTRY, 0, 2)
  {
    assert PersistedAt(cfg, NEW_REGISTRY.db, 0);
  }

  /** Every state along the run is in order. */
  ghost predicate InOrderThroughout(cfg: Config, actions: seq<Action>) {
    && (actions != [] ==> InOrderThroughout(cfg, actions[..|actions| - 1]))
    && RegInv(cfg, After(cfg, actions))
  }

  /** No tick of the run loses a checkpoint event. */
  predicate NoneLost(cfg: Config, actions: seq<Action>) {
    actions != [] ==>
      var prior := actions[..|actions| - 1];
      NoneLost(cfg, prior) && !Loses(cfg, After(cfg, prior), actions[|actions| - 1])
  }

  /**
   * Over any interleaving of starts, pauses, ticks, window closes, proceeds, failures and restarts: every state along
   * the run keeps the matched sessions a prefix of the schedule, with the clock in step, exactly when no tick loses
   * a checkpoint event.
   */
  lemma {:induction false} InOrderExactly(cfg: Config, actions: seq<Action>)
    requires ValidConfig(cfg)
    ensures InOrderThroughout(cfg, actions) <==> NoneLost(cfg, actions)
  {
    if actions == [] {
      InitialRegistry(cfg);
    } else {
      var m := |actions| - 1;
      InOrderExactly(cfg, actions[..m]);
      if InOrderThroughout(cfg, actions[..m]) {
        RegInvStep(cfg, After(cfg, actions[..m]), actions[m]);
      }
    }
  }

  /** Even when a checkpoint event is lost, no session is ever skipped or matched out of order. */
  lemma {:induction false} NeverSkipped(cfg: Config, actions: seq<Action>) returns (k: nat)
    requires ValidConfig(cfg)
    ensures k <= |cfg.schedule| && RegAt(cfg, After(cfg, actions), k, 2) && Walk(cfg, After(cfg, actions).matched, k)
  {
    if actions == [] {
      InitialRegistry(cfg);
      k := 0;
    } else {
      var m := |actions| - 1;
      k := NeverSkipped(cfg, actions[..m]);
      var r := After(cfg, actions[..m]);
      StepKeeps(cfg, r, actions[m], k, 2);
      StepLogs(cfg, r, actions[m], k, 2);
      k := ReachOf(cfg, r, actions[m], k);
    }
  }

  // ----- The log alone -----

  /** The log is the first sessions of the schedule, each once and in order. */
  ghost predicate EachOnce(cfg: Config, matched: seq<Time>) {
    |matched| <= |cfg.schedule| && matched == cfg.schedule[..|matched|]
  }

  /** Closing the window commits a session dated at or before the last one matched. */
  predicate ClosesAgain(r: Registry, matchOk: bool) {
    r.windowOpen && matchOk && r.db.lastMatched.Some? && r.windowDate <= r.db.lastMatched.value
  }

  predicate MatchesAgain(cfg: Config, r: Registry, a: Action) {
    match a
    case DoCloseWindow(matchOk, _) => ClosesAgain(r, matchOk)
    case DoTick(f) =>
      var (r1, e1) := CloseWindow(cfg, r, f.firstMatch, f.firstPublish);
      var (r2, result) := OpenNext(cfg, r1, f.tickPublish);
      ClosesAgain(r, f.firstMatch) || (cfg.batch && e1.None? && result == Opened && ClosesAgain(r2, f.secondMatch))
    case _ => false
  }

  predicate NoneMatchesAgain(cfg: Config, actions: seq<Action>) {
    actions != [] ==>
      var prior := actions[..|actions| - 1];
      NoneMatchesAgain(cfg, prior) && !MatchesAgain(cfg, After(cfg, prior), actions[|actions| - 1])
  }

  lemma EarlierOnce(cfg: Config, matched: seq<Time>, longer: seq<Time>)
    requires matched <= longer && EachOnce(cfg, longer)
    ensures EachOnce(cfg, matched)
  {
    assert matched == longer[..|matched|];
  }

  /** A log that repeats a session goes on repeating it. */
  lemma RepeatsStay(cfg: Config, matched: seq<Time>, longer: seq<Time>)
    requires matched <= longer && !EachOnce(cfg, matched)
    ensures !EachOnce(cfg, longer)
  {
    if EachOnce(cfg, longer) {
      EarlierOnce(cfg, matched, longer);
    }
  }

  lemma ClosingGrowsLog(cfg: Config, r: Registry, matchOk: bool, publishOk: bool)
    ensures r.matched <= CloseWindow(cfg, r, matchOk, publishOk).0.matched
  {
  }

  lemma OpeningKeepsLog(cfg: Config, r: Registry, publishOk: bool)
    ensures OpenNext(cfg, r, publishOk).0.matched == r.matched
  {
  }

  lemma TickGrowsLog(cfg: Config, r: Registry, f: Outcomes)
    ensures r.matched <= CloseWindow(cfg, r, f.firstMatch, f.firstPublish).0.matched <= Tick(cfg, r, f).0.matched
  {
    var r1 := CloseWindow(cfg, r, f.firstMatch, f.firstPublish).0;
    TickMatched(cfg, r, f);
    ClosingGrowsLog(cfg, r, f.firstMatch, f.firstPublish);
    OpeningKeepsLog(cfg, r1, f.tickPublish);
    ClosingGrowsLog(cfg, OpenNext(cfg, r1, f.tickPublish).0, f.secondMatch, f.secondPublish);
  }

  lemma LogGrows(cfg: Config, r: Registry, a: Action)
    ensures r.matched <= Step(cfg, r, a).matched
  {
    match a
    case DoTick(f) => TickGrowsLog(cfg, r, f);
    case DoCloseWindow(matchOk, ok) => ClosingGrowsLog(cfg, r, matchOk, ok);
    case _ =>
  }

  lemma CloseOnce(cfg: Config, r: Registry, matchOk: bool, publishOk: bool, k: nat)
    requires RegAt(cfg, r, k, 2) && r.matched == cfg.schedule[..k]
    ensures var r' := CloseWindow(cfg, r, matchOk, publishOk).0;
      && r.matched <= r'.matched && RegAt(cfg, r', Reach(r, k, matchOk), 2)
      && if ClosesAgain(r, matchOk) then !EachOnce(cfg, r'.matched)
         else r'.matched == cfg.schedule[..Reach(r, k, matchOk)]
  {
    CloseWindowKeeps(cfg, r, matchOk, publishOk, k, 2);
    if r.windowOpen && matchOk {
      var longer := r.matched + [r.windowDate];
      if r.clock.value.index == k {
        assert k > 0 ==> cfg.schedule[k - 1] < cfg.schedule[k];
        assert longer == cfg.schedule[..k + 1];
      } else {
        assert longer[k] == longer[k - 1] == cfg.schedule[k - 1];
        assert k < |cfg.schedule| ==> cfg.schedule[k - 1] < cfg.schedule[k];
      }
    }
  }

  /** The second, zero-length window of a tick. */
  lemma RestOnce(cfg: Config, r1: Registry, f: Outcomes, k: nat)
    requires RegAt(cfg, r1, k, 2) && r1.matched == cfg.schedule[..k] && !r1.windowOpen
    ensures var r2 := OpenNext(cfg, r1, f.tickPublish).0;
      && EachOnce(cfg, r2.matched)
      && (ClosesAgain(r2, f.secondMatch) <==>
            !EachOnce(cfg, CloseWindow(cfg, r2, f.secondMatch, f.secondPublish).0.matched))
  {
    OpenNextKeeps(cfg, r1, f.tickPublish, k, 2);
    CloseOnce(cfg, OpenNext(cfg, r1, f.tickPublish).0, f.secondMatch, f.secondPublish, k);
  }

  lemma TickOnce(cfg: Config, r: Registry, f: Outcomes, k: nat)
    requires RegAt(cfg, r, k, 2) && r.matched == cfg.schedule[..k]
    ensures MatchesAgain(cfg, r, DoTick(f)) <==> !EachOnce(cfg, Tick(cfg, r, f).0.matched)
  {
    var r1 := CloseWindow(cfg, r, f.firstMatch, f.firstPublish).0;
    CloseOnce(cfg, r, f.firstMatch, f.firstPublish, k);
    if ClosesAgain(r, f.firstMatch) {
      TickGrowsLog(cfg, r, f);
      RepeatsStay(cfg, r1.matched, Tick(cfg, r, f).0.matched);
    } else {
      CloseWindowKeeps(cfg, r, f.firstMatch, f.firstPublish, k, 2);
      RestOnce(cfg, r1, f, Reach(r, k, f.firstMatch));
      TickMatched(cfg, r, f);
    }
  }

  lemma StepOnce(cfg: Config, r: Registry, a: Action, k: nat)
    requires RegAt(cfg, r, k, 2) && r.matched == cfg.schedule[..k]
    ensures MatchesAgain(cfg, r, a) <==> !EachOnce(cfg, Step(cfg, r, a).matched)
  {
    match a
    case DoTick(f) => TickOnce(cfg, r, f, k);
    case DoCloseWindow(matchOk, ok) => CloseOnce(cfg, r, matchOk, ok, k);
    case _ => assert Step(cfg, r, a).matched == r.matched;
  }

  /** A log of each session once has reached as many sessions as it is long. */
  lemma WalkLength(cfg: Config, matched: seq<Time>, k: nat)
    requires ValidConfig(cfg) && k <= |cfg.schedule| && Walk(cfg, matched, k) && EachOnce(cfg, matched)
    ensures matched == cfg.schedule[..k]
  {
    var n := |matched|;
    if n > 0 {
      assert cfg.schedule[n - 1] == cfg.schedule[k - 1];
      assert n == k;
    }
  }

  /**
   * The matched sessions are a prefix of the schedule, each once and in order, exactly when no committed close is of a
   * window dated at or before the last session matched.  A lost checkpoint alone does not break the log.
   */
  lemma {:induction false} EachSessionOnceExactly(cfg: Config, actions: seq<Action>)
    requires ValidConfig(cfg)
    ensures EachOnce(cfg, After(cfg, actions).matched) <==> NoneMatchesAgain(cfg, actions)
  {
    if actions != [] {
      var n := |actions| - 1;
      var r, a := After(cfg, actions[..n]), actions[n];
      EachSessionOnceExactly(cfg, actions[..n]);
      LogGrows(cfg, r, a);
      if EachOnce(cfg, r.matched) {
        var k := NeverSkipped(cfg, actions[..n]);
        WalkLength(cfg, r.matched, k);
        StepOnce(cfg, r, a, k);
      } else {
        RepeatsStay(cfg, r.matched, Step(cfg, r, a).matched);
      }
    }
  }

  // ----- The lost checkpoint is real -----

  const DEMO := Config(false, [0, 86400, 172800], 2, true)
  const DEMO_LOST := Outcomes(true, true, true, true, false)
  const DEMO_1 := Registry(Some(SimClock(0, 0, Running)), false, 0, None,
                           Db(Running, Some(0), None, None, 0, false), [], [])
  const DEMO_2 := Registry(Some(SimClock(0, 0, Running)), false, 0, Some(0),
                           Db(Running, Some(0), None, Some(0), 1, false), [0], [])
  const DEMO_3 := Registry(Some(SimClock(0, 0, Running)), false, 86400, Some(86400),
                           Db(Paused, Some(86400), None, Some(86400), 2, true), [0, 86400], [2])

  lemma DemoIsValid()
    ensures ValidConfig(DEMO)
  {
  }

  lemma DemoFirstTick()
    ensures Start(DEMO, NEW_REGISTRY, true).0 == DEMO_1
    ensures Tick(DEMO, DEMO_1, ALL_WELL).0 == DEMO_2
  {
    var open := OpenNext(DEMO, DEMO_1, true).0;
    assert open == DEMO_1.(windowOpen := true);
    assert [] + [0] == [0];
    assert CloseWindow(DEMO, open, true, true) == (DEMO_2, None);
  }

  lemma DemoLostCheckpoint()
    ensures Tick(DEMO, DEMO_2, DEMO_LOST).0 == DEMO_3
  {
    var open := OpenNext(DEMO, DEMO_2, true).0;
    assert open == DEMO_2.(clock := Some(SimClock(1, 86400, Running)), windowOpen := true, windowDate := 86400,
                             db := DEMO_2.db.(asOfDate := Some(86400)));
    assert CompletedSessions(DEMO, 2) == 2;
    var closed := CloseWindow(DEMO, open, true, false);
    assert [0] + [86400] == [0, 86400] && [] + [2] == [2];
    assert closed == (DEMO_3.(clock := Some(SimClock(1, 86400, Paused))), Some(PublishFailed));
  }

  lemma DemoRematch()
    ensures Tick(DEMO, DEMO_3, ALL_WELL).0.matched == [0, 86400, 86400]
  {
    var open := OpenNext(DEMO, DEMO_3, true).0;
    assert open.windowOpen && open.windowDate == 86400 && open.matched == [0, 86400];
    assert [0, 86400] + [86400] == [0, 86400, 86400];
  }

  lemma Reaches(actions: seq<Action>, a: Action, r: Registry, r': Registry)
    requires After(DEMO, actions) == r && Step(DEMO, r, a) == r'
    ensures After(DEMO, actions + [a]) == r'
  {
    assert (actions + [a])[..|actions|] == actions;
  }

  lemma DemoSteps(r4: Registry)
    requires r4 == Tick(DEMO, DEMO_3, ALL_WELL).0
    ensures Step(DEMO, NEW_REGISTRY, DoStart(true)) == DEMO_1 && Step(DEMO, DEMO_1, DoTick(ALL_WELL)) == DEMO_2
    ensures Step(DEMO, DEMO_2, DoTick(DEMO_LOST)) == DEMO_3 && Step(DEMO, DEMO_3, DoTick(ALL_WELL)) == r4
    ensures r4.matched == [0, 86400, 86400]
  {
    DemoFirstTick();
    DemoLostCheckpoint();
    DemoRematch();
  }

  /** In three trading days the second one is matched twice when its checkpoint event is lost. */
  lemma SessionMatchedTwice() returns (actions: seq<Action>)
    ensures ValidConfig(DEMO) && After(DEMO, actions).matched == [0, 86400, 86400]
  {
    DemoIsValid();
    var r4 := Tick(DEMO, DEMO_3, ALL_WELL).0;
    DemoSteps(r4);
    var none: seq<Action> := [];
    Reaches(none, DoStart(true), NEW_REGISTRY, DEMO_1);
    var one := none + [DoStart(true)];
    Reaches(one, DoTick(ALL_WELL), DEMO_1, DEMO_2);
    var two := one + [DoTick(ALL_WELL)];
    Reaches(two, DoTick(DEMO_LOST), DEMO_2, DEMO_3);
    var three := two + [DoTick(DEMO_LOST)];
    Reaches(three, DoTick(ALL_WELL), DEMO_3, r4);
    actions := three + [DoTick(ALL_WELL)];
  }
}
