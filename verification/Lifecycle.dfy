/** Which sessions get matched, over any interleaving of requests, failures and restarts. */
module Lifecycle {
  import opened Common
  import opened Calendar
  import opened Clock

  ghost predicate ValidConfig(cfg: Config) {
    && Ascending(cfg.schedule) && cfg.checkpointInterval >= 1
    && (!cfg.hourly ==> forall i :: 0 <= i < |cfg.schedule| ==> IsDate(cfg.schedule[i]))
  }

  // ----- Index searches invert persistence -----

  lemma {:induction false} DayIndexFound(cfg: Config, j: nat, i: nat)
    requires ValidConfig(cfg) && !cfg.hourly && i <= j < |cfg.schedule|
    ensures IndexOfTradingDay(cfg.schedule, cfg.schedule[j], i) == j
    decreases j - i
  {
    if i < j {
      DayIndexFound(cfg, j, i + 1);
    }
  }

  lemma {:induction false} BarIndexFound(cfg: Config, j: nat, i: nat, best: nat)
    requires ValidConfig(cfg) && i <= j < |cfg.schedule|
    ensures IndexOfBar(cfg.schedule, cfg.schedule[j], i, best) == j
    decreases j - i
  {
    if i < j {
      BarIndexFound(cfg, j, i + 1, if cfg.schedule[i] <= cfg.schedule[j] then i else best);
    }
  }

  /** What Start needs from the row: nothing persisted yet, or a position on the schedule. */
  ghost predicate PersistedAt(cfg: Config, db: Db, j: nat) {
    if cfg.hourly then
      (db.asOfTs == None && db.asOfDate == None && j == 0) || (j < |cfg.schedule| && db.asOfTs == Some(cfg.schedule[j]))
    else (db.asOfDate == None && j == 0) || (j < |cfg.schedule| && db.asOfDate == Some(cfg.schedule[j]))
  }

  /** A restart resumes at exactly the persisted session. */
  lemma StartInvertsPersistence(cfg: Config, db: Db, j: nat)
    requires ValidConfig(cfg) && PersistedAt(cfg, db, j)
    ensures StartIndex(cfg, db) == j
    ensures j < |cfg.schedule| ==> var date := cfg.schedule[j];
      PersistedAt(cfg, PersistAsOfTS(cfg, UpdateClock(cfg, db, date, Running), date), j)
  {
    if cfg.hourly && db.asOfTs.Some? {
      BarIndexFound(cfg, j, 0, 0);
    } else if !cfg.hourly && db.asOfDate.Some? {
      DayIndexFound(cfg, j, 0);
    }
  }

  // ----- Positions -----

  /** The clock stands at session k or at most `lag` before it, where sessions 0..k-1 are the ones reached. */
  predicate InStep(index: nat, k: nat, lag: nat) {
    index <= k <= index + lag
  }

  ghost predicate ClockAt(cfg: Config, r: Registry, c: SimClock, k: nat, lag: nat) {
    && c.index < |cfg.schedule| && c.date == cfg.schedule[c.index]
    && InStep(c.index, k, lag)
    && r.lastMatched == r.db.lastMatched && (cfg.hourly ==> r.db.asOfTs.Some?)
    && (c.status == Completed ==> k == |cfg.schedule|)
  }

  ghost predicate WindowAt(cfg: Config, r: Registry, k: nat, lag: nat) {
    r.windowOpen ==>
      && r.clock.Some? && r.clock.value.status == Running
      && r.windowDate == r.clock.value.date && r.clock.value.index <= k < r.clock.value.index + lag
      && PersistedAt(cfg, r.db, r.clock.value.index)
  }

  /**
   * Sessions 0..k-1 have been reached: lastMatched is session k-1, in memory and in the database, and the clock, its
   * persisted position and an open window all stand at k or at most `lag` sessions before it.
   */
  ghost predicate RegAt(cfg: Config, r: Registry, k: nat, lag: nat) {
    && ValidConfig(cfg) && 1 <= lag <= 2 && k <= |cfg.schedule|
    && r.db.lastMatched == (if k == 0 then None else Some(cfg.schedule[k - 1]))
    && (r.db.status == Completed ==> k == |cfg.schedule|)
    && (r.db.status != Completed ==> exists j: nat :: PersistedAt(cfg, r.db, j) && InStep(j, k, lag))
    && (r.clock.Some? ==> ClockAt(cfg, r, r.clock.value, k, lag) && r.db.status != Completed)
    && WindowAt(cfg, r, k, lag)
  }

  lemma PersistKeeps(cfg: Config, r: Registry, db: Db, c: SimClock, status: ClockStatus)
    requires ValidConfig(cfg) && c.index < |cfg.schedule| && c.date == cfg.schedule[c.index]
    ensures PersistedAt(cfg, PersistAsOfTS(cfg, UpdateClock(cfg, db, c.date, status), c.date), c.index)
  {
  }

  lemma AdvancesIffReached(cfg: Config, r: Registry, k: nat, lag: nat)
    requires RegAt(cfg, r, k, lag) && r.clock.Some?
    ensures var c := r.clock.value; Advances(cfg, r.lastMatched, c.date) <==> k > c.index
  {
    var c := r.clock.value;
    if 0 < k <= c.index {
      assert cfg.schedule[k - 1] < cfg.schedule[c.index];
    } else if k > c.index + 1 {
      assert cfg.schedule[c.index] < cfg.schedule[k - 1];
    }
  }

  lemma StartKeeps(cfg: Config, r: Registry, publishOk: bool, k: nat, lag: nat)
    requires RegAt(cfg, r, k, lag)
    ensures RegAt(cfg, Start(cfg, r, publishOk).0, k, lag)
  {
    var r' := Start(cfg, r, publishOk).0;
    if r.db.status != Completed && cfg.schedule != [] {
      if r.clock.Some? && r.clock.value.status == Paused {
        PersistKeeps(cfg, r, r.db, r.clock.value, Running);
        assert PersistedAt(cfg, r'.db, r.clock.value.index) && InStep(r.clock.value.index, k, lag);
      } else if r.clock.None? || r.clock.value.status == Completed {
        var j: nat :| PersistedAt(cfg, r.db, j) && InStep(j, k, lag);
        StartInvertsPersistence(cfg, r.db, j);
        assert PersistedAt(cfg, r'.db, j) && InStep(j, k, lag);
      }
    }
  }

  lemma PauseKeeps(cfg: Config, r: Registry, k: nat, lag: nat)
    requires RegAt(cfg, r, k, lag)
    ensures RegAt(cfg, Pause(cfg, r).0, k, lag)
  {
    if r.clock.Some? && r.clock.value.status != Completed {
      var r', c := Pause(cfg, r).0, r.clock.value;
      var j: nat :| PersistedAt(cfg, r.db, j) && InStep(j, k, lag);
      var j' := if cfg.hourly then j else c.index;
      assert PersistedAt(cfg, r'.db, j') && InStep(j', k, lag);
    }
  }

  lemma OpenNextKeeps(cfg: Config, r: Registry, publishOk: bool, k: nat, lag: nat)
    requires RegAt(cfg, r, k, lag) && !r.windowOpen
    ensures var (r', result) := OpenNext(cfg, r, publishOk);
      && RegAt(cfg, r', k, lag) && r'.matched == r.matched
      && (result == Opened ==> r'.windowOpen && r.clock.Some? && r.clock.value.status == Running)
  {
    if r.clock.Some? && r.clock.value.status == Running {
      var c, r' := r.clock.value, OpenNext(cfg, r, publishOk).0;
      AdvancesIffReached(cfg, r, k, lag);
      var j: nat :| PersistedAt(cfg, r.db, j) && InStep(j, k, lag);
      if !Advances(cfg, r.lastMatched, c.date) {
        PersistKeeps(cfg, r, r.db, c, Running);
        assert PersistedAt(cfg, r'.db, c.index) && InStep(c.index, k, lag);
      } else if c.index < |cfg.schedule| - 1 {
        var c' := SimClock(c.index + 1, cfg.schedule[c.index + 1], Running);
        PersistKeeps(cfg, r, r.db, c', Running);
        var j' := if publishOk then c'.index else j;
        assert PersistedAt(cfg, r'.db, j') && InStep(j', k, lag);
      }
    }
  }

  /** How far a committed match of the open window reaches. */
  function Reach(r: Registry, k: nat, matchOk: bool): nat {
    if r.windowOpen && matchOk && r.clock.Some? && r.clock.value.index == k then k + 1 else k
  }

  lemma CloseWindowKeeps(cfg: Config, r: Registry, matchOk: bool, publishOk: bool, k: nat, lag: nat)
    requires RegAt(cfg, r, k, lag)
    ensures var r' := CloseWindow(cfg, r, matchOk, publishOk).0;
      && RegAt(cfg, r', Reach(r, k, matchOk), lag) && !r'.windowOpen
      && r'.matched == (if r.windowOpen && matchOk then r.matched + [r.windowDate] else r.matched)
      && (r.windowOpen ==> r'.clock.Some? && r'.clock.value.index == r.clock.value.index)
  {
    if r.windowOpen {
      var i, r' := r.clock.value.index, CloseWindow(cfg, r, matchOk, publishOk).0;
      assert PersistedAt(cfg, r'.db, i) && InStep(i, Reach(r, k, matchOk), lag);
    }
  }

  lemma ProceedKeeps(cfg: Config, r: Registry, publishOk: bool, k: nat, lag: nat)
    requires RegAt(cfg, r, k, lag)
    ensures RegAt(cfg, Proceed(cfg, r, publishOk).0, k, lag)
  {
    if r.db.awaiting {
      var cleared := r.(db := r.db.(daysSince := 0, awaiting := false));
      if r.db.status != Completed {
        var j: nat :| PersistedAt(cfg, r.db, j) && InStep(j, k, lag);
        assert PersistedAt(cfg, cleared.db, j);
      }
      StartKeeps(cfg, cleared, publishOk, k, lag);
    }
  }

  lemma CrashKeeps(cfg: Config, r: Registry, k: nat, lag: nat)
    requires RegAt(cfg, r, k, lag)
    ensures RegAt(cfg, Crash(r), k, lag)
  {
    if r.db.status != Completed {
      var j: nat :| PersistedAt(cfg, r.db, j) && InStep(j, k, lag);
      assert PersistedAt(cfg, Crash(r).db, j);
    }
  }

  // ----- Ticks -----

  /** A checkpoint falls due once session i is matched. */
  predicate CheckpointDue(cfg: Config, db: Db, i: nat) {
    EndsSession(cfg, i) && db.daysSince + 1 >= cfg.checkpointInterval && i < |cfg.schedule| - 1
  }

  /**
   * A zero-length window, a tick that advances onto a session where a checkpoint falls due, and a checkpoint event
   * that cannot be published: Tick then restores a clock whose new session has already been matched.
   */
  predicate LostCheckpoint(cfg: Config, r: Registry, f: Outcomes) {
    var (r1, e1) := CloseWindow(cfg, r, f.firstMatch, f.firstPublish);
    && cfg.batch && e1.None? && f.tickPublish && f.secondMatch && !f.secondPublish
    && r1.clock.Some? && r1.clock.value.status == Running
    && Advances(cfg, r1.lastMatched, r1.clock.value.date)
    && CheckpointDue(cfg, r1.db, r1.clock.value.index + 1)
  }

  /** How far one tick reaches. */
  function TickReach(cfg: Config, r: Registry, f: Outcomes, k: nat): nat {
    var (r1, e1) := CloseWindow(cfg, r, f.firstMatch, f.firstPublish);
    var k1 := Reach(r, k, f.firstMatch);
    var (r2, result) := OpenNext(cfg, r1, f.tickPublish);
    if e1.Some? || result != Opened || !cfg.batch then k1 else Reach(r2, k1, f.secondMatch)
  }

  lemma RestoreKeeps(cfg: Config, r: Registry, c: SimClock, k: nat, lag: nat)
    requires RegAt(cfg, r, k, lag) && !r.windowOpen && r.clock.Some?
    requires c.index < |cfg.schedule| && c.date == cfg.schedule[c.index] && c.status == Running
    ensures RegAt(cfg, Restore(r, c), k, lag) <==> InStep(c.index, k, lag)
  {
    if r.db.status != Completed {
      var j: nat :| PersistedAt(cfg, r.db, j) && InStep(j, k, lag);
      assert PersistedAt(cfg, Restore(r, c).db, j);
    }
  }

  /** What the second, zero-length window of a tick leaves behind. */
  lemma SecondCloseKeeps(cfg: Config, r1: Registry, f: Outcomes, k1: nat, lag: nat)
    requires RegAt(cfg, r1, k1, lag) && !r1.windowOpen && OpenNext(cfg, r1, f.tickPublish).1 == Opened
    ensures var r2 := OpenNext(cfg, r1, f.tickPublish).0;
      var k2 := Reach(r2, k1, f.secondMatch);
      var (r3, e3) := CloseWindow(cfg, r2, f.secondMatch, f.secondPublish);
      && RegAt(cfg, r3, k2, lag) && r1.clock.Some?
      && (e3.Some? ==> (RegAt(cfg, Restore(r3, r1.clock.value), k2, lag) <==> InStep(r1.clock.value.index, k2, lag)))
  {
    var r2 := OpenNext(cfg, r1, f.tickPublish).0;
    OpenNextKeeps(cfg, r1, f.tickPublish, k1, lag);
    CloseWindowKeeps(cfg, r2, f.secondMatch, f.secondPublish, k1, lag);
    var (r3, e3) := CloseWindow(cfg, r2, f.secondMatch, f.secondPublish);
    if e3.Some? {
      RestoreKeeps(cfg, r3, r1.clock.value, Reach(r2, k1, f.secondMatch), lag);
    }
  }

  /** Closing a window leaves none open, and opening the next one advances the clock exactly when it is behind. */
  lemma AtRest(cfg: Config, r: Registry, f: Outcomes, k: nat, lag: nat)
    requires RegAt(cfg, r, k, lag)
    ensures var r1 := CloseWindow(cfg, r, f.firstMatch, f.firstPublish).0;
      var (r2, result) := OpenNext(cfg, r1, f.tickPublish);
      var k1 := Reach(r, k, f.firstMatch);
      && RegAt(cfg, r1, k1, lag) && !r1.windowOpen && RegAt(cfg, r2, k1, lag)
      && (result == Opened ==>
           && r2.clock.Some? && r1.clock.Some? && r2.db.daysSince == r1.db.daysSince
           && r2.windowOpen && r2.clock.value.status == Running && r1.clock.value.status == Running
           && r2.clock.value.index == r1.clock.value.index + (if k1 > r1.clock.value.index then 1 else 0)
           && (k1 > r1.clock.value.index ==> f.tickPublish)
           && (Advances(cfg, r1.lastMatched, r1.clock.value.date) <==> k1 > r1.clock.value.index))
  {
    CloseWindowKeeps(cfg, r, f.firstMatch, f.firstPublish, k, lag);
    var r1, k1 := CloseWindow(cfg, r, f.firstMatch, f.firstPublish).0, Reach(r, k, f.firstMatch);
    OpenNextKeeps(cfg, r1, f.tickPublish, k1, lag);
    if r1.clock.Some? {
      AdvancesIffReached(cfg, r1, k1, lag);
    }
  }

  /** In a zero-length window, the restored clock is two sessions behind exactly when a checkpoint was lost. */
  lemma LostIffTwoBehind(cfg: Config, r: Registry, f: Outcomes, k: nat)
    requires RegAt(cfg, r, k, 1) && cfg.batch
    requires CloseWindow(cfg, r, f.firstMatch, f.firstPublish).1.None?
    requires var r1 := CloseWindow(cfg, r, f.firstMatch, f.firstPublish).0; OpenNext(cfg, r1, f.tickPublish).1 == Opened
    ensures var r1 := CloseWindow(cfg, r, f.firstMatch, f.firstPublish).0;
      var r2 := OpenNext(cfg, r1, f.tickPublish).0;
      var k2 := Reach(r2, Reach(r, k, f.firstMatch), f.secondMatch);
      && r1.clock.Some?
      && (LostCheckpoint(cfg, r, f) <==>
            CloseWindow(cfg, r2, f.secondMatch, f.secondPublish).1.Some? && !InStep(r1.clock.value.index, k2, 1))
  {
    AtRest(cfg, r, f, k, 1);
  }

  lemma TickKeeps(cfg: Config, r: Registry, f: Outcomes, k: nat, lag: nat)
    requires RegAt(cfg, r, k, lag)
    ensures RegAt(cfg, Tick(cfg, r, f).0, TickReach(cfg, r, f, k), lag) <==> (lag == 2 || !LostCheckpoint(cfg, r, f))
  {
    AtRest(cfg, r, f, k, lag);
    var t := Tick(cfg, r, f).0;
    var (r1, e1) := CloseWindow(cfg, r, f.firstMatch, f.firstPublish);
    var (r2, result) := OpenNext(cfg, r1, f.tickPublish);
    if e1.Some? {
      assert t == r1;
    } else if result != Opened || !cfg.batch {
      assert t == r2;
      assert !LostCheckpoint(cfg, r, f);
    } else {
      SecondCloseKeeps(cfg, r1, f, Reach(r, k, f.firstMatch), lag);
      if lag == 1 {
        LostIffTwoBehind(cfg, r, f, k);
      } else {
        TwoBehindAtMost(cfg, r, f, k);
      }
      var (r3, e3) := CloseWindow(cfg, r2, f.secondMatch, f.secondPublish);
      assert t == if e3.Some? then Restore(r3, r1.clock.value) else r3;
    }
  }

  lemma TwoBehindAtMost(cfg: Config, r: Registry, f: Outcomes, k: nat)
    requires RegAt(cfg, r, k, 2)
    requires CloseWindow(cfg, r, f.firstMatch, f.firstPublish).1.None?
    requires var r1 := CloseWindow(cfg, r, f.firstMatch, f.firstPublish).0; OpenNext(cfg, r1, f.tickPublish).1 == Opened
    ensures var r1 := CloseWindow(cfg, r, f.firstMatch, f.firstPublish).0;
      var r2 := OpenNext(cfg, r1, f.tickPublish).0;
      r1.clock.Some? && InStep(r1.clock.value.index, Reach(r2, Reach(r, k, f.firstMatch), f.secondMatch), 2)
  {
    AtRest(cfg, r, f, k, 2);
  }
}
