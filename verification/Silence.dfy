/** When silence disqualifies: the missed-tick counter and the windows it stands for. */
module Silence {
  import opened Common
  import opened Ledger
  import opened Market
  import opened Tape
  import opened Matching
  import opened Books
  import opened Runs
  import opened Clock
  import opened Simulation
  import Audit

  /** The windows closed since the agent registered: true where it made no counted call. */
  ghost function Windows(m: Setup, events: seq<Event>, a: AgentId): seq<bool> {
    if events == [] then [] else
      var prior, e := events[..|events| - 1], events[|events| - 1];
      if e.RecordMissedTicks? && a in Run(m, EMPTY_WORLD, prior).accounts
      then Windows(m, prior, a) + [a !in e.calls || e.calls[a] == 0]
      else Windows(m, prior, a)
  }

  /** The agent was silent in this many windows in a row, starting with window k. */
  predicate SilentFrom(windows: seq<bool>, k: nat, length: nat) {
    k + length <= |windows| && forall j :: k <= j < k + length ==> windows[j]
  }

  predicate EverSilent(windows: seq<bool>, length: nat) {
    exists k :: 0 <= k <= |windows| && SilentFrom(windows, k, length)
  }

  /** The last n windows were silent, and the one before them was not. */
  predicate SilentFor(windows: seq<bool>, n: nat) {
    n <= |windows| && SilentFrom(windows, |windows| - n, n) && (n < |windows| ==> !windows[|windows| - n - 1])
  }

  /** What the account says of the agent's windows. */
  ghost predicate Standing(acc: Account, windows: seq<bool>, limit: nat) {
    if acc.disqualified then acc.missedTicks == limit && EverSilent(windows, limit)
    else acc.missedTicks < limit && SilentFor(windows, acc.missedTicks) && !EverSilent(windows, limit)
  }

  lemma Shorter(windows: seq<bool>, last: bool, k: nat, length: nat)
    requires SilentFrom(windows + [last], k, length) && k + length <= |windows|
    ensures SilentFrom(windows, k, length)
  {
    forall j | k <= j < k + length
      ensures windows[j]
    {
      assert (windows + [last])[j] == windows[j];
    }
  }

  /** One more silent window: the streak grows, and reaches the limit or not. */
  lemma OneMoreSilence(windows: seq<bool>, n: nat, limit: nat)
    requires SilentFor(windows, n) && n < limit && !EverSilent(windows, limit)
    ensures SilentFor(windows + [true], n + 1)
    ensures EverSilent(windows + [true], limit) <==> n + 1 == limit
  {
    var longer := windows + [true];
    assert SilentFrom(longer, |longer| - (n + 1), n + 1);
    if n + 1 == limit {
      assert SilentFrom(longer, |longer| - limit, limit);
    } else if EverSilent(longer, limit) {
      var k :| 0 <= k <= |longer| && SilentFrom(longer, k, limit);
      assert n < |windows| ==> !longer[|windows| - n - 1];
      assert k + limit <= |windows|;
      Shorter(windows, true, k, limit);
    }
  }

  /** A window with a call ends the streak. */
  lemma ACallEndsIt(windows: seq<bool>, limit: nat)
    requires limit >= 1 && !EverSilent(windows, limit)
    ensures SilentFor(windows + [false], 0) && !EverSilent(windows + [false], limit)
  {
    var longer := windows + [false];
    if EverSilent(longer, limit) {
      var k :| 0 <= k <= |longer| && SilentFrom(longer, k, limit);
      assert !longer[|windows|];
      Shorter(windows, false, k, limit);
    }
  }

  lemma SilenceStays(windows: seq<bool>, last: bool, limit: nat)
    requires EverSilent(windows, limit)
    ensures EverSilent(windows + [last], limit)
  {
    var k :| 0 <= k <= |windows| && SilentFrom(windows, k, limit);
    assert SilentFrom(windows + [last], k, limit);
  }

  lemma TickStands(acc: Account, calls: map<AgentId, nat>, a: AgentId, windows: seq<bool>, limit: nat)
    requires limit >= 1 && Standing(acc, windows, limit)
    ensures Standing(RecordMissedTick(acc, CountOf(calls, a), limit), windows + [a !in calls || calls[a] == 0], limit)
  {
    if acc.disqualified {
      SilenceStays(windows, a !in calls || calls[a] == 0, limit);
    } else if a in calls && calls[a] > 0 {
      ACallEndsIt(windows, limit);
    } else {
      OneMoreSilence(windows, acc.missedTicks, limit);
    }
  }

  lemma MatchKeepsStanding(m: Setup, w: World, key: Time, a: AgentId)
    requires WellFormed(m.history) && WorldInv(w, m.hourly) && a in w.accounts
    ensures var acc, acc' := w.accounts[a], Apply(m, w, Match(key)).accounts[a];
      acc'.disqualified == acc.disqualified && acc'.missedTicks == acc.missedTicks
  {
    ViewsAreSound(m, key);
    if ProcessSession(w, ViewAt(m, key)).Some? {
      SessionKeepsStanding(w, ViewAt(m, key), a);
    }
  }

  lemma SessionKeepsStanding(w: World, v: View, a: AgentId)
    requires WorldInv(w, v.hourly) && v.Sound() && ProcessSession(w, v).Some? && a in w.accounts
    ensures var w' := ProcessSession(w, v).value;
      && a in w'.accounts && w'.accounts[a].disqualified == w.accounts[a].disqualified
      && w'.accounts[a].missedTicks == w.accounts[a].missedTicks
  {
    Audit.MatchingNeverDisqualifies(w, v, a);
    MatchingKeepsStanding(w, v, 0, a);
    if v.ClosesSession() {
      ClosingKeepsCount(MatchFrom(w, v, 0), v, a);
    }
  }

  lemma ClosingKeepsCount(w: World, v: View, a: AgentId)
    requires a in w.accounts && CloseAccounts(w, v).Some?
    ensures a in CloseAccounts(w, v).value.accounts
    ensures CloseAccounts(w, v).value.accounts[a].missedTicks == w.accounts[a].missedTicks
  {
    assert CloseAccounts(w, v).value.accounts[a] == CloseAccount(w.accounts[a], v);
  }

  lemma EventStands(m: Setup, w: World, e: Event, a: AgentId, windows: seq<bool>, limit: nat)
    requires WellFormed(m.history) && WorldInv(w, m.hourly) && limit >= 1
    requires e.RecordMissedTicks? ==> e.limit == limit
    requires if a in w.accounts then Standing(w.accounts[a], windows, limit) else windows == []
    ensures var windows' :=
        if e.RecordMissedTicks? && a in w.accounts then windows + [a !in e.calls || e.calls[a] == 0] else windows;
      var w' := Apply(m, w, e);
      if a in w'.accounts then Standing(w'.accounts[a], windows', limit) else windows' == []
  {
    match e
    case RecordMissedTicks(calls, _) =>
      if a in w.accounts {
        TickStands(w.accounts[a], calls, a, windows, limit);
      }
    case Match(key) =>
      if a in w.accounts {
        MatchKeepsStanding(m, w, key, a);
      }
    case _ =>
  }

  ghost predicate Limited(events: seq<Event>, limit: nat) {
    forall i :: 0 <= i < |events| && events[i].RecordMissedTicks? ==> events[i].limit == limit
  }

  /**
   * On every run an active agent's counter is the number of windows closed since its last counted call, and it is
   * disqualified exactly if it was ever silent in as many windows in a row as the limit says.
   */
  lemma {:induction false} SilenceDisqualifies(m: Setup, events: seq<Event>, a: AgentId, limit: nat)
    requires WellFormed(m.history) && limit >= 1 && Limited(events, limit)
    ensures var w, windows := Run(m, EMPTY_WORLD, events), Windows(m, events, a);
      if a in w.accounts then Standing(w.accounts[a], windows, limit) else windows == []
  {
    if events != [] {
      var n := |events| - 1;
      BooksBalance(m, events[..n]);
      SilenceDisqualifies(m, events[..n], a, limit);
      EventStands(m, Run(m, EMPTY_WORLD, events[..n]), events[n], a, Windows(m, events[..n], a), limit);
    }
  }

  // ----- In the whole simulation -----

  lemma CloseLimited(m: Plant, s: Sim, dbOk: bool)
    requires m.missedLimit >= 1
    ensures Limited(CloseEvents(m, s, dbOk), m.missedLimit)
  {
  }

  lemma StepLimited(m: Plant, s: Sim, act: SimAction)
    requires m.missedLimit >= 1
    ensures Limited(StepEvents(m, s, act), m.missedLimit)
  {
    match act
    case TickNow(f) =>
      var s1 := CloseSim(m, s, f.firstMatch, f.firstPublish);
      CloseLimited(m, s, f.firstMatch);
      CloseLimited(m, Sim(OpenNext(m.Cfg(), s1.reg, f.tickPublish).0, s1.world, map[], map[]), f.secondMatch);
    case CloseNow(dbOk, _) => CloseLimited(m, s, dbOk);
    case _ =>
  }

  lemma {:induction false} RunLimited(m: Plant, actions: seq<SimAction>)
    requires m.missedLimit >= 1
    ensures Limited(EventsOf(m, actions), m.missedLimit)
  {
    if actions != [] {
      var n := |actions| - 1;
      RunLimited(m, actions[..n]);
      StepLimited(m, SimAfter(m, actions[..n]), actions[n]);
    }
  }

  /** Over every run of the simulation: disqualified exactly at the limit, and exactly by that many silent windows. */
  lemma SilenceInSimulation(m: Plant, actions: seq<SimAction>, a: AgentId)
    requires m.Valid() && m.missedLimit >= 1 && a in SimAfter(m, actions).world.accounts
    ensures var acc, windows := SimAfter(m, actions).world.accounts[a], Windows(m.Market(), EventsOf(m, actions), a);
      && (acc.disqualified <==> acc.missedTicks >= m.missedLimit)
      && (acc.disqualified <==> EverSilent(windows, m.missedLimit))
      && (!acc.disqualified ==> SilentFor(windows, acc.missedTicks))
  {
    WorldIsRun(m, actions);
    RunLimited(m, actions);
    SilenceDisqualifies(m.Market(), EventsOf(m, actions), a, m.missedLimit);
  }
}
