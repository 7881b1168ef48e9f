/** Agents do not affect one another: a session commutes with looking at one agent alone. */
module Independence {
  import opened Common
  import opened Market
  import opened Ledger
  import opened Tape
  import opened Matching
  import opened Runs

  /** The order table with only a's rows, in the same order. */
  ghost function Mine(orders: seq<Order>, a: AgentId): seq<Order> {
    if orders == [] then [] else
      var n := |orders| - 1;
      Mine(orders[..n], a) + (if orders[n].agent == a then [orders[n]] else [])
  }

  /** The simulation in which a is the only agent. */
  ghost function Alone(w: World, a: AgentId): World {
    World(Mine(w.orders, a), map b | b in w.accounts && b == a :: w.accounts[b])
  }

  /** The rank of row i among a's rows. */
  ghost function Rank(orders: seq<Order>, a: AgentId, i: nat): nat
    requires i <= |orders|
  {
    |Mine(orders[..i], a)|
  }

  lemma {:induction false} MineAt(orders: seq<Order>, a: AgentId, i: nat)
    requires i < |orders|
    ensures var k := Rank(orders, a, i);
      && k <= |Mine(orders, a)|
      && Rank(orders, a, i + 1) == (if orders[i].agent == a then k + 1 else k)
      && (orders[i].agent == a ==> k < |Mine(orders, a)| && Mine(orders, a)[k] == orders[i])
  {
    var n := |orders| - 1;
    assert orders[..i + 1][..i] == orders[..i];
    if i < n {
      MineAt(orders[..n], a, i);
      assert orders[..n][..i] == orders[..i] && orders[..n][..i + 1] == orders[..i + 1];
    } else {
      assert orders[..n + 1] == orders;
    }
  }

  lemma {:induction false} MineUpdate(orders: seq<Order>, a: AgentId, i: nat, o: Order)
    requires i < |orders| && o.agent == orders[i].agent
    ensures Mine(orders[i := o], a) ==
      if o.agent == a then (MineAt(orders, a, i); Mine(orders, a)[Rank(orders, a, i) := o]) else Mine(orders, a)
  {
    var n := |orders| - 1;
    MineAt(orders, a, i);
    if i == n {
      assert orders[i := o][..n] == orders[..n];
    } else {
      assert orders[i := o][..n] == orders[..n][i := o];
      assert orders[..n][..i] == orders[..i];
      MineUpdate(orders[..n], a, i, o);
      MineAt(orders[..n], a, i);
    }
  }

  lemma {:induction false} RecordedBuysAreMine(orders: seq<Order>, a: AgentId, s: Symbol, day: Time)
    ensures FilledBuyQtyOnSession(Mine(orders, a), a, s, day) == FilledBuyQtyOnSession(orders, a, s, day)
  {
    if orders != [] {
      var n := |orders| - 1;
      RecordedBuysAreMine(orders[..n], a, s, day);
      if orders[n].agent == a {
        SumAppend(Mine(orders[..n], a), orders[n], RecordedBuy(a, s, day), (o: Order) => 0.0);
      } else {
        assert Mine(orders, a) == Mine(orders[..n], a);
      }
    }
  }

  lemma AttemptIsLocal(w: World, v: View, o: Order)
    ensures TryFill(Alone(w, o.agent), v, o) == TryFill(w, v, o)
  {
    RecordedBuysAreMine(w.orders, o.agent, o.symbol, v.day);
  }

  lemma AttemptKeepsAgent(w: World, v: View, o: Order)
    ensures TryFill(w, v, o).Traded? ==> TryFill(w, v, o).order.agent == o.agent && o.agent in w.accounts
  {
  }

  /** Matching one order is the same step in the agent's own simulation, and no step in anyone else's. */
  lemma StepCommutes(w: World, v: View, i: nat, a: AgentId)
    requires i < |w.orders|
    ensures var k := Rank(w.orders, a, i);
      && (w.orders[i].agent == a ==>
            k < |Alone(w, a).orders| && Alone(MatchStep(w, v, i), a) == MatchStep(Alone(w, a), v, k))
      && (w.orders[i].agent != a ==> Alone(MatchStep(w, v, i), a) == Alone(w, a))
  {
    var o := w.orders[i];
    var w' := MatchStep(w, v, i);
    MineAt(w.orders, a, i);
    if Due(v, o) {
      AttemptIsLocal(w, v, o);
      AttemptKeepsAgent(w, v, o);
      MineUpdate(w.orders, a, i, w'.orders[i]);
      assert w'.orders == w.orders[i := w'.orders[i]];
    }
  }

  lemma RankUnchanged(w: World, v: View, i: nat, a: AgentId)
    requires i < |w.orders|
    ensures Rank(MatchStep(w, v, i).orders, a, i + 1)
      == Rank(w.orders, a, i) + if w.orders[i].agent == a then 1 else 0
  {
    var w' := MatchStep(w, v, i);
    AttemptKeepsAgent(w, v, w.orders[i]);
    MineAt(w'.orders, a, i);
    assert w'.orders[..i] == w.orders[..i];
  }

  lemma {:induction false} MatchingCommutes(w: World, v: View, i: nat, a: AgentId)
    requires i <= |w.orders|
    ensures Rank(w.orders, a, i) <= |Alone(w, a).orders|
    ensures Alone(MatchFrom(w, v, i), a) == MatchFrom(Alone(w, a), v, Rank(w.orders, a, i))
    decreases |w.orders| - i
  {
    if i == |w.orders| {
      assert w.orders[..i] == w.orders;
    } else {
      var w' := MatchStep(w, v, i);
      MatchingCommutes(w', v, i + 1, a);
      RankUnchanged(w, v, i, a);
      StepCommutes(w, v, i, a);
      MineAt(w.orders, a, i);
    }
  }

  lemma ClosingCommutes(w: World, v: View, a: AgentId)
    requires CloseAccounts(w, v).Some?
    ensures CloseAccounts(Alone(w, a), v) == Some(Alone(CloseAccounts(w, v).value, a))
  {
    var closed := CloseAccounts(w, v).value;
    assert Alone(closed, a).accounts == CloseAccounts(Alone(w, a), v).value.accounts;
  }

  /**
   * Agent independence.  If a session's transaction succeeds, an agent's cash, holdings, order rows and snapshots
   * are exactly those of running the session with only that agent's orders.
   */
  lemma AgentIndependence(w: World, v: View, a: AgentId)
    requires ProcessSession(w, v).Some?
    ensures ProcessSession(Alone(w, a), v) == Some(Alone(ProcessSession(w, v).value, a))
  {
    MatchingCommutes(w, v, 0, a);
    assert w.orders[..0] == [];
    if v.ClosesSession() {
      ClosingCommutes(MatchFrom(w, v, 0), v, a);
    }
  }

  /** Agents do share the fate of the transaction: it fails exactly when some agent's own session would. */
  lemma FailureIsShared(w: World, v: View)
    ensures ProcessSession(w, v).None? <==> exists a :: a in w.accounts && ProcessSession(Alone(w, a), v).None?
  {
    var m := MatchFrom(w, v, 0);
    forall a
      ensures Alone(m, a) == MatchFrom(Alone(w, a), v, 0)
    {
      MatchingCommutes(w, v, 0, a);
      assert w.orders[..0] == [];
    }
    if ProcessSession(w, v).None? {
      var a :| a in m.accounts && !Markable(m.accounts[a], v);
      assert a in Alone(m, a).accounts && !Markable(Alone(m, a).accounts[a], v);
      assert a in w.accounts && ProcessSession(Alone(w, a), v).None?;
    } else if exists a :: a in w.accounts && ProcessSession(Alone(w, a), v).None? {
      var a :| a in w.accounts && ProcessSession(Alone(w, a), v).None?;
      AgentIndependence(w, v, a);
      assert false;
    }
  }

  // ----- Runs -----

  /**
   * What an event means to a alone: its own requests, every silence, and the sessions that committed.  Cancellations
   * name the order by its rank among a's own.
   */
  ghost function MyEvent(m: Setup, w: World, e: Event, a: AgentId): seq<Event> {
    match e
    case Join(b, _) => if b == a then [e] else []
    case Place(o) => if o.agent == a then [e] else []
    case Cancel(i) => if i < |w.orders| && w.orders[i].agent == a then [Cancel(Rank(w.orders, a, i))] else []
    case RecordMissedTicks(_, _) => [e]
    case Match(key) => if ProcessSession(w, ViewAt(m, key)).Some? then [e] else []
  }

  ghost function MyEvents(m: Setup, w: World, events: seq<Event>, a: AgentId): seq<Event> {
    if events == [] then [] else
      var prior := events[..|events| - 1];
      MyEvents(m, w, prior, a) + MyEvent(m, Run(m, w, prior), events[|events| - 1], a)
  }

  lemma MineAppend(orders: seq<Order>, o: Order, a: AgentId)
    ensures Mine(orders + [o], a) == Mine(orders, a) + if o.agent == a then [o] else []
  {
    assert (orders + [o])[..|orders|] == orders;
  }

  lemma CancelCommutes(m: Setup, w: World, i: nat, a: AgentId)
    requires i < |w.orders|
    ensures var k := Rank(w.orders, a, i);
      Alone(Apply(m, w, Cancel(i)), a) ==
        if w.orders[i].agent == a then Apply(m, Alone(w, a), Cancel(k)) else Alone(w, a)
  {
    MineAt(w.orders, a, i);
    MineUpdate(w.orders, a, i, CancelPending(w.orders[i]));
  }

  lemma RunAppends(m: Setup, w: World, events: seq<Event>, more: seq<Event>)
    requires |more| <= 1
    ensures Run(m, w, events + more) == if more == [] then Run(m, w, events) else Apply(m, Run(m, w, events), more[0])
  {
    if more == [] {
      assert events + more == events;
    } else {
      assert (events + more)[..|events|] == events;
    }
  }

  lemma MissedTicksCommute(w: World, calls: map<AgentId, nat>, limit: int, a: AgentId)
    ensures Alone(RecordMissed(w, calls, limit), a) == RecordMissed(Alone(w, a), calls, limit)
  {
    assert Alone(RecordMissed(w, calls, limit), a).accounts == RecordMissed(Alone(w, a), calls, limit).accounts;
  }

  lemma JoinCommutes(m: Setup, w: World, b: AgentId, startDate: Time, a: AgentId)
    ensures Alone(Apply(m, w, Join(b, startDate)), a) ==
      if b == a then Apply(m, Alone(w, a), Join(b, startDate)) else Alone(w, a)
  {
    if b !in w.accounts {
      var joined := Alone(Apply(m, w, Join(b, startDate)), a).accounts;
      assert joined == if b == a then Alone(w, a).accounts[a := OpenAccount(startDate)] else Alone(w, a).accounts;
    }
  }

  lemma PlaceCommutes(m: Setup, w: World, o: Order, a: AgentId)
    ensures Alone(Apply(m, w, Place(o)), a) == if o.agent == a then Apply(m, Alone(w, a), Place(o)) else Alone(w, a)
  {
    MineAppend(w.orders, o, a);
    assert o.agent != a ==> Mine(w.orders + [o], a) == Mine(w.orders, a);
  }

  lemma EventCommutes(m: Setup, w: World, e: Event, a: AgentId)
    ensures |MyEvent(m, w, e, a)| <= 1
    ensures Alone(Apply(m, w, e), a) ==
      if MyEvent(m, w, e, a) == [] then Alone(w, a) else Apply(m, Alone(w, a), MyEvent(m, w, e, a)[0])
  {
    match e
    case Join(b, startDate) => JoinCommutes(m, w, b, startDate, a);
    case Place(o) => PlaceCommutes(m, w, o, a);
    case Cancel(i) =>
      if i < |w.orders| {
        CancelCommutes(m, w, i, a);
      }
    case RecordMissedTicks(calls, limit) => MissedTicksCommute(w, calls, limit, a);
    case Match(key) =>
      if ProcessSession(w, ViewAt(m, key)).Some? {
        AgentIndependence(w, ViewAt(m, key), a);
      }
  }

  /**
   * Over any run of registrations, orders, cancellations, silences, failures and matches, an agent's rows and account
   * are those of the run in which it is alone and the other agents' requests never happened.
   */
  lemma {:induction false} RunsAreIndependent(m: Setup, w: World, events: seq<Event>, a: AgentId)
    ensures Run(m, Alone(w, a), MyEvents(m, w, events, a)) == Alone(Run(m, w, events), a)
  {
    if events != [] {
      var n := |events| - 1;
      var before, mine := Run(m, w, events[..n]), MyEvents(m, w, events[..n], a);
      RunsAreIndependent(m, w, events[..n], a);
      EventCommutes(m, before, events[n], a);
      var more := MyEvent(m, before, events[n], a);
      RunAppends(m, Alone(w, a), mine, more);
      assert MyEvents(m, w, events, a) == mine + more && Run(m, w, events) == Apply(m, before, events[n]);
    }
  }
}
