/** Saving a broker and restoring it (aimos/execution/broker/paper.py). */
module BrokerSnapshot {
  import opened Schemas
  import opened Broker

  datatype Snapshot = Snapshot(
    cash: real,
    realized: real,
    positions: seq<Position>,
    pending: seq<TradePlan>,
    fills: seq<Fill>,
    closedR: seq<real>,
    outcomes: seq<Outcome>,
    excursions: map<string, Excursion>,
    lastMark: map<string, real>)

  /** Only the plans of the orders are saved. */
  function Plans(pending: seq<Pending>): seq<TradePlan> {
    if pending == [] then [] else Plans(pending[..|pending| - 1]) + [pending[|pending| - 1].plan]
  }

  function Orders(plans: seq<TradePlan>): seq<Pending> {
    if plans == [] then []
    else
      var plan := plans[|plans| - 1];
      Orders(plans[..|plans| - 1]) + [Pending(plan, LimitPlugin(plan.plugin))]
  }

  /** The positions of a list by their own symbol; of several, the last. */
  function BySymbol(positions: seq<Position>): map<string, Position> {
    if positions == [] then map[]
    else
      var n := |positions| - 1;
      BySymbol(positions[..n])[positions[n].symbol := positions[n]]
  }

  /** snap may be what saving s produced: the positions are listed in any order. */
  ghost predicate Saves(s: State, snap: Snapshot) {
    && snap == Snapshot(s.cash, s.realized, snap.positions, Plans(s.pending), s.fills, s.closedR, s.outcomes,
                        s.excursions, s.lastMark)
    && (forall p :: p in snap.positions ==> exists k :: k in s.positions && s.positions[k] == p)
    && (forall k :: k in s.positions ==> s.positions[k] in snap.positions)
  }

  function Load(snap: Snapshot): State {
    State(snap.cash, snap.realized, Orders(snap.pending), BySymbol(snap.positions), snap.fills, snap.closedR,
          snap.outcomes, snap.excursions, snap.lastMark)
  }

  // --------------------------------------------------------------------------
  // What a run keeps, and a snapshot relies on
  // --------------------------------------------------------------------------

  /** Positions are keyed by their own symbol, and an order rests at a limit exactly if its
      plugin's orders do. */
  ghost predicate Restorable(s: State) {
    && (forall k :: k in s.positions ==> s.positions[k].symbol == k)
    && (forall p :: p in s.pending ==> p.isLimit == LimitPlugin(p.plan.plugin))
  }

  lemma {:induction false} OpenAllRestorable(cfg: Config, s: State, pending: seq<Pending>, symbol: string, bar: Bar,
                                             now: Instant)
    requires Restorable(s) && PositiveBar(bar)
    ensures Restorable(OpenAll(cfg, s, pending, symbol, bar, now))
    ensures OpenAll(cfg, s, pending, symbol, bar, now).pending == s.pending
    decreases |pending|
  {
    if pending != [] {
      OpenAllRestorable(cfg, s, pending[..|pending| - 1], symbol, bar, now);
    }
  }

  lemma DoRestorable(cfg: Config, s: State, op: Op)
    requires Restorable(s) && Allowed(op)
    ensures Restorable(Do(cfg, s, op))
  {
    match op
    case CancelOp(symbol) =>
      forall p | p in WithoutSymbol(s.pending, symbol)
        ensures p in s.pending
      {
        WithoutSymbolMembers(s.pending, symbol, p);
      }
    case StepOp(symbol, bar, now) =>
      OpenAllRestorable(cfg, s.(lastMark := s.lastMark[symbol := bar.close]), s.pending, symbol, bar, now);
      forall p | p in Staying(s.pending, symbol, bar)
        ensures p in s.pending
      {
        StayingMembers(s.pending, symbol, bar, p);
      }
    case PlaceOp(plan) =>
    case FundingOp(symbol, rateBps, minutes) =>
    case DrainOp =>
  }

  lemma {:induction false} RunRestorable(cfg: Config, s: State, ops: seq<Op>)
    requires Restorable(s) && AllAllowed(ops)
    ensures Restorable(Run(cfg, s, ops))
  {
    if ops != [] {
      var n := |ops| - 1;
      RunRestorable(cfg, s, ops[..n]);
      DoRestorable(cfg, Run(cfg, s, ops[..n]), ops[n]);
    }
  }

  // --------------------------------------------------------------------------
  // The round trip
  // --------------------------------------------------------------------------

  lemma {:induction false} OrdersNext(plans: seq<TradePlan>, plan: TradePlan)
    ensures Orders(plans + [plan]) == Orders(plans) + [Pending(plan, LimitPlugin(plan.plugin))]
  {
    assert (plans + [plan])[..|plans|] == plans;
  }

  lemma {:induction false} OrdersOfPlans(pending: seq<Pending>)
    requires forall p :: p in pending ==> p.isLimit == LimitPlugin(p.plan.plugin)
    ensures Orders(Plans(pending)) == pending
  {
    if pending != [] {
      var n := |pending| - 1;
      assert pending[n] in pending;
      OrdersOfPlans(pending[..n]);
      var plans := Plans(pending[..n]);
      assert Plans(pending) == plans + [pending[n].plan];
      OrdersNext(plans, pending[n].plan);
      assert pending == pending[..n] + [pending[n]];
    }
  }

  lemma {:induction false} BySymbolMembers(positions: seq<Position>, k: string)
    ensures k in BySymbol(positions) ==> BySymbol(positions)[k] in positions && BySymbol(positions)[k].symbol == k
    ensures forall p :: p in positions && p.symbol == k ==> k in BySymbol(positions)
  {
    if positions != [] {
      var n := |positions| - 1;
      BySymbolMembers(positions[..n], k);
      assert positions == positions[..n] + [positions[n]];
    }
  }

  lemma SavedPositions(s: State, positions: seq<Position>)
    requires Restorable(s)
    requires forall p :: p in positions ==> exists k :: k in s.positions && s.positions[k] == p
    requires forall k :: k in s.positions ==> s.positions[k] in positions
    ensures BySymbol(positions) == s.positions
  {
    forall k
      ensures k in BySymbol(positions) <==> k in s.positions
      ensures k in s.positions ==> BySymbol(positions)[k] == s.positions[k]
    {
      BySymbolMembers(positions, k);
    }
  }

  /** Whatever the run, a snapshot restores exactly the state it was taken of; so whatever is
      done next has the same effect. */
  lemma SnapshotRoundTrip(cfg: Config, startingEquity: real, ops: seq<Op>, snap: Snapshot, later: seq<Op>)
    requires AllAllowed(ops) && AllAllowed(later)
    requires Saves(Run(cfg, Fresh(startingEquity), ops), snap)
    ensures Load(snap) == Run(cfg, Fresh(startingEquity), ops)
    ensures Run(cfg, Load(snap), later) == Run(cfg, Fresh(startingEquity), ops + later)
  {
    var s := Run(cfg, Fresh(startingEquity), ops);
    RunRestorable(cfg, Fresh(startingEquity), ops);
    OrdersOfPlans(s.pending);
    SavedPositions(s, snap.positions);
    RunConcat(cfg, Fresh(startingEquity), ops, later);
  }

  lemma {:induction false} RunConcat(cfg: Config, s: State, a: seq<Op>, b: seq<Op>)
    requires AllAllowed(a) && AllAllowed(b)
    ensures Run(cfg, s, a + b) == Run(cfg, Run(cfg, s, a), b)
  {
    if b == [] {
      assert a + b == a;
    } else {
      var n := |b| - 1;
      assert (a + b)[..|a + b| - 1] == a + b[..n];
      RunConcat(cfg, s, a, b[..n]);
    }
  }
}
