/** Positions of several symbols that share a decision id (aimos/execution/broker/paper.py). They share
    one excursion; this says exactly when that can push the MFE of one beyond its target. */
module BrokerSharedIds {
  import opened Numerics
  import opened Schemas
  import opened Broker
  import opened BrokerExcursions
  import opened BrokerTargets

  // --------------------------------------------------------------------------
  // What a position may gain
  // --------------------------------------------------------------------------

  /** The least upper bound, in R, of what bars can show a position to gain; None if there is none.
      A short gains no more than its whole price. */
  function Ceiling(pos: Position): Option<real>
    requires InitialRisk(pos) > 0.0
  {
    if !pos.side.Long? then Some(InR(pos, if pos.tp.Some? then Max(0.0, pos.tp.value) else 0.0))
    else if pos.tp.Some? then Some(InR(pos, pos.tp.value))
    else None
  }

  /** The position may gain more than t R. */
  predicate Outruns(pos: Position, t: real) {
    InitialRisk(pos) > 0.0 && (Ceiling(pos).None? || Ceiling(pos).value > t)
  }

  lemma NotOutrun(pos: Position, t: real, bar: Bar)
    requires InitialRisk(pos) > 0.0 && !Outruns(pos, t) && PositiveBar(bar)
    ensures InR(pos, FavorablePrice(pos, bar)) <= t
  {
    if pos.side.Long? {
      InRMonotone(pos, FavorablePrice(pos, bar), pos.tp.value);
    } else {
      InRMonotone(pos, FavorablePrice(pos, bar), if pos.tp.Some? then Max(0.0, pos.tp.value) else 0.0);
    }
  }

  /** The price at which a position has gained t R. */
  function LevelOf(pos: Position, t: real): real {
    if pos.side.Long? then pos.entry + t * InitialRisk(pos) else pos.entry - t * InitialRisk(pos)
  }

  lemma BeyondLevel(pos: Position, t: real, price: real)
    requires InitialRisk(pos) > 0.0
    ensures InR(pos, price) > t <==> if pos.side.Long? then price > LevelOf(pos, t) else price < LevelOf(pos, t)
  {
    var r := InitialRisk(pos);
    var gain := if pos.side.Long? then price - pos.entry else pos.entry - price;
    var x := InR(pos, price);
    assert x * r == gain;
    assert (x - t) * r == gain - t * r;
    MulSign(x - t, r);
    MulSign(t - x, r);
    assert (t - x) * r == t * r - gain;
  }

  /** Some price lies between stop and target, and is positive. */
  predicate Roomy(pos: Position) {
    if pos.side.Long? then pos.tp.Some? ==> pos.stop < pos.tp.value
    else pos.stop > 0.0 && (pos.tp.Some? ==> pos.tp.value < pos.stop)
  }

  function FlatBar(price: real): Bar {
    Bar(price, price, price, price)
  }

  /** One price shows such a gain and closes nothing. */
  lemma OutrunningPrice(pos: Position, t: real) returns (price: real)
    requires Roomy(pos) && Outruns(pos, t) && t >= 0.0 && pos.entry > 0.0
    ensures price > 0.0 && ExitOf(pos, FlatBar(price)) == None
    ensures InR(pos, FavorablePrice(pos, FlatBar(price))) > t
  {
    var level := LevelOf(pos, t);
    MulSign(t, InitialRisk(pos));
    if pos.side.Long? {
      if pos.tp.Some? {
        BeyondLevel(pos, t, pos.tp.value);
      }
      var least := Max(level, pos.stop);
      price := if pos.tp.Some? then (least + pos.tp.value) / 2.0 else least + 1.0;
    } else {
      var floor := if pos.tp.Some? then Max(0.0, pos.tp.value) else 0.0;
      BeyondLevel(pos, t, floor);
      price := (floor + Min(level, pos.stop)) / 2.0;
    }
    BeyondLevel(pos, t, price);
  }

  // --------------------------------------------------------------------------
  // Room
  // --------------------------------------------------------------------------

  ghost predicate AllRoomy(s: State) {
    forall k :: k in s.positions ==> Roomy(s.positions[k])
  }

  /** The bars of the run are what a market shows. */
  ghost predicate MarketRun(ops: seq<Op>) {
    forall op :: op in ops && op.StepOp? ==> MarketBar(op.bar)
  }

  lemma {:induction false} FillsElsewhere(cfg: Config, s: State, pending: seq<Pending>, symbol: string, bar: Bar,
                                          now: Instant, k: string)
    requires PositiveBar(bar) && k != symbol
    ensures var s' := OpenAll(cfg, s, pending, symbol, bar, now);
            && (k in s'.positions <==> k in s.positions)
            && (k in s.positions ==> s'.positions[k] == s.positions[k])
    decreases |pending|
  {
    if pending != [] {
      FillsElsewhere(cfg, s, pending[..|pending| - 1], symbol, bar, now, k);
    }
  }

  /** A position that a bar does not close has room, for the bar lies in it. */
  lemma SurvivorIsRoomy(pos: Position, bar: Bar)
    requires MarketBar(bar) && ExitOf(pos, bar) == None
    ensures Roomy(pos)
  {
  }

  lemma StepKeepsRoom(cfg: Config, s: State, symbol: string, bar: Bar, now: Instant)
    requires Sane(s) && AllRoomy(s) && MarketBar(bar)
    ensures AllRoomy(Step(cfg, s, symbol, bar, now))
  {
    var b := BeforeExits(cfg, s, symbol, bar, now);
    StepIsSane(cfg, s, symbol, bar, now);
    forall k | k in b.positions && k != symbol
      ensures Roomy(b.positions[k])
    {
      FillsElsewhere(cfg, s.(lastMark := s.lastMark[symbol := bar.close]), s.pending, symbol, bar, now, k);
    }
    if symbol in b.positions && ExitOf(b.positions[symbol], bar) == None {
      SurvivorIsRoomy(b.positions[symbol], bar);
    }
  }

  /** Every open position has survived the bar that opened it. */
  lemma {:induction false} RunKeepsRoom(cfg: Config, s: State, ops: seq<Op>)
    requires Sane(s) && AllRoomy(s) && AllAllowed(ops) && MarketRun(ops)
    ensures AllRoomy(Run(cfg, s, ops))
  {
    if ops != [] {
      var n := |ops| - 1;
      assert ops[n] in ops;
      RunKeepsRoom(cfg, s, ops[..n]);
      RunKeepsSane(cfg, s, ops[..n]);
      if ops[n].StepOp? {
        StepKeepsRoom(cfg, Run(cfg, s, ops[..n]), ops[n].symbol, ops[n].bar, ops[n].now);
      }
    }
  }

  // --------------------------------------------------------------------------
  // Holding the target
  // --------------------------------------------------------------------------

  ghost predicate NoOrders(pending: seq<Pending>, id: string) {
    forall p :: p in pending ==> DecisionId(p.plan) != id
  }

  /** No order is placed under the id. */
  ghost predicate PlacesNone(ops: seq<Op>, id: string) {
    forall op :: op in ops && op.PlaceOp? ==> DecisionId(op.plan) != id
  }

  /** As long as the position is open in its symbol, its MFE is within its target. */
  ghost predicate Holds(s: State, symbol: string, pos: Position)
    requires HasTarget(pos)
  {
    symbol in s.positions && s.positions[symbol] == pos ==> ExcursionOf(s, pos.decisionId).mfe <= TargetR(pos)
  }

  /** No position of another symbol under the same id may gain more than this one's target. */
  ghost predicate NobodyOutruns(s: State, symbol: string, pos: Position)
    requires HasTarget(pos)
  {
    forall k :: k in s.positions && k != symbol && s.positions[k].decisionId == pos.decisionId ==>
      !Outruns(s.positions[k], TargetR(pos))
  }

  /** What lasts. The symbol may have gone to another position, but not to one under the id. */
  ghost predicate Lasting(s: State, symbol: string, pos: Position)
    requires HasTarget(pos)
  {
    && Sane(s)
    && NoOrders(s.pending, pos.decisionId)
    && NobodyOutruns(s, symbol, pos)
    && (symbol in s.positions && s.positions[symbol].decisionId == pos.decisionId ==> s.positions[symbol] == pos)
    && Holds(s, symbol, pos)
  }

  lemma OpenLasts(cfg: Config, s: State, plan: TradePlan, price: real, now: Instant, symbol: string, pos: Position)
    requires HasTarget(pos) && Lasting(s, symbol, pos) && price > 0.0 && DecisionId(plan) != pos.decisionId
    ensures Lasting(OpenPosition(cfg, s, plan, price, now), symbol, pos)
  {
    OpenKeepsSane(cfg, s, plan, price, now);
  }

  lemma {:induction false} OpenAllLasts(cfg: Config, s: State, pending: seq<Pending>, on: string, bar: Bar,
                                        now: Instant,
                                        symbol: string, pos: Position)
    requires HasTarget(pos) && Lasting(s, symbol, pos) && PositiveBar(bar) && NoOrders(pending, pos.decisionId)
    ensures Lasting(OpenAll(cfg, s, pending, on, bar, now), symbol, pos)
    decreases |pending|
  {
    if pending != [] {
      var n := |pending| - 1;
      assert pending[n] in pending;
      OpenAllLasts(cfg, s, pending[..n], on, bar, now, symbol, pos);
      if !Stays(pending[n], on, bar) {
        OpenLasts(cfg, OpenAll(cfg, s, pending[..n], on, bar, now), pending[n].plan, FillPrice(pending[n], bar).value,
                  now, symbol, pos);
      }
    }
  }

  lemma FillsLast(cfg: Config, s: State, on: string, bar: Bar, now: Instant, symbol: string, pos: Position)
    requires HasTarget(pos) && Lasting(s, symbol, pos) && PositiveBar(bar)
    ensures Lasting(AfterFills(cfg, s, on, bar, now), symbol, pos)
  {
    OpenAllLasts(cfg, s.(lastMark := s.lastMark[on := bar.close]), s.pending, on, bar, now, symbol, pos);
    forall p | p in Staying(s.pending, on, bar)
      ensures p in s.pending
    {
      StayingMembers(s.pending, on, bar, p);
    }
  }

  lemma UpdateLasts(s: State, on: string, bar: Bar, symbol: string, pos: Position)
    requires HasTarget(pos) && Lasting(s, symbol, pos) && PositiveBar(bar)
    ensures Lasting(UpdateExcursions(s, on, bar), symbol, pos)
  {
    UpdateKeepsSane(s, on, bar);
    if on in s.positions && s.positions[on].decisionId == pos.decisionId && InitialRisk(s.positions[on]) > 0.0 {
      if on == symbol {
        FavorableWithinTarget(pos, bar);
      } else {
        NotOutrun(s.positions[on], TargetR(pos), bar);
      }
    }
  }

  lemma CloseLasts(cfg: Config, s: State, on: string, exit: Exit, now: Instant, symbol: string, pos: Position)
    requires HasTarget(pos) && Lasting(s, symbol, pos) && on in s.positions
    ensures Lasting(Close(cfg, s, s.positions[on], exit, now), symbol, pos)
  {
    CloseKeepsSane(cfg, s, s.positions[on], exit, now);
  }

  lemma DoLasts(cfg: Config, s: State, op: Op, symbol: string, pos: Position)
    requires HasTarget(pos) && Lasting(s, symbol, pos) && Allowed(op)
    requires op.PlaceOp? ==> DecisionId(op.plan) != pos.decisionId
    ensures Lasting(Do(cfg, s, op), symbol, pos)
  {
    match op
    case PlaceOp(plan) =>
    case CancelOp(on) =>
      forall p | p in WithoutSymbol(s.pending, on)
        ensures p in s.pending
      {
        WithoutSymbolMembers(s.pending, on, p);
      }
    case StepOp(on, bar, now) =>
      FillsLast(cfg, s, on, bar, now, symbol, pos);
      UpdateLasts(AfterFills(cfg, s, on, bar, now), on, bar, symbol, pos);
      var b := BeforeExits(cfg, s, on, bar, now);
      if on in b.positions && ExitOf(b.positions[on], bar).Some? {
        CloseLasts(cfg, b, on, ExitOf(b.positions[on], bar).value, now, symbol, pos);
      }
    case FundingOp(on, rateBps, minutes) =>
    case DrainOp =>
  }

  lemma {:induction false} RunLasts(cfg: Config, s: State, ops: seq<Op>, symbol: string, pos: Position)
    requires HasTarget(pos) && Lasting(s, symbol, pos) && AllAllowed(ops) && PlacesNone(ops, pos.decisionId)
    ensures Lasting(Run(cfg, s, ops), symbol, pos)
  {
    if ops != [] {
      var n := |ops| - 1;
      assert ops[n] in ops;
      RunLasts(cfg, s, ops[..n], symbol, pos);
      DoLasts(cfg, Run(cfg, s, ops[..n]), ops[n], symbol, pos);
    }
  }

  // --------------------------------------------------------------------------
  // Breaking it
  // --------------------------------------------------------------------------

  lemma {:induction false} NoneFill(cfg: Config, s: State, pending: seq<Pending>, symbol: string, bar: Bar,
                                    now: Instant)
    requires PositiveBar(bar) && forall p :: p in pending ==> p.plan.symbol != symbol
    ensures OpenAll(cfg, s, pending, symbol, bar, now) == s
    decreases |pending|
  {
    if pending != [] {
      NoneFill(cfg, s, pending[..|pending| - 1], symbol, bar, now);
    }
  }

  lemma {:induction false} CancelledGone(pending: seq<Pending>, symbol: string, p: Pending)
    requires p in WithoutSymbol(pending, symbol)
    ensures p.plan.symbol != symbol
  {
    var n := |pending| - 1;
    if p in WithoutSymbol(pending[..n], symbol) {
      CancelledGone(pending[..n], symbol, p);
    }
  }

  /** Cancel what waits in the other symbol, then let it gain. */
  lemma OutrunBreaks(cfg: Config, s: State, symbol: string, other: string) returns (ops: seq<Op>)
    requires Sane(s) && symbol in s.positions && other in s.positions && other != symbol
    requires var pos, rival := s.positions[symbol], s.positions[other];
             rival.decisionId == pos.decisionId && HasTarget(pos) && Roomy(rival) && Outruns(rival, TargetR(pos))
    ensures AllAllowed(ops) && MarketRun(ops) && forall id :: PlacesNone(ops, id)
    ensures !Holds(Run(cfg, s, ops), symbol, s.positions[symbol])
  {
    var pos, rival := s.positions[symbol], s.positions[other];
    var price := OutrunningPrice(rival, TargetR(pos));
    var bar := FlatBar(price);
    var cancelled := CancelAll(s, other);
    forall p | p in cancelled.pending
      ensures p.plan.symbol != other
    {
      CancelledGone(s.pending, other, p);
    }
    var marked := cancelled.(lastMark := cancelled.lastMark[other := bar.close]);
    NoneFill(cfg, marked, cancelled.pending, other, bar, 0);
    ops := [CancelOp(other), StepOp(other, bar, 0)];
    assert ops[..1] == [CancelOp(other)] && ops[..1][..0] == [];
    assert Run(cfg, s, ops[..1]) == cancelled;
    assert Run(cfg, s, ops) == Step(cfg, cancelled, other, bar, 0);
  }

  /** In every market the MFE of the position stays within its target, as long as no order is placed
      under its id. */
  ghost predicate AlwaysHolds(cfg: Config, s: State, symbol: string, pos: Position)
    requires HasTarget(pos)
  {
    forall ops :: AllAllowed(ops) && MarketRun(ops) && PlacesNone(ops, pos.decisionId) ==>
      Holds(Run(cfg, s, ops), symbol, pos)
  }

  /** After any run on market bars, with no order waiting under the id of an open position with a
      target: its MFE stays within the target, whatever the market does and without another order under
      the id, exactly when it is within it now and no position of another symbol under the id may gain
      more. */
  lemma TargetHoldsIff(cfg: Config, startingEquity: real, past: seq<Op>, symbol: string)
    requires AllAllowed(past) && MarketRun(past) && symbol in Run(cfg, Fresh(startingEquity), past).positions
    requires var s := Run(cfg, Fresh(startingEquity), past);
             HasTarget(s.positions[symbol]) && NoOrders(s.pending, s.positions[symbol].decisionId)
    ensures var s := Run(cfg, Fresh(startingEquity), past);
            var pos := s.positions[symbol];
            AlwaysHolds(cfg, s, symbol, pos)
            <==> ExcursionOf(s, pos.decisionId).mfe <= TargetR(pos) && NobodyOutruns(s, symbol, pos)
  {
    RunKeepsSane(cfg, Fresh(startingEquity), past);
    RunKeepsRoom(cfg, Fresh(startingEquity), past);
    StateHoldsIff(cfg, Run(cfg, Fresh(startingEquity), past), symbol);
  }

  lemma StateHoldsIff(cfg: Config, s: State, symbol: string)
    requires Sane(s) && AllRoomy(s) && symbol in s.positions
    requires HasTarget(s.positions[symbol]) && NoOrders(s.pending, s.positions[symbol].decisionId)
    ensures var pos := s.positions[symbol];
            AlwaysHolds(cfg, s, symbol, pos)
            <==> ExcursionOf(s, pos.decisionId).mfe <= TargetR(pos) && NobodyOutruns(s, symbol, pos)
  {
    var pos := s.positions[symbol];
    if !NobodyOutruns(s, symbol, pos) {
      var other :| other in s.positions && other != symbol && s.positions[other].decisionId == pos.decisionId
                   && Outruns(s.positions[other], TargetR(pos));
      var ops := OutrunBreaks(cfg, s, symbol, other);
    } else if ExcursionOf(s, pos.decisionId).mfe > TargetR(pos) {
      assert AllAllowed([]) && MarketRun([]) && PlacesNone([], pos.decisionId) && Run(cfg, s, []) == s;
    } else {
      forall ops | AllAllowed(ops) && MarketRun(ops) && PlacesNone(ops, pos.decisionId)
        ensures Holds(Run(cfg, s, ops), symbol, pos)
      {
        RunLasts(cfg, s, ops, symbol, pos);
      }
    }
  }

  // --------------------------------------------------------------------------
  // An instance
  // --------------------------------------------------------------------------

  function SharedPlan(symbol: string, target: Option<real>): TradePlan {
    TradePlan("Trend", symbol, Long, None, Some(90.0), target, Some(100.0), None, 0.0, 0.0, 0.0, [], Some("shared"))
  }

  function SharedPosition(symbol: string, target: Option<real>, now: Instant): Position {
    Position(symbol, "paper", Long, 1.0, 100.0, 90.0, target, now, "Trend", "shared", "swing")
  }

  const FLAT := FlatBar(100.0)

  lemma RunNext(cfg: Config, s: State, ops: seq<Op>, op: Op)
    requires AllAllowed(ops) && Allowed(op)
    ensures AllAllowed(ops + [op]) && Run(cfg, s, ops + [op]) == Do(cfg, Run(cfg, s, ops), op)
    ensures MarketRun(ops) && (op.StepOp? ==> MarketBar(op.bar)) ==> MarketRun(ops + [op])
  {
    assert (ops + [op])[..|ops|] == ops;
  }

  lemma BothPlaced(cfg: Config) returns (ops: seq<Op>)
    ensures AllAllowed(ops) && MarketRun(ops)
    ensures Run(cfg, Fresh(1000.0), ops)
            == Fresh(1000.0).(pending := [Pending(SharedPlan("A", None), false),
                                          Pending(SharedPlan("B", Some(120.0)), false)])
  {
    var a, b := PlaceOp(SharedPlan("A", None)), PlaceOp(SharedPlan("B", Some(120.0)));
    RunNext(cfg, Fresh(1000.0), [], a);
    RunNext(cfg, Fresh(1000.0), [] + [a], b);
    ops := [] + [a] + [b];
  }

  /** The first of two orders, or the only one, fills at 100 on a flat bar. */
  lemma FlatFill(cfg: Config, s: State, symbol: string, target: Option<real>, rest: seq<Pending>)
    requires s.pending == [Pending(SharedPlan(symbol, target), false)] + rest && |rest| <= 1
    requires rest != [] ==> rest[0].plan.symbol != symbol
    ensures var marked := s.(lastMark := s.lastMark[symbol := 100.0]);
            AfterFills(cfg, s, symbol, FLAT, 0)
            == OpenPosition(cfg, marked, SharedPlan(symbol, target), 100.0, 0).(pending := rest)
  {
    var marked := s.(lastMark := s.lastMark[symbol := 100.0]);
    var first := s.pending[..1];
    assert first[..0] == [] && first[0] == s.pending[0];
    if rest == [] {
      assert s.pending == first;
    } else {
      assert s.pending[..1] == first && s.pending[1] == rest[0];
    }
    assert OpenAll(cfg, marked, first, symbol, FLAT, 0)
           == OpenPosition(cfg, marked, SharedPlan(symbol, target), 100.0, 0);
    assert Staying(first, symbol, FLAT) == [];
    assert Staying(s.pending, symbol, FLAT) == rest;
  }

  lemma FlatStep(cfg: Config, s: State, symbol: string, target: Option<real>, rest: seq<Pending>)
    requires s.pending == [Pending(SharedPlan(symbol, target), false)] + rest && |rest| <= 1
    requires rest != [] ==> rest[0].plan.symbol != symbol
    requires target.Some? ==> target.value > 100.0
    ensures var s' := Step(cfg, s, symbol, FLAT, 0);
            && s'.pending == rest
            && s'.positions == s.positions[symbol := SharedPosition(symbol, target, 0)]
            && s'.excursions == s.excursions["shared" := Excursion(0.0, 0.0)]
  {
    FlatFill(cfg, s, symbol, target, rest);
    var filled := AfterFills(cfg, s, symbol, FLAT, 0);
    assert filled.positions[symbol] == SharedPosition(symbol, target, 0);
    assert UpdateExcursions(filled, symbol, FLAT).excursions == filled.excursions;
  }

  lemma OneOpened(cfg: Config) returns (ops: seq<Op>)
    ensures AllAllowed(ops) && MarketRun(ops)
    ensures var s := Run(cfg, Fresh(1000.0), ops);
            && s.pending == [Pending(SharedPlan("B", Some(120.0)), false)]
            && s.positions == map["A" := SharedPosition("A", None, 0)]
            && s.excursions == map["shared" := Excursion(0.0, 0.0)]
  {
    ops := BothPlaced(cfg);
    var s := Run(cfg, Fresh(1000.0), ops);
    FlatStep(cfg, s, "A", None, [Pending(SharedPlan("B", Some(120.0)), false)]);
    RunNext(cfg, Fresh(1000.0), ops, StepOp("A", FLAT, 0));
    ops := ops + [StepOp("A", FLAT, 0)];
  }

  lemma BothOpened(cfg: Config) returns (ops: seq<Op>)
    ensures AllAllowed(ops) && MarketRun(ops)
    ensures var s := Run(cfg, Fresh(1000.0), ops);
            && s.pending == []
            && s.positions == map["A" := SharedPosition("A", None, 0), "B" := SharedPosition("B", Some(120.0), 0)]
            && s.excursions == map["shared" := Excursion(0.0, 0.0)]
  {
    ops := OneOpened(cfg);
    var s := Run(cfg, Fresh(1000.0), ops);
    FlatStep(cfg, s, "B", Some(120.0), []);
    RunNext(cfg, Fresh(1000.0), ops, StepOp("B", FLAT, 0));
    ops := ops + [StepOp("B", FLAT, 0)];
  }

  lemma FirstGained(cfg: Config) returns (ops: seq<Op>)
    ensures AllAllowed(ops) && MarketRun(ops)
    ensures var s := Run(cfg, Fresh(1000.0), ops);
            && s.pending == []
            && "B" in s.positions && s.positions["B"] == SharedPosition("B", Some(120.0), 0)
            && s.excursions == map["shared" := Excursion(-0.5, 5.0)]
  {
    ops := BothOpened(cfg);
    var s := Run(cfg, Fresh(1000.0), ops);
    RunNext(cfg, Fresh(1000.0), ops, StepOp("A", Bar(100.0, 150.0, 95.0, 100.0), 1));
    ops := ops + [StepOp("A", Bar(100.0, 150.0, 95.0, 100.0), 1)];
  }

  /** Two symbols are bought under one decision id. The first sees a gain of 5 R; the second, its
      target 2 R away, then has an MFE of 5 R, and reports it when it closes on its target. */
  lemma SharedIdBreaksMfe(cfg: Config) returns (ops: seq<Op>)
    ensures AllAllowed(ops) && MarketRun(ops)
    ensures var b := SharedPosition("B", Some(120.0), 0);
            var s := Run(cfg, Fresh(1000.0), ops);
            var s' := Step(cfg, s, "B", Bar(100.0, 130.0, 95.0, 100.0), 2);
            && "B" in s.positions && s.positions["B"] == b && LossSide(b) && HasTarget(b) && ProfitSide(b)
            && TargetR(b) == 2.0 && !Holds(s, "B", b)
            && RiskQuote(b) > 0.0 && Reports(cfg, s', b, Exit(120.0, Tp), 2.0)
            && s'.outcomes[|s'.outcomes| - 1].maxFavorableR == 5.0
  {
    ops := FirstGained(cfg);
    RunKeepsSane(cfg, Fresh(1000.0), ops);
  }
}
