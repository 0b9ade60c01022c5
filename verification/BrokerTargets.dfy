/** When a position's best excursion stays within its target (aimos/execution/broker/paper.py).
    Excursions are kept by decision id, so it depends on who else carries the id. */
module BrokerTargets {
  import opened Numerics
  import opened Schemas
  import opened Broker
  import opened BrokerExcursions

  predicate HasTarget(pos: Position) {
    pos.tp.Some? && InitialRisk(pos) > 0.0
  }

  /** The target is on the side where the position gains. */
  predicate ProfitSide(pos: Position) {
    pos.tp.Some? && if pos.side.Long? then pos.tp.value > pos.entry else pos.tp.value < pos.entry
  }

  /** The most a target lets a position gain, in R: nothing, if it is on the losing side. */
  function TargetR(pos: Position): real
    requires HasTarget(pos)
  {
    Max(0.0, InR(pos, pos.tp.value))
  }

  lemma FavorableWithinTarget(pos: Position, bar: Bar)
    requires HasTarget(pos)
    ensures InR(pos, FavorablePrice(pos, bar)) <= TargetR(pos)
  {
    InRMonotone(pos, FavorablePrice(pos, bar), pos.tp.value);
  }

  /** A target that is hit on the profit side reports its distance as gross R; and the reported MFE
      agrees with it exactly when the excursion was within the target before the bar. */
  lemma TargetExitAgreesIff(cfg: Config, s: State, symbol: string, bar: Bar, now: Instant, pos: Position, exit: Exit)
    requires Sane(s) && PositiveBar(bar) && Exits(cfg, s, symbol, bar, now, pos, exit)
    requires exit.kind == Tp && pos.qty > 0.0 && HasTarget(pos) && ProfitSide(pos)
    ensures var s' := Step(cfg, s, symbol, bar, now);
            && RiskQuote(pos) > 0.0 && Reports(cfg, s', pos, exit, TargetR(pos))
            && (s'.outcomes[|s'.outcomes| - 1].maxFavorableR == TargetR(pos)
                <==> ExcursionOf(AfterFills(cfg, s, symbol, bar, now), pos.decisionId).mfe <= TargetR(pos))
  {
    ExitReported(cfg, s, symbol, bar, now, pos, exit);
    assert FavorablePrice(pos, bar) == pos.tp.value;
  }

  // --------------------------------------------------------------------------
  // Ids that belong to one symbol each
  // --------------------------------------------------------------------------

  /** A decision id belongs to one symbol among all open positions and pending orders. */
  ghost predicate IdsApart(s: State) {
    && (forall j, k :: j in s.positions && k in s.positions && j != k ==>
          s.positions[j].decisionId != s.positions[k].decisionId)
    && (forall p, k :: p in s.pending && k in s.positions && p.plan.symbol != k ==>
          DecisionId(p.plan) != s.positions[k].decisionId)
    && (forall p, q :: p in s.pending && q in s.pending && p.plan.symbol != q.plan.symbol ==>
          DecisionId(p.plan) != DecisionId(q.plan))
  }

  ghost predicate AllWithin(s: State) {
    forall k :: k in s.positions && HasTarget(s.positions[k]) ==>
      ExcursionOf(s, s.positions[k].decisionId).mfe <= TargetR(s.positions[k])
  }

  ghost predicate Inv(s: State) {
    Sane(s) && IdsApart(s) && AllWithin(s)
  }

  /** What a caller checks before placing: no other symbol's order or position carries the id. */
  ghost predicate FreshId(s: State, plan: TradePlan) {
    && (forall k :: k in s.positions && k != plan.symbol ==> s.positions[k].decisionId != DecisionId(plan))
    && (forall p :: p in s.pending && p.plan.symbol != plan.symbol ==> DecisionId(p.plan) != DecisionId(plan))
  }

  lemma PlaceKeepsInv(s: State, plan: TradePlan)
    requires Inv(s) && FreshId(s, plan)
    ensures Inv(Place(s, plan))
  {
  }

  lemma FewerOrdersKeepInv(s: State, fewer: seq<Pending>)
    requires Inv(s) && forall p :: p in fewer ==> p in s.pending
    ensures Inv(s.(pending := fewer))
  {
  }

  lemma OpenKeepsInv(cfg: Config, s: State, p: Pending, price: real, now: Instant)
    requires Inv(s) && p in s.pending && price > 0.0
    ensures Inv(OpenPosition(cfg, s, p.plan, price, now))
    ensures OpenPosition(cfg, s, p.plan, price, now).pending == s.pending
  {
  }

  lemma {:induction false} OpenAllKeepsInv(cfg: Config, s: State, pending: seq<Pending>, symbol: string, bar: Bar,
                                           now: Instant)
    requires Inv(s) && PositiveBar(bar) && forall p :: p in pending ==> p in s.pending
    ensures Inv(OpenAll(cfg, s, pending, symbol, bar, now))
    ensures OpenAll(cfg, s, pending, symbol, bar, now).pending == s.pending
    decreases |pending|
  {
    if pending != [] {
      var n := |pending| - 1;
      OpenAllKeepsInv(cfg, s, pending[..n], symbol, bar, now);
      if !Stays(pending[n], symbol, bar) {
        OpenKeepsInv(cfg, OpenAll(cfg, s, pending[..n], symbol, bar, now), pending[n],
                     FillPrice(pending[n], bar).value, now);
      }
    }
  }

  lemma FillKeepsInv(cfg: Config, s: State, symbol: string, bar: Bar, now: Instant)
    requires Inv(s) && PositiveBar(bar)
    ensures Inv(FillPending(cfg, s, symbol, bar, now))
  {
    OpenAllKeepsInv(cfg, s, s.pending, symbol, bar, now);
    forall p | p in Staying(s.pending, symbol, bar)
      ensures p in s.pending
    {
      StayingMembers(s.pending, symbol, bar, p);
    }
    FewerOrdersKeepInv(OpenAll(cfg, s, s.pending, symbol, bar, now), Staying(s.pending, symbol, bar));
  }

  lemma UpdateKeepsInv(s: State, symbol: string, bar: Bar)
    requires Inv(s)
    ensures Inv(UpdateExcursions(s, symbol, bar))
  {
    UpdateKeepsSane(s, symbol, bar);
    if symbol in s.positions && HasTarget(s.positions[symbol]) {
      FavorableWithinTarget(s.positions[symbol], bar);
    }
  }

  lemma CloseKeepsInv(cfg: Config, s: State, symbol: string, exit: Exit, now: Instant)
    requires Inv(s) && symbol in s.positions
    ensures Inv(Close(cfg, s, s.positions[symbol], exit, now))
  {
  }

  lemma StepKeepsInv(cfg: Config, s: State, symbol: string, bar: Bar, now: Instant)
    requires Inv(s) && PositiveBar(bar)
    ensures Inv(AfterFills(cfg, s, symbol, bar, now)) && Inv(BeforeExits(cfg, s, symbol, bar, now))
  {
    FillKeepsInv(cfg, s.(lastMark := s.lastMark[symbol := bar.close]), symbol, bar, now);
    UpdateKeepsInv(AfterFills(cfg, s, symbol, bar, now), symbol, bar);
  }

  lemma DoKeepsInv(cfg: Config, s: State, op: Op)
    requires Inv(s) && Allowed(op) && (op.PlaceOp? ==> FreshId(s, op.plan))
    ensures Inv(Do(cfg, s, op))
  {
    match op
    case PlaceOp(plan) => PlaceKeepsInv(s, plan);
    case CancelOp(symbol) =>
      forall p | p in WithoutSymbol(s.pending, symbol)
        ensures p in s.pending
      {
        WithoutSymbolMembers(s.pending, symbol, p);
      }
      FewerOrdersKeepInv(s, WithoutSymbol(s.pending, symbol));
    case StepOp(symbol, bar, now) =>
      StepKeepsInv(cfg, s, symbol, bar, now);
      var b := BeforeExits(cfg, s, symbol, bar, now);
      if symbol in b.positions && ExitOf(b.positions[symbol], bar).Some? {
        CloseKeepsInv(cfg, b, symbol, ExitOf(b.positions[symbol], bar).value, now);
      }
    case FundingOp(symbol, rateBps, minutes) =>
    case DrainOp =>
  }

  /** A run in which every order placed has an id of its own symbol's. */
  ghost predicate IdsFresh(cfg: Config, s: State, ops: seq<Op>)
    requires AllAllowed(ops)
  {
    if ops == [] then true
    else
      var n := |ops| - 1;
      && IdsFresh(cfg, s, ops[..n])
      && (ops[n].PlaceOp? ==> FreshId(Run(cfg, s, ops[..n]), ops[n].plan))
  }

  lemma {:induction false} RunKeepsInv(cfg: Config, s: State, ops: seq<Op>)
    requires Inv(s) && AllAllowed(ops) && IdsFresh(cfg, s, ops)
    ensures Inv(Run(cfg, s, ops))
  {
    if ops != [] {
      var n := |ops| - 1;
      RunKeepsInv(cfg, s, ops[..n]);
      DoKeepsInv(cfg, Run(cfg, s, ops[..n]), ops[n]);
    }
  }

  /** In such a run no open position's MFE exceeds its target. */
  lemma MfeWithinTarget(cfg: Config, startingEquity: real, ops: seq<Op>, symbol: string)
    requires AllAllowed(ops) && IdsFresh(cfg, Fresh(startingEquity), ops)
    requires symbol in Run(cfg, Fresh(startingEquity), ops).positions
    requires HasTarget(Run(cfg, Fresh(startingEquity), ops).positions[symbol])
    ensures var s := Run(cfg, Fresh(startingEquity), ops);
            var pos := s.positions[symbol];
            ExcursionOf(s, pos.decisionId).mfe <= TargetR(pos)
  {
    RunKeepsInv(cfg, Fresh(startingEquity), ops);
  }

  /** ... and a target that is hit on the profit side reports its distance as gross R and as MFE. */
  lemma TargetExitAgrees(cfg: Config, startingEquity: real, ops: seq<Op>, symbol: string, bar: Bar, now: Instant,
                         pos: Position, exit: Exit)
    requires AllAllowed(ops) && IdsFresh(cfg, Fresh(startingEquity), ops) && PositiveBar(bar)
    requires Exits(cfg, Run(cfg, Fresh(startingEquity), ops), symbol, bar, now, pos, exit)
    requires exit.kind == Tp && pos.qty > 0.0 && HasTarget(pos) && ProfitSide(pos)
    ensures var s' := Step(cfg, Run(cfg, Fresh(startingEquity), ops), symbol, bar, now);
            && RiskQuote(pos) > 0.0 && Reports(cfg, s', pos, exit, TargetR(pos))
            && s'.outcomes[|s'.outcomes| - 1].maxFavorableR == TargetR(pos)
  {
    var s := Run(cfg, Fresh(startingEquity), ops);
    RunKeepsInv(cfg, Fresh(startingEquity), ops);
    StepKeepsInv(cfg, s, symbol, bar, now);
    TargetExitAgreesIff(cfg, s, symbol, bar, now, pos, exit);
  }
}
