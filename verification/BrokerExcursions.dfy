/** Excursions agree with exits, in every run (aimos/execution/broker/paper.py). */
module BrokerExcursions {
  import opened Numerics
  import opened Schemas
  import opened Broker

  /** The stop is on the side of the fill price where the position loses. */
  predicate LossSide(pos: Position) {
    pos.qty > 0.0 && if pos.side.Long? then pos.stop < pos.entry else pos.stop > pos.entry
  }

  predicate Ranged(e: Excursion) {
    -1.0 <= e.mae <= 0.0 <= e.mfe
  }

  lemma LossSideRisk(pos: Position)
    requires LossSide(pos)
    ensures InitialRisk(pos) > 0.0
    ensures InR(pos, pos.stop) == -1.0
    ensures RiskQuote(pos) > 0.0
  {
    MulSign(pos.qty, InitialRisk(pos));
    var r := InitialRisk(pos);
    assert -r / r == -1.0;
  }

  /** For a position, higher is better: a long gains as the price rises, a short as it falls. */
  lemma InRMonotone(pos: Position, p: real, q: real)
    requires InitialRisk(pos) > 0.0
    requires if pos.side.Long? then p <= q else q <= p
    ensures InR(pos, p) <= InR(pos, q)
  {
    var r := InitialRisk(pos);
    var x := if pos.side.Long? then p - pos.entry else pos.entry - p;
    var y := if pos.side.Long? then q - pos.entry else pos.entry - q;
    MulMonotone(r, x, y);
    QuotientLeq(x, r, y, r);
  }

  /** A bar is clamped to the position's own stop, so whichever side that is on, no bar takes more
      than the initial risk off a position. */
  lemma AdverseIsRanged(pos: Position, bar: Bar)
    requires InitialRisk(pos) > 0.0
    ensures InR(pos, AdversePrice(pos, bar)) >= -1.0
  {
    var r := InitialRisk(pos);
    var a := AdversePrice(pos, bar);
    QuotientLeq(-r, r, if pos.side.Long? then a - pos.entry else pos.entry - a, r);
    assert -r / r == -1.0;
  }

  /** The result of a closed trade before its exit fee, in R. */
  function GrossR(cfg: Config, pos: Position, price: real): real
    requires RiskQuote(pos) > 0.0
  {
    PnlR(cfg, pos, price) + ExitFee(cfg, pos, price) / RiskQuote(pos)
  }

  lemma GrossRIsInR(cfg: Config, pos: Position, price: real)
    requires pos.qty > 0.0 && InitialRisk(pos) > 0.0 && RiskQuote(pos) > 0.0
    ensures GrossR(cfg, pos, price) == InR(pos, price)
  {
  }

  // --------------------------------------------------------------------------
  // Every run
  // --------------------------------------------------------------------------

  /** Positions are keyed by their own symbol and were opened at a positive price; all excursions
      are in range. */
  ghost predicate Sane(s: State) {
    && (forall k :: k in s.positions ==> s.positions[k].symbol == k && s.positions[k].entry > 0.0)
    && (forall id :: id in s.excursions ==> Ranged(s.excursions[id]))
  }

  lemma OpenKeepsSane(cfg: Config, s: State, plan: TradePlan, price: real, now: Instant)
    requires Sane(s) && price > 0.0
    ensures Sane(OpenPosition(cfg, s, plan, price, now))
  {
  }

  lemma {:induction false} OpenAllKeepsSane(cfg: Config, s: State, pending: seq<Pending>, symbol: string, bar: Bar,
                                            now: Instant)
    requires Sane(s) && PositiveBar(bar)
    ensures Sane(OpenAll(cfg, s, pending, symbol, bar, now))
    decreases |pending|
  {
    if pending != [] {
      var n := |pending| - 1;
      OpenAllKeepsSane(cfg, s, pending[..n], symbol, bar, now);
      if !Stays(pending[n], symbol, bar) {
        OpenKeepsSane(cfg, OpenAll(cfg, s, pending[..n], symbol, bar, now), pending[n].plan,
                      FillPrice(pending[n], bar).value, now);
      }
    }
  }

  lemma UpdateKeepsSane(s: State, symbol: string, bar: Bar)
    requires Sane(s)
    ensures Sane(UpdateExcursions(s, symbol, bar))
  {
    if symbol in s.positions && InitialRisk(s.positions[symbol]) > 0.0 {
      AdverseIsRanged(s.positions[symbol], bar);
    }
  }

  lemma CloseKeepsSane(cfg: Config, s: State, pos: Position, exit: Exit, now: Instant)
    requires Sane(s)
    ensures Sane(Close(cfg, s, pos, exit, now))
  {
  }

  /** The two states on the way through a bar. */
  lemma StepIsSane(cfg: Config, s: State, symbol: string, bar: Bar, now: Instant)
    requires Sane(s) && PositiveBar(bar)
    ensures Sane(AfterFills(cfg, s, symbol, bar, now))
    ensures Sane(BeforeExits(cfg, s, symbol, bar, now))
  {
    OpenAllKeepsSane(cfg, s.(lastMark := s.lastMark[symbol := bar.close]), s.pending, symbol, bar, now);
    UpdateKeepsSane(AfterFills(cfg, s, symbol, bar, now), symbol, bar);
  }

  lemma DoKeepsSane(cfg: Config, s: State, op: Op)
    requires Sane(s) && Allowed(op)
    ensures Sane(Do(cfg, s, op))
  {
    if op.StepOp? {
      StepIsSane(cfg, s, op.symbol, op.bar, op.now);
      var b := BeforeExits(cfg, s, op.symbol, op.bar, op.now);
      if op.symbol in b.positions && ExitOf(b.positions[op.symbol], op.bar).Some? {
        CloseKeepsSane(cfg, b, b.positions[op.symbol], ExitOf(b.positions[op.symbol], op.bar).value, op.now);
      }
    }
  }

  lemma {:induction false} RunKeepsSane(cfg: Config, s: State, ops: seq<Op>)
    requires Sane(s) && AllAllowed(ops)
    ensures Sane(Run(cfg, s, ops))
  {
    if ops != [] {
      var n := |ops| - 1;
      RunKeepsSane(cfg, s, ops[..n]);
      DoKeepsSane(cfg, Run(cfg, s, ops[..n]), ops[n]);
    }
  }

  /** In every run from a fresh broker, whatever ids the orders carry, -1 <= MAE <= 0 <= MFE. */
  lemma ExcursionsRanged(cfg: Config, startingEquity: real, ops: seq<Op>, id: string)
    requires AllAllowed(ops)
    ensures Sane(Run(cfg, Fresh(startingEquity), ops))
    ensures Ranged(ExcursionOf(Run(cfg, Fresh(startingEquity), ops), id))
  {
    RunKeepsSane(cfg, Fresh(startingEquity), ops);
  }

  // --------------------------------------------------------------------------
  // Exits
  // --------------------------------------------------------------------------

  /** The position in a symbol when the exits of a bar are decided, if this bar closes it. */
  ghost predicate Exits(cfg: Config, s: State, symbol: string, bar: Bar, now: Instant, pos: Position, exit: Exit)
    requires PositiveBar(bar)
  {
    var b := BeforeExits(cfg, s, symbol, bar, now);
    symbol in b.positions && b.positions[symbol] == pos && ExitOf(pos, bar) == Some(exit)
  }

  /** The last outcome is that of the position, and its result before the exit fee is gross R. */
  ghost predicate Reports(cfg: Config, s: State, pos: Position, exit: Exit, gross: real)
    requires RiskQuote(pos) > 0.0
  {
    && s.outcomes != []
    && var o := s.outcomes[|s.outcomes| - 1];
       && o.decisionId == pos.decisionId
       && o.exitReason == exit.kind && o.exitPrice == exit.price
       && o.pnlR + ExitFee(cfg, pos, exit.price) / RiskQuote(pos) == gross
  }

  lemma ExitReported(cfg: Config, s: State, symbol: string, bar: Bar, now: Instant, pos: Position, exit: Exit)
    requires Sane(s) && PositiveBar(bar) && Exits(cfg, s, symbol, bar, now, pos, exit)
    requires pos.qty > 0.0 && InitialRisk(pos) > 0.0
    ensures RiskQuote(pos) > 0.0
    ensures Reports(cfg, Step(cfg, s, symbol, bar, now), pos, exit, InR(pos, exit.price))
    ensures symbol !in Step(cfg, s, symbol, bar, now).positions
  {
    StepIsSane(cfg, s, symbol, bar, now);
    MulSign(pos.qty, InitialRisk(pos));
    GrossRIsInR(cfg, pos, exit.price);
  }

  /** In every reachable state, a stop on the loss side that is hit reports a gross result of -1 R,
      and a MAE of -1, whatever ids the orders carried. */
  lemma StopExitAgrees(cfg: Config, startingEquity: real, ops: seq<Op>, symbol: string, bar: Bar, now: Instant,
                       pos: Position, exit: Exit)
    requires AllAllowed(ops) && PositiveBar(bar)
    requires Exits(cfg, Run(cfg, Fresh(startingEquity), ops), symbol, bar, now, pos, exit)
    requires LossSide(pos) && exit.kind == Sl
    ensures var s' := Step(cfg, Run(cfg, Fresh(startingEquity), ops), symbol, bar, now);
            && RiskQuote(pos) > 0.0 && Reports(cfg, s', pos, exit, -1.0)
            && s'.outcomes[|s'.outcomes| - 1].maxAdverseR == -1.0
  {
    var s := Run(cfg, Fresh(startingEquity), ops);
    RunKeepsSane(cfg, Fresh(startingEquity), ops);
    StepIsSane(cfg, s, symbol, bar, now);
    LossSideRisk(pos);
    ExitReported(cfg, s, symbol, bar, now, pos, exit);
    assert AdversePrice(pos, bar) == pos.stop;
  }
}
