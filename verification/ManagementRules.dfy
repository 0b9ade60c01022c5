/** One step of the trade manager in prices, minutes and ranges, without its R-multiples
    (aimos/execution/trade_manager.py). */
module ManagementRules {
  import opened Numerics
  import opened Schemas
  import opened Management

  /** The price lies at least r risks in the position's favour; without a risk it counts as lying at none. */
  predicate AtLeast(pos: Position, price: real, risk: real, r: real) {
    var gain := if pos.side == Long then price - pos.entry else pos.entry - price;
    if risk > 0.0 then gain >= r * risk else 0.0 >= r
  }

  lemma MultipleMeaning(pos: Position, price: real, risk: real, r: real)
    ensures RMultiple(pos, price, risk) >= r <==> AtLeast(pos, price, risk, r)
  {
    if risk > 0.0 {
      var x := Ratio(Gain(pos, price), risk);
      assert x * risk == Gain(pos, price);
      MulSign(x - r, risk);
      MulSign(r - x, risk);
    }
  }

  // --------------------------------------------------------------------------
  // The two exits
  // --------------------------------------------------------------------------

  /** The market has confidently turned against the position. */
  predicate TurnedAgainst(cfg: Config, pos: Position, mu: MarketUnderstanding) {
    && (if pos.side == Long then mu.directionBias == Bearish else mu.directionBias == Bullish)
    && mu.confidence >= cfg.thesisExitConfidence
  }

  predicate Invalidated(cfg: Config, pos: Position, t: Tick) {
    t.mu.Some? && (TurnedAgainst(cfg, pos, t.mu.value) || t.mu.value.regime == Crash
                   || t.mu.value.behavior == Manipulation)
  }

  /** Held longer than the permitted multiple of its expected minutes, and not far enough in favour. */
  predicate Overdue(cfg: Config, pos: Position, t: Tick, s: State) {
    && s.holdMinutes > 0
    && (t.now - pos.openedAt) as real / 60000000.0 > cfg.timeStopHoldMult * s.holdMinutes as real
    && !AtLeast(pos, t.price, s.initialRisk, cfg.timeStopMinR)
  }

  lemma LongerThan(elapsed: real, limit: real)
    ensures elapsed > limit * MINUTE <==> elapsed / 60000000.0 > limit
  {
  }

  /** A step is an exit and nothing else exactly if the market has invalidated the thesis, whose reasons are
      tried in this order, or else the position is overdue; in every other case it is managed. */
  lemma StepExits(cfg: Config, pos: Position, t: Tick, s: State)
    ensures Managed(cfg, pos, t, s) <==> !Invalidated(cfg, pos, t) && !Overdue(cfg, pos, t, s)
    ensures Invalidated(cfg, pos, t) ==>
              var why := if TurnedAgainst(cfg, pos, t.mu.value) then RegimeFlip
                         else if t.mu.value.regime == Crash then MarketCrash else Manipulated;
              Next(cfg, pos, t, s) == s && Events(cfg, pos, t, s) == [Ev(pos, t, ThesisExit(why))]
    ensures !Invalidated(cfg, pos, t) && Overdue(cfg, pos, t, s) ==>
              && Next(cfg, pos, t, s) == s
              && Events(cfg, pos, t, s) == [Ev(pos, t, TimeStop(RMultiple(pos, t.price, s.initialRisk)))]
  {
    MultipleMeaning(pos, t.price, s.initialRisk, cfg.timeStopMinR);
    LongerThan((t.now - pos.openedAt) as real, cfg.timeStopHoldMult * s.holdMinutes as real);
  }

  // --------------------------------------------------------------------------
  // The stop
  // --------------------------------------------------------------------------

  /** How far a stop lies behind a price, counted on the side where the position loses. */
  function Behind(pos: Position, price: real, stop: real): real {
    if pos.side == Long then price - stop else stop - price
  }

  /** Each flag is set from the step on that reaches its threshold. */
  lemma FlagsSet(cfg: Config, pos: Position, t: Tick, s: State)
    requires Managed(cfg, pos, t, s)
    ensures var s' := Next(cfg, pos, t, s);
            && s'.breakevenDone == (s.breakevenDone || AtLeast(pos, t.price, s.initialRisk, cfg.breakevenR))
            && s'.partialDone == (s.partialDone || AtLeast(pos, t.price, s.initialRisk, cfg.partialTpR))
            && s'.trailActive == (s.trailActive || AtLeast(pos, t.price, s.initialRisk, cfg.trailActivateR))
            && s'.initialRisk == s.initialRisk && s'.holdMinutes == s.holdMinutes
  {
    MultipleMeaning(pos, t.price, s.initialRisk, cfg.breakevenR);
    MultipleMeaning(pos, t.price, s.initialRisk, cfg.partialTpR);
    MultipleMeaning(pos, t.price, s.initialRisk, cfg.trailActivateR);
  }

  /** The stop no further behind the price than the distance; exactly that far, and closer than before, if it
      has moved. */
  predicate TrailedTo(pos: Position, price: real, before: real, stop: real, distance: real) {
    && Behind(pos, price, stop) <= distance
    && (stop != before ==> Behind(pos, price, stop) == distance && Behind(pos, price, before) > distance)
  }

  lemma TrailPlaced(cfg: Config, pos: Position, t: Tick, s: State, distance: real)
    requires distance == cfg.trailAtrMult * t.atr
    ensures var s' := AfterTrail(cfg, pos, t, s);
            if s'.trailActive && t.atr > 0.0 then TrailedTo(pos, t.price, s.stop, s'.stop, distance)
            else s'.stop == s.stop
  {
    assert Times(cfg.trailAtrMult, t.atr) == distance;
  }

  /** Where a managed step leaves the stop. Break-even first moves it to the entry, once; an active trail then
      leaves it no further behind the price than the multiple of the range. */
  lemma StopPlaced(cfg: Config, pos: Position, t: Tick, s: State, distance: real)
    requires Managed(cfg, pos, t, s) && distance == cfg.trailAtrMult * t.atr
    ensures var s' := Next(cfg, pos, t, s);
            var before := if !s.breakevenDone && AtLeast(pos, t.price, s.initialRisk, cfg.breakevenR) then pos.entry
                          else s.stop;
            if s'.trailActive && t.atr > 0.0 then TrailedTo(pos, t.price, before, s'.stop, distance)
            else s'.stop == before
  {
    MultipleMeaning(pos, t.price, s.initialRisk, cfg.breakevenR);
    TrailPlaced(cfg, pos, t, AfterPartial(cfg, pos, t, AfterBreakEven(cfg, pos, t, s)), distance);
  }

  // --------------------------------------------------------------------------
  // The other events
  // --------------------------------------------------------------------------

  /** The partial profit is the configured percentage of the quantity. */
  lemma PartialMeaning(cfg: Config, pos: Position, t: Tick, s: State, s': State)
    requires s'.partialDone && !s.partialDone
    ensures var events := PartialEvents(cfg, pos, t, s, s');
            && |events| == 1 && events[0].kind == PartialTp && events[0].closedQty.Some?
            && events[0].closedQty.value * 100.0 == pos.qty * cfg.partialTpPct
  {
  }

  /** The liquidity warning comes exactly if both slippages are known and leaving has become more than the
      multiple, two by default, of what it was at entry. */
  lemma LiquidityMeaning(cfg: Config, pos: Position, t: Tick)
    ensures var events := LiquidityEvents(cfg, pos, t);
            var mult := if cfg.exitDegradeMult.Some? then cfg.exitDegradeMult.value else 2.0;
            if t.exitSlip.Some? && t.entrySlip.Some? && t.entrySlip.value > 0.0
               && t.exitSlip.value > mult * t.entrySlip.value
            then |events| == 1 && events[0].kind == LiquidityTighten(t.exitSlip.value, t.entrySlip.value)
            else events == []
  {
  }
}
