/** How the simulated broker decides on exits, what they pay, what a bar that closes nothing leaves of the
    excursions, and what funding costs (aimos/execution/broker/paper.py, aimos/backtest/costs.py). */
module BrokerExits {
  import opened Numerics
  import opened Schemas
  import opened Broker
  import opened BrokerExcursions
  import opened BrokerOrders

  predicate StopReached(pos: Position, bar: Bar) {
    if pos.side == Long then bar.low <= pos.stop else bar.high >= pos.stop
  }

  predicate TargetReached(pos: Position, bar: Bar) {
    pos.tp.Some? && if pos.side == Long then bar.high >= pos.tp.value else bar.low <= pos.tp.value
  }

  /** How far the price has moved in the position's favour. */
  function GainTo(pos: Position, price: real): real {
    if pos.side == Long then price - pos.entry else pos.entry - price
  }

  /** The position has been closed at the price for the reason: it is gone, the last outcome is its own, and
      the profit, less the exit fee, is in the outcome, the cash and the realized profit. */
  ghost predicate ClosedAt(cfg: Config, held: State, s': State, pos: Position, price: real, kind: Kind, now: Instant) {
    && s'.positions == held.positions - {pos.symbol}
    && |s'.outcomes| == |held.outcomes| + 1 && held.outcomes <= s'.outcomes
    && var o := s'.outcomes[|held.outcomes|];
       && o.exitReason == kind && o.exitPrice == price && o.decisionId == pos.decisionId && o.exitTime == now
       && o.pnlQuote == GainTo(pos, price) * pos.qty - FeeAt(cfg, pos.qty * price)
       && s'.cash == held.cash + o.pnlQuote && s'.realized == held.realized + o.pnlQuote
       && s'.closedR == if pos.qty * Abs(pos.entry - pos.stop) > 0.0 then held.closedR + [o.pnlR] else held.closedR
  }

  lemma ProfitMeaning(cfg: Config, pos: Position, price: real)
    ensures ExitPnl(cfg, pos, price) == GainTo(pos, price) * pos.qty - FeeAt(cfg, pos.qty * price)
  {
    assert (price - pos.entry) * pos.qty * -1.0 == (pos.entry - price) * pos.qty;
  }

  lemma CloseIsClosed(cfg: Config, held: State, b: State, pos: Position, exit: Exit, now: Instant)
    requires b == held.(excursions := b.excursions)
    ensures ClosedAt(cfg, held, Close(cfg, b, pos, exit, now), pos, exit.price, exit.kind, now)
  {
    ProfitMeaning(cfg, pos, exit.price);
  }

  lemma ExitRule(pos: Position, bar: Bar)
    ensures ExitOf(pos, bar) == if StopReached(pos, bar) then Some(Exit(pos.stop, Sl))
                                else if TargetReached(pos, bar) then Some(Exit(pos.tp.value, Tp))
                                else None
  {
  }

  /** The stop comes first. A position whose stop the bar reaches is closed there, whatever its target; one
      whose stop it does not reach is closed at its target if the bar reaches that; and one is left as it is
      exactly if the bar reaches neither. */
  lemma ExitsDecided(cfg: Config, s: State, symbol: string, bar: Bar, now: Instant)
    requires Sane(s) && PositiveBar(bar)
    ensures var held, s' := AfterFills(cfg, s, symbol, bar, now), Step(cfg, s, symbol, bar, now);
            if symbol !in held.positions then s' == held
            else
              var pos := held.positions[symbol];
              && pos.symbol == symbol
              && if StopReached(pos, bar) then ClosedAt(cfg, held, s', pos, pos.stop, Sl, now)
                 else if TargetReached(pos, bar) then ClosedAt(cfg, held, s', pos, pos.tp.value, Tp, now)
                 else s' == held.(excursions := s'.excursions)
  {
    StepIsSane(cfg, s, symbol, bar, now);
    var held, b := AfterFills(cfg, s, symbol, bar, now), BeforeExits(cfg, s, symbol, bar, now);
    assert b == held.(excursions := b.excursions);
    if symbol in held.positions {
      var pos := held.positions[symbol];
      ExitRule(pos, bar);
      if ExitOf(pos, bar).Some? {
        CloseIsClosed(cfg, held, b, pos, ExitOf(pos, bar).value, now);
      }
    }
  }

  /** A close is also counted in R, if the position has a risk. */
  lemma ResultInR(cfg: Config, pos: Position, price: real)
    requires pos.qty * Abs(pos.entry - pos.stop) > 0.0
    ensures PnlR(cfg, pos, price) * (pos.qty * Abs(pos.entry - pos.stop)) == ExitPnl(cfg, pos, price)
  {
  }

  // --------------------------------------------------------------------------
  // A bar that closes nothing
  // --------------------------------------------------------------------------

  /** It widens the position's excursion to its own low and high, in R. */
  lemma OpenBarWidens(cfg: Config, s: State, symbol: string, bar: Bar, now: Instant)
    requires PositiveBar(bar) && symbol in AfterFills(cfg, s, symbol, bar, now).positions
    requires var pos := AfterFills(cfg, s, symbol, bar, now).positions[symbol];
             pos.entry != pos.stop && !StopReached(pos, bar) && !TargetReached(pos, bar)
    ensures var held, s' := AfterFills(cfg, s, symbol, bar, now), Step(cfg, s, symbol, bar, now);
            var pos := held.positions[symbol];
            var before, risk := ExcursionOf(held, pos.decisionId), Abs(pos.entry - pos.stop);
            var worst, best := if pos.side == Long then bar.low else bar.high,
                               if pos.side == Long then bar.high else bar.low;
            && risk > 0.0
            && ExcursionOf(s', pos.decisionId)
               == Excursion(Min(before.mae, GainTo(pos, worst) / risk), Max(before.mfe, GainTo(pos, best) / risk))
            && forall id :: id != pos.decisionId ==> ExcursionOf(s', id) == ExcursionOf(held, id)
  {
  }

  // --------------------------------------------------------------------------
  // Funding
  // --------------------------------------------------------------------------

  /** Over one interval of eight hours a long pays the rate on its marked notional, and a short receives it;
      without a position there is nothing to pay. Shorter and longer stretches are charged in proportion. */
  lemma FundingMeaning(s: State, symbol: string, rateBps: real, minutes: real)
    ensures symbol !in s.positions ==> ApplyFunding(s, symbol, rateBps, minutes) == s
    ensures symbol in s.positions ==>
              var pos := s.positions[symbol];
              var notional := pos.qty * if symbol in s.lastMark then s.lastMark[symbol] else pos.entry;
              var paid := s.cash - ApplyFunding(s, symbol, rateBps, 480.0).cash;
              && paid == (if pos.side == Long then notional * rateBps / 10000.0 else -(notional * rateBps / 10000.0))
              && s.cash - ApplyFunding(s, symbol, rateBps, minutes).cash == paid * (minutes / 480.0)
    ensures ApplyFunding(s, symbol, rateBps, minutes)
            == s.(cash := ApplyFunding(s, symbol, rateBps, minutes).cash)
  {
  }
}
