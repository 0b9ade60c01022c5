/** The simulated broker's state and operations, as values (aimos/execution/broker/paper.py,
    aimos/backtest/costs.py). */
module Broker {
  import opened Numerics
  import opened Schemas

  datatype CostModel = CostModel(takerBps: real, makerBps: real)

  /** What a broker is built with, apart from its starting equity. */
  datatype Config = Config(cost: CostModel, taker: bool, venue: string)

  datatype Bar = Bar(open: real, high: real, low: real, close: real)

  datatype Kind = Entry | Sl | Tp

  datatype Pending = Pending(plan: TradePlan, isLimit: bool)

  datatype Fill = Fill(
    decisionId: string,
    symbol: string,
    side: Action,
    qty: real,
    price: real,
    feeQuote: real,
    kind: Kind,
    venue: string,
    ts: Option<Instant>,
    pnlQuote: real,
    pnlR: real,
    maxAdverseR: real,
    maxFavorableR: real,
    plugin: string)

  datatype Outcome = Outcome(
    decisionId: string,
    exitTime: Instant,
    exitPrice: real,
    pnlR: real,
    pnlQuote: real,
    maxAdverseR: real,
    maxFavorableR: real,
    exitReason: Kind)

  /** Worst and best excursion of an open position, in R. */
  datatype Excursion = Excursion(mae: real, mfe: real)

  datatype State = State(
    cash: real,
    realized: real,
    pending: seq<Pending>,
    positions: map<string, Position>,
    fills: seq<Fill>,
    closedR: seq<real>,
    outcomes: seq<Outcome>,
    excursions: map<string, Excursion>,
    lastMark: map<string, real>)

  function Fresh(startingEquity: real): State {
    State(startingEquity, 0.0, [], map[], [], [], [], map[], map[])
  }

  /** Bars come from a market whose prices are positive. */
  predicate PositiveBar(bar: Bar) {
    bar.open > 0.0 && bar.low > 0.0
  }

  /** What a market shows: the prices of the bar lie between its low and its high. */
  predicate MarketBar(bar: Bar) {
    0.0 < bar.low <= bar.open <= bar.high && bar.low <= bar.close <= bar.high
  }

  function FeeQuote(cfg: Config, notional: real): real {
    notional * (if cfg.taker then cfg.cost.takerBps else cfg.cost.makerBps) / BPS
  }

  /** The plugins whose plans rest at a limit. */
  predicate LimitPlugin(plugin: string) {
    plugin == "Pullback" || plugin == "MeanReversion"
  }

  function OrderId(plan: TradePlan): string {
    plan.symbol + "-" + plan.plugin
  }

  function DecisionId(plan: TradePlan): string {
    if plan.decisionId.Some? && plan.decisionId.value != "" then plan.decisionId.value else OrderId(plan)
  }

  function Sign(side: Action): real {
    if side.Long? then 1.0 else -1.0
  }

  // --------------------------------------------------------------------------
  // Orders
  // --------------------------------------------------------------------------

  predicate Rejected(plan: TradePlan) {
    plan.action.NoTrade? || plan.sizeQuote.None? || plan.sizeQuote.value == 0.0
  }

  function Place(s: State, plan: TradePlan): State {
    if Rejected(plan) then s
    else s.(pending := s.pending + [Pending(plan, LimitPlugin(plan.plugin))])
  }

  function WithoutSymbol(pending: seq<Pending>, symbol: string): seq<Pending> {
    if pending == [] then []
    else
      var n := |pending| - 1;
      WithoutSymbol(pending[..n], symbol) + (if pending[n].plan.symbol != symbol then [pending[n]] else [])
  }

  function CancelAll(s: State, symbol: string): State {
    s.(pending := WithoutSymbol(s.pending, symbol))
  }

  // --------------------------------------------------------------------------
  // Fills
  // --------------------------------------------------------------------------

  /** A market order fills at the open, a limit order at its limit if the bar crosses it. */
  function FillPrice(p: Pending, bar: Bar): (price: Option<real>)
    ensures PositiveBar(bar) && price.Some? ==> price.value > 0.0
    ensures !p.isLimit ==> price == Some(bar.open)
    ensures p.isLimit && price.Some? ==> p.plan.entry == price && bar.low <= price.value <= bar.high
    ensures p.isLimit && price.None? && p.plan.entry.Some? ==> !(bar.low <= p.plan.entry.value <= bar.high)
  {
    if !p.isLimit then Some(bar.open)
    else if p.plan.entry.Some? && bar.low <= p.plan.entry.value <= bar.high then p.plan.entry
    else None
  }

  function SizeOf(plan: TradePlan): real {
    if plan.sizeQuote.Some? then plan.sizeQuote.value else 0.0
  }

  function NewPosition(plan: TradePlan, price: real, now: Instant): Position
    requires price != 0.0
  {
    Position(
      plan.symbol, "paper", if plan.action.Long? then Long else Short, SizeOf(plan) / price, price,
      if plan.stopLoss.Some? && plan.stopLoss.value != 0.0 then plan.stopLoss.value else price,
      plan.takeProfit, now, plan.plugin, DecisionId(plan), "swing")
  }

  function EntryFill(cfg: Config, pos: Position, fee: real, now: Instant): Fill {
    Fill(pos.decisionId, pos.symbol, pos.side, pos.qty, pos.entry, fee, Entry, cfg.venue, Some(now),
         0.0, 0.0, 0.0, 0.0, pos.plugin)
  }

  /** An open position of the same symbol is replaced without an exit. */
  function OpenPosition(cfg: Config, s: State, plan: TradePlan, price: real, now: Instant): State
    requires price != 0.0
  {
    var pos := NewPosition(plan, price, now);
    var fee := FeeQuote(cfg, SizeOf(plan));
    s.(cash := s.cash - fee,
       positions := s.positions[plan.symbol := pos],
       excursions := s.excursions[pos.decisionId := Excursion(0.0, 0.0)],
       fills := s.fills + [EntryFill(cfg, pos, fee, now)])
  }

  /** The orders that do not fill in this bar stay. */
  predicate Stays(p: Pending, symbol: string, bar: Bar) {
    p.plan.symbol != symbol || FillPrice(p, bar).None?
  }

  function Staying(pending: seq<Pending>, symbol: string, bar: Bar): seq<Pending> {
    if pending == [] then []
    else
      var n := |pending| - 1;
      Staying(pending[..n], symbol, bar) + (if Stays(pending[n], symbol, bar) then [pending[n]] else [])
  }

  /** The orders that fill are opened in the order they were placed. */
  function OpenAll(cfg: Config, s: State, pending: seq<Pending>, symbol: string, bar: Bar, now: Instant): State
    requires PositiveBar(bar)
    decreases |pending|
  {
    if pending == [] then s
    else
      var n := |pending| - 1;
      var before := OpenAll(cfg, s, pending[..n], symbol, bar, now);
      if Stays(pending[n], symbol, bar) then before
      else OpenPosition(cfg, before, pending[n].plan, FillPrice(pending[n], bar).value, now)
  }

  function FillPending(cfg: Config, s: State, symbol: string, bar: Bar, now: Instant): State
    requires PositiveBar(bar)
  {
    OpenAll(cfg, s, s.pending, symbol, bar, now).(pending := Staying(s.pending, symbol, bar))
  }

  lemma {:induction false} WithoutSymbolMembers(pending: seq<Pending>, symbol: string, p: Pending)
    requires p in WithoutSymbol(pending, symbol)
    ensures p in pending
  {
    var n := |pending| - 1;
    assert pending == pending[..n] + [pending[n]];
    if p in WithoutSymbol(pending[..n], symbol) {
      WithoutSymbolMembers(pending[..n], symbol, p);
    }
  }

  lemma {:induction false} StayingMembers(pending: seq<Pending>, symbol: string, bar: Bar, p: Pending)
    requires p in Staying(pending, symbol, bar)
    ensures p in pending
  {
    var n := |pending| - 1;
    assert pending == pending[..n] + [pending[n]];
    if p in Staying(pending[..n], symbol, bar) {
      StayingMembers(pending[..n], symbol, bar, p);
    }
  }

  // --------------------------------------------------------------------------
  // Excursions
  // --------------------------------------------------------------------------

  function InitialRisk(pos: Position): real {
    Abs(pos.entry - pos.stop)
  }

  /** The bar's extremes, clamped to the levels that close the position. */
  function AdversePrice(pos: Position, bar: Bar): real {
    if pos.side.Long? then Max(bar.low, pos.stop) else Min(bar.high, pos.stop)
  }

  function FavorablePrice(pos: Position, bar: Bar): real {
    var best := if pos.side.Long? then bar.high else bar.low;
    if pos.tp.None? then best
    else if pos.side.Long? then Min(best, pos.tp.value) else Max(best, pos.tp.value)
  }

  /** A price as a multiple of the position's initial risk. */
  function InR(pos: Position, price: real): real
    requires InitialRisk(pos) != 0.0
  {
    (if pos.side.Long? then price - pos.entry else pos.entry - price) / InitialRisk(pos)
  }

  function ExcursionOf(s: State, id: string): Excursion {
    if id in s.excursions then s.excursions[id] else Excursion(0.0, 0.0)
  }

  function Widened(e: Excursion, adverse: real, favorable: real): Excursion {
    Excursion(Min(e.mae, adverse), Max(e.mfe, favorable))
  }

  function UpdateExcursions(s: State, symbol: string, bar: Bar): State {
    if symbol !in s.positions || InitialRisk(s.positions[symbol]) <= 0.0 then s
    else
      var pos := s.positions[symbol];
      s.(excursions := s.excursions[pos.decisionId :=
           Widened(ExcursionOf(s, pos.decisionId),
                   InR(pos, AdversePrice(pos, bar)), InR(pos, FavorablePrice(pos, bar)))])
  }

  // --------------------------------------------------------------------------
  // Exits
  // --------------------------------------------------------------------------

  datatype Exit = Exit(price: real, kind: Kind)

  /** The stop is checked first. */
  function ExitOf(pos: Position, bar: Bar): Option<Exit> {
    if pos.side.Long? && bar.low <= pos.stop then Some(Exit(pos.stop, Sl))
    else if !pos.side.Long? && bar.high >= pos.stop then Some(Exit(pos.stop, Sl))
    else if pos.tp.Some? && pos.side.Long? && bar.high >= pos.tp.value then Some(Exit(pos.tp.value, Tp))
    else if pos.tp.Some? && !pos.side.Long? && bar.low <= pos.tp.value then Some(Exit(pos.tp.value, Tp))
    else None
  }

  function ExitFee(cfg: Config, pos: Position, price: real): real {
    FeeQuote(cfg, pos.qty * price)
  }

  function ExitPnl(cfg: Config, pos: Position, price: real): real {
    (price - pos.entry) * pos.qty * Sign(pos.side) - ExitFee(cfg, pos, price)
  }

  function RiskQuote(pos: Position): real {
    pos.qty * InitialRisk(pos)
  }

  function PnlR(cfg: Config, pos: Position, price: real): real {
    if RiskQuote(pos) > 0.0 then ExitPnl(cfg, pos, price) / RiskQuote(pos) else 0.0
  }

  function ExitOutcome(cfg: Config, pos: Position, exit: Exit, e: Excursion, now: Instant): Outcome {
    Outcome(pos.decisionId, now, exit.price, PnlR(cfg, pos, exit.price), ExitPnl(cfg, pos, exit.price),
            e.mae, e.mfe, exit.kind)
  }

  function ExitFill(cfg: Config, pos: Position, exit: Exit, e: Excursion, now: Instant): Fill {
    Fill(pos.decisionId, pos.symbol, pos.side, pos.qty, exit.price, ExitFee(cfg, pos, exit.price), exit.kind,
         cfg.venue, Some(now), ExitPnl(cfg, pos, exit.price), PnlR(cfg, pos, exit.price), e.mae, e.mfe, pos.plugin)
  }

  function Close(cfg: Config, s: State, pos: Position, exit: Exit, now: Instant): State {
    var pnl := ExitPnl(cfg, pos, exit.price);
    var e := ExcursionOf(s, pos.decisionId);
    s.(cash := s.cash + pnl,
       realized := s.realized + pnl,
       closedR := if RiskQuote(pos) > 0.0 then s.closedR + [PnlR(cfg, pos, exit.price)] else s.closedR,
       excursions := s.excursions - {pos.decisionId},
       outcomes := s.outcomes + [ExitOutcome(cfg, pos, exit, e, now)],
       fills := s.fills + [ExitFill(cfg, pos, exit, e, now)],
       positions := s.positions - {pos.symbol})
  }

  function CheckExits(cfg: Config, s: State, symbol: string, bar: Bar, now: Instant): State {
    if symbol !in s.positions || ExitOf(s.positions[symbol], bar).None? then s
    else Close(cfg, s, s.positions[symbol], ExitOf(s.positions[symbol], bar).value, now)
  }

  /** The state once a bar's orders have filled. */
  function AfterFills(cfg: Config, s: State, symbol: string, bar: Bar, now: Instant): State
    requires PositiveBar(bar)
  {
    FillPending(cfg, s.(lastMark := s.lastMark[symbol := bar.close]), symbol, bar, now)
  }

  /** The state in which a bar's exits are decided. */
  function BeforeExits(cfg: Config, s: State, symbol: string, bar: Bar, now: Instant): State
    requires PositiveBar(bar)
  {
    UpdateExcursions(AfterFills(cfg, s, symbol, bar, now), symbol, bar)
  }

  function Step(cfg: Config, s: State, symbol: string, bar: Bar, now: Instant): State
    requires PositiveBar(bar)
  {
    CheckExits(cfg, BeforeExits(cfg, s, symbol, bar, now), symbol, bar, now)
  }

  // --------------------------------------------------------------------------
  // Funding
  // --------------------------------------------------------------------------

  function FundingCostBps(rateBps: real, minutes: real, sign: real): real {
    rateBps * (minutes / 480.0) * sign
  }

  /** What the position in a symbol pays, or receives, for a stretch of funding. */
  function FundingCharge(s: State, symbol: string, rateBps: real, minutes: real): real {
    if symbol !in s.positions then 0.0
    else
      var pos := s.positions[symbol];
      var mark := if symbol in s.lastMark then s.lastMark[symbol] else pos.entry;
      pos.qty * mark * FundingCostBps(rateBps, minutes, Sign(pos.side)) / BPS
  }

  function ApplyFunding(s: State, symbol: string, rateBps: real, minutes: real): State {
    s.(cash := s.cash - FundingCharge(s, symbol, rateBps, minutes))
  }

  function DrainOutcomes(s: State): State {
    s.(outcomes := [])
  }

  // --------------------------------------------------------------------------
  // Runs
  // --------------------------------------------------------------------------

  datatype Op =
    | PlaceOp(plan: TradePlan)
    | CancelOp(symbol: string)
    | StepOp(symbol: string, bar: Bar, now: Instant)
    | FundingOp(symbol: string, rateBps: real, minutes: real)
    | DrainOp

  predicate Allowed(op: Op) {
    op.StepOp? ==> PositiveBar(op.bar)
  }

  function Do(cfg: Config, s: State, op: Op): State
    requires Allowed(op)
  {
    match op
    case PlaceOp(plan) => Place(s, plan)
    case CancelOp(symbol) => CancelAll(s, symbol)
    case StepOp(symbol, bar, now) => Step(cfg, s, symbol, bar, now)
    case FundingOp(symbol, rateBps, minutes) => ApplyFunding(s, symbol, rateBps, minutes)
    case DrainOp => DrainOutcomes(s)
  }

  ghost predicate AllAllowed(ops: seq<Op>) {
    forall op :: op in ops ==> Allowed(op)
  }

  ghost function Run(cfg: Config, s: State, ops: seq<Op>): State
    requires AllAllowed(ops)
  {
    if ops == [] then s else Do(cfg, Run(cfg, s, ops[..|ops| - 1]), ops[|ops| - 1])
  }
}
