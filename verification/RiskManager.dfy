/** The portfolio's hard gates (aimos/execution/risk_manager.py). */
module RiskManager {
  import opened Schemas

  datatype Config = Config(
    riskScoreVeto: real,
    dailyStopPct: real,
    maxPositions: int,
    maxPortfolioHeatPct: real,
    maxCorrelatedBucketPct: real,
    maxEquityPctPerAsset: real,
    maxBucketPct: real,
    reserveFloorPct: real)

  datatype RiskState = RiskState(
    openRiskPct: real,
    openPositions: int,
    dayPnlPct: real,
    killSwitch: bool,
    isTier1: bool,
    isCrossVenue: bool,
    intersectionOk: bool,
    protectionLocked: bool,
    bucketRiskPct: real,
    perAssetAllocPct: real,
    bucketAllocPct: real,
    reservePct: real)

  const DEFAULT_STATE := RiskState(0.0, 0, 0.0, false, true, false, true, false, 0.0, 0.0, 0.0, PCT)

  datatype RiskDecision = Passed(plan: TradePlan) | Vetoed(plan: TradePlan, gate: Gate)

  /** The notional a plan adds, in percent of equity. */
  function AllocPct(plan: TradePlan, ctx: ExecContext): real {
    if plan.sizeQuote.None? || plan.sizeQuote.value == 0.0 || ctx.equityUsdt <= 0.0 then 0.0
    else plan.sizeQuote.value / ctx.equityUsdt * PCT
  }

  function VetoPlan(plan: TradePlan, gate: Gate): RiskDecision {
    Vetoed(NoTradePlan(plan.plugin, plan.symbol, 0.0, plan.reasons + [Veto(gate)]), gate)
  }

  predicate VetoExempt(plugin: string) {
    plugin == "RiskOff" || plugin == "SmartDCA"
  }

  function Check(cfg: Config, plan: TradePlan, mu: MarketUnderstanding, ctx: ExecContext, state: RiskState,
                 newRiskPct: real): RiskDecision {
    if state.killSwitch then VetoPlan(plan, KillSwitch)
    else if plan.action.NoTrade? then Passed(plan)
    else if mu.riskScore > cfg.riskScoreVeto && !VetoExempt(plan.plugin) then VetoPlan(plan, RiskScore)
    else if state.protectionLocked then VetoPlan(plan, ProtectionLock)
    else if !state.isTier1 then VetoPlan(plan, TierOne)
    else if state.isCrossVenue && !state.intersectionOk then VetoPlan(plan, Intersection)
    else if state.dayPnlPct <= -cfg.dailyStopPct then VetoPlan(plan, DailyStop)
    else if state.openPositions >= cfg.maxPositions then VetoPlan(plan, MaxPositions)
    else if state.openRiskPct + newRiskPct > cfg.maxPortfolioHeatPct then VetoPlan(plan, PortfolioHeat)
    else if state.bucketRiskPct + newRiskPct > cfg.maxCorrelatedBucketPct then VetoPlan(plan, BucketRisk)
    else
      var newAlloc := AllocPct(plan, ctx);
      if state.perAssetAllocPct + newAlloc > cfg.maxEquityPctPerAsset then VetoPlan(plan, AssetAllocation)
      else if state.bucketAllocPct + newAlloc > cfg.maxBucketPct then VetoPlan(plan, BucketAllocation)
      else if state.reservePct - newAlloc < cfg.reserveFloorPct then VetoPlan(plan, ReserveFloor)
      else Passed(plan)
  }

  // --------------------------------------------------------------------------
  // What the gates are for
  // --------------------------------------------------------------------------

  /** The portfolio once the plan is on. */
  function After(state: RiskState, plan: TradePlan, ctx: ExecContext, newRiskPct: real): RiskState {
    var newAlloc := AllocPct(plan, ctx);
    state.(openRiskPct := state.openRiskPct + newRiskPct,
           openPositions := state.openPositions + 1,
           bucketRiskPct := state.bucketRiskPct + newRiskPct,
           perAssetAllocPct := state.perAssetAllocPct + newAlloc,
           bucketAllocPct := state.bucketAllocPct + newAlloc,
           reservePct := state.reservePct - newAlloc)
  }

  /** Heat, positions, bucket risk, allocations and reserve are all within their limits. */
  predicate WithinLimits(cfg: Config, state: RiskState) {
    && state.openRiskPct <= cfg.maxPortfolioHeatPct
    && state.openPositions <= cfg.maxPositions
    && state.bucketRiskPct <= cfg.maxCorrelatedBucketPct
    && state.perAssetAllocPct <= cfg.maxEquityPctPerAsset
    && state.bucketAllocPct <= cfg.maxBucketPct
    && state.reservePct >= cfg.reserveFloorPct
  }

  /** Nothing about the market, the asset or the day forbids a trade. */
  predicate Open(cfg: Config, plan: TradePlan, mu: MarketUnderstanding, state: RiskState) {
    && !state.killSwitch
    && (mu.riskScore <= cfg.riskScoreVeto || VetoExempt(plan.plugin))
    && !state.protectionLocked
    && state.isTier1
    && (state.isCrossVenue ==> state.intersectionOk)
    && state.dayPnlPct > -cfg.dailyStopPct
  }

  /** A trade passes exactly when nothing forbids it and the portfolio stays within all limits. */
  lemma CheckMeaning(cfg: Config, plan: TradePlan, mu: MarketUnderstanding, ctx: ExecContext, state: RiskState,
                     newRiskPct: real)
    requires !plan.action.NoTrade?
    ensures Check(cfg, plan, mu, ctx, state, newRiskPct) == Passed(plan)
            <==> Open(cfg, plan, mu, state) && WithinLimits(cfg, After(state, plan, ctx, newRiskPct))
    ensures Check(cfg, plan, mu, ctx, state, newRiskPct).Vetoed?
            <==> Check(cfg, plan, mu, ctx, state, newRiskPct) != Passed(plan)
  {
  }

  /** A veto stands aside, keeps the plan's reasons and adds its own. */
  lemma VetoMeaning(cfg: Config, plan: TradePlan, mu: MarketUnderstanding, ctx: ExecContext, state: RiskState,
                    newRiskPct: real)
    ensures var d := Check(cfg, plan, mu, ctx, state, newRiskPct);
            && (d.plan == plan || (d.plan.action.NoTrade? && exists g :: d.plan.reasons == plan.reasons + [Veto(g)]))
            && (state.killSwitch ==> d == VetoPlan(plan, KillSwitch))
  {
    var d := Check(cfg, plan, mu, ctx, state, newRiskPct);
    if d.Vetoed? {
      assert d.plan.reasons == plan.reasons + [Veto(d.gate)];
    }
  }

  /** The order in which the gates are tried. */
  function GateRank(gate: Gate): nat {
    match gate
    case KillSwitch => 0
    case RiskScore => 1
    case ProtectionLock => 2
    case TierOne => 3
    case Intersection => 4
    case DailyStop => 5
    case MaxPositions => 6
    case PortfolioHeat => 7
    case BucketRisk => 8
    case AssetAllocation => 9
    case BucketAllocation => 10
    case ReserveFloor => 11
  }

  /** What a gate is there to stop, by the portfolio as it would be with the trade on. */
  predicate Stops(gate: Gate, cfg: Config, plan: TradePlan, mu: MarketUnderstanding, state: RiskState,
                  after: RiskState) {
    match gate
    case KillSwitch => state.killSwitch
    case RiskScore => mu.riskScore > cfg.riskScoreVeto && plan.plugin != "RiskOff" && plan.plugin != "SmartDCA"
    case ProtectionLock => state.protectionLocked
    case TierOne => !state.isTier1
    case Intersection => state.isCrossVenue && !state.intersectionOk
    case DailyStop => state.dayPnlPct <= -cfg.dailyStopPct
    case MaxPositions => after.openPositions > cfg.maxPositions
    case PortfolioHeat => after.openRiskPct > cfg.maxPortfolioHeatPct
    case BucketRisk => after.bucketRiskPct > cfg.maxCorrelatedBucketPct
    case AssetAllocation => after.perAssetAllocPct > cfg.maxEquityPctPerAsset
    case BucketAllocation => after.bucketAllocPct > cfg.maxBucketPct
    case ReserveFloor => after.reservePct < cfg.reserveFloorPct
  }

  /** A veto names the first gate, in their order, that has something to stop. */
  lemma VetoNamesFirst(cfg: Config, plan: TradePlan, mu: MarketUnderstanding, ctx: ExecContext, state: RiskState,
                       newRiskPct: real, gate: Gate)
    requires !plan.action.NoTrade?
    ensures var d := Check(cfg, plan, mu, ctx, state, newRiskPct);
            var after := After(state, plan, ctx, newRiskPct);
            d.Vetoed? && d.gate == gate
            <==> && Stops(gate, cfg, plan, mu, state, after)
                 && forall g: Gate :: GateRank(g) < GateRank(gate) ==> !Stops(g, cfg, plan, mu, state, after)
  {
    var d := Check(cfg, plan, mu, ctx, state, newRiskPct);
    var after := After(state, plan, ctx, newRiskPct);
    if d.Vetoed? {
      VetoedByFirst(cfg, plan, mu, ctx, state, newRiskPct);
      assert GateRank(gate) < GateRank(d.gate) || gate == d.gate || GateRank(d.gate) < GateRank(gate);
    } else {
      CheckMeaning(cfg, plan, mu, ctx, state, newRiskPct);
    }
  }

  lemma VetoedByFirst(cfg: Config, plan: TradePlan, mu: MarketUnderstanding, ctx: ExecContext, state: RiskState,
                      newRiskPct: real)
    requires !plan.action.NoTrade? && Check(cfg, plan, mu, ctx, state, newRiskPct).Vetoed?
    ensures var gate := Check(cfg, plan, mu, ctx, state, newRiskPct).gate;
            var after := After(state, plan, ctx, newRiskPct);
            && Stops(gate, cfg, plan, mu, state, after)
            && forall g: Gate :: GateRank(g) < GateRank(gate) ==> !Stops(g, cfg, plan, mu, state, after)
  {
  }

  /** In money: the trade's notional goes onto its asset and its bucket and comes out of the reserve. */
  lemma AllocationMeaning(state: RiskState, plan: TradePlan, ctx: ExecContext, newRiskPct: real)
    requires ctx.equityUsdt > 0.0 && plan.sizeQuote.Some?
    ensures var after := After(state, plan, ctx, newRiskPct);
            && (after.perAssetAllocPct - state.perAssetAllocPct) / 100.0 * ctx.equityUsdt == plan.sizeQuote.value
            && (after.bucketAllocPct - state.bucketAllocPct) / 100.0 * ctx.equityUsdt == plan.sizeQuote.value
            && (state.reservePct - after.reservePct) / 100.0 * ctx.equityUsdt == plan.sizeQuote.value
  {
    var share := plan.sizeQuote.value / ctx.equityUsdt;
    assert share * ctx.equityUsdt == plan.sizeQuote.value;
  }
}
