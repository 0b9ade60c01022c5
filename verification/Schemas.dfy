/** The data contracts the components share (aimos/core/schemas.py, aimos/core/normalize.py). */
module Schemas {

  datatype Option<+T> = None | Some(value: T)

  const PCT := 100.0
  const BPS := 10000.0

  /** A point in time, in microseconds. */
  type Instant = int

  datatype Action = Long | Short | NoTrade

  /** The names of the sizer's caps, in the order it tries them. */
  datatype CapName = Risk | Concentration | Volume | Depth | ExitSlippage

  /** The risk manager's gates. */
  datatype Gate =
    | KillSwitch
    | RiskScore
    | ProtectionLock
    | TierOne
    | Intersection
    | DailyStop
    | MaxPositions
    | PortfolioHeat
    | BucketRisk
    | AssetAllocation
    | BucketAllocation
    | ReserveFloor

  /** What the pipeline writes into a plan's list of reasons. */
  datatype Reason =
    | Note(text: string)
    | NoStopGeometry
    | CostsTooHigh
    | EvNotPositive(ev: real)
    | NoPositiveEvCandidate
    | NoGeometryToSize
    | DegenerateStop
    | SizeCut(pct: real, cap: CapName)
    | NonPositiveSize
    | SizeBelowMinimum
    | Veto(gate: Gate)

  datatype TradePlan = TradePlan(
    plugin: string,
    symbol: string,
    action: Action,
    entry: Option<real>,
    stopLoss: Option<real>,
    takeProfit: Option<real>,
    sizeQuote: Option<real>,
    expectedRr: Option<real>,
    expectedCostsBps: real,
    confidence: real,
    score: real,
    reasons: seq<Reason>,
    decisionId: Option<string>)

  /** A plan that trades nothing, everything else at its default. */
  function NoTradePlan(plugin: string, symbol: string, score: real, reasons: seq<Reason>): TradePlan {
    TradePlan(plugin, symbol, NoTrade, None, None, None, None, None, 0.0, 0.0, score, reasons, None)
  }

  datatype Position = Position(
    symbol: string,
    venue: string,
    side: Action,
    qty: real,
    entry: real,
    stop: real,
    tp: Option<real>,
    openedAt: Instant,
    plugin: string,
    decisionId: string,
    modeTag: string)

  datatype Direction = Bullish | Bearish | Neutral

  datatype Regime = TrendingUp | TrendingDown | Ranging | Breakout | Crash | Recovery

  datatype Behavior =
    | Accumulation
    | Distribution
    | Continuation
    | Manipulation
    | Capitulation
    | Panic
    | Euphoria
    | Unclear

  datatype MarketUnderstanding = MarketUnderstanding(
    symbol: string,
    opportunityScore: real,
    riskScore: real,
    directionBias: Direction,
    confidence: real,
    regime: Regime,
    behavior: Behavior)

  datatype CapacityCaps = CapacityCaps(
    maxEquityPctPerAsset: real,
    maxPctOf24hVolume: real,
    maxPctOfBookDepth: real,
    maxExitSlippageBps: real)

  datatype ExecContext = ExecContext(equityUsdt: real, openPositions: seq<Position>, caps: CapacityCaps)

  /** A plan as the execution layer holds it: what the plugin proposed, and the fields
      that are filled in as the plan moves from the evaluator to the sizer. */
  class Candidate {
    const proposal: TradePlan
    var score: real
    var sizeQuote: Option<real>
    var reasons: seq<Reason>

    constructor (proposal: TradePlan)
      ensures this.proposal == proposal && score == proposal.score
      ensures sizeQuote == proposal.sizeQuote && reasons == proposal.reasons
    {
      this.proposal := proposal;
      score, sizeQuote, reasons := proposal.score, proposal.sizeQuote, proposal.reasons;
    }

    function Plan(): TradePlan
      reads this
    {
      proposal.(score := score, sizeQuote := sizeQuote, reasons := reasons)
    }
  }
}
