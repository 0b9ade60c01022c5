/** Sizing the winning plan: the least of a risk-based size and every capacity cap
    (aimos/execution/position_sizer.py). */
module PositionSizer {
  import opened Numerics
  import opened Schemas
  import opened OrderBook

  datatype Config = Config(baseRiskPct: real, scaleLo: real, scaleHi: real, scalePivot: real)

  datatype SizingInputs = SizingInputs(
    volume24hUsd: Option<real>,
    bookDepth1pctUsd: Option<real>,
    exitLevels: Option<seq<Level>>,
    mid: Option<real>,
    minNotionalUsd: real)

  datatype SizingResult = SizingResult(sizeQuote: Option<real>, reasons: seq<Reason>, rejected: bool)

  predicate HasGeometry(plan: TradePlan) {
    && !plan.action.NoTrade?
    && plan.entry.Some? && plan.entry.value != 0.0
    && plan.stopLoss.Some?
  }

  /** The fraction of the entry price that the stop puts at risk; negative for a negative entry. */
  function FracRisk(plan: TradePlan): real
    requires HasGeometry(plan)
  {
    Abs(plan.entry.value - plan.stopLoss.value) / plan.entry.value
  }

  predicate Sizable(plan: TradePlan) {
    HasGeometry(plan) && FracRisk(plan) > 0.0
  }

  /** Why a plan cannot be sized. */
  function GeometryRefusal(plan: TradePlan): Reason {
    if HasGeometry(plan) then DegenerateStop else NoGeometryToSize
  }

  function Clamp(x: real, lo: real, hi: real): (r: real)
    ensures lo <= hi ==> lo <= r <= hi
  {
    Max(lo, Min(hi, x))
  }

  function ConfidenceScale(cfg: Config, plan: TradePlan): real
    requires cfg.scalePivot != 0.0
  {
    Clamp(plan.confidence / cfg.scalePivot, cfg.scaleLo, cfg.scaleHi)
  }

  function RiskQuote(cfg: Config, plan: TradePlan, ctx: ExecContext): real
    requires cfg.scalePivot != 0.0
  {
    ShareOf(ctx.equityUsdt, cfg.baseRiskPct) * ConfidenceScale(cfg, plan)
  }

  function RiskSize(cfg: Config, plan: TradePlan, ctx: ExecContext): real
    requires cfg.scalePivot != 0.0 && Sizable(plan)
  {
    RiskQuote(cfg, plan, ctx) / FracRisk(plan)
  }

  /** The notional already open in one symbol. */
  function Exposure(positions: seq<Position>, symbol: string): real {
    if positions == [] then 0.0
    else
      var n := |positions| - 1;
      Exposure(positions[..n], symbol)
      + (if positions[n].symbol == symbol then positions[n].qty * positions[n].entry else 0.0)
  }

  /** pct percent of an amount. */
  function ShareOf(amount: real, pct: real): real {
    amount * (pct / PCT)
  }

  function ConcentrationCap(plan: TradePlan, ctx: ExecContext): real {
    Max(ShareOf(ctx.equityUsdt, ctx.caps.maxEquityPctPerAsset) - Exposure(ctx.openPositions, plan.symbol), 0.0)
  }

  // --------------------------------------------------------------------------
  // The exit-slippage cap
  // --------------------------------------------------------------------------

  const PROBES := 32

  /** size, halved until exiting it in full slips no more than bps, at most n times. */
  function HalvedUntilClear(levels: seq<Level>, mid: real, size: real, bps: real, n: nat): real
    requires ValidLevels(levels)
    decreases n
  {
    if n == 0 || Slippage(levels, size, mid) <= bps then size
    else HalvedUntilClear(levels, mid, size * 0.5, bps, n - 1)
  }

  /** size, halved n times. */
  function Halved(size: real, n: nat): real
    decreases n
  {
    if n == 0 then size else Halved(size * 0.5, n - 1)
  }

  ghost predicate Clears(levels: seq<Level>, mid: real, bps: real, size: real)
    requires ValidLevels(levels)
  {
    Slippage(levels, size, mid) <= bps
  }

  lemma {:induction false} HalvedShrinks(size: real, n: nat)
    requires size >= 0.0
    ensures 0.0 <= Halved(size, n) <= size
    decreases n
  {
    if n > 0 {
      HalvedShrinks(size * 0.5, n - 1);
    }
  }

  lemma {:induction false} HalvedUntilClearRange(levels: seq<Level>, mid: real, size: real, bps: real, n: nat)
    requires ValidLevels(levels) && size >= 0.0
    ensures Halved(size, n) <= HalvedUntilClear(levels, mid, size, bps, n) <= size
    decreases n
  {
    if n > 0 {
      HalvedShrinks(size, n);
      if Slippage(levels, size, mid) > bps {
        HalvedUntilClearRange(levels, mid, size * 0.5, bps, n - 1);
      }
    }
  }

  lemma {:induction false} HalvedUntilClearStops(levels: seq<Level>, mid: real, size: real, bps: real, n: nat)
    requires ValidLevels(levels)
    ensures var cap := HalvedUntilClear(levels, mid, size, bps, n);
            && (Clears(levels, mid, bps, cap) || cap == Halved(size, n))
            && (cap == size || !Clears(levels, mid, bps, 2.0 * cap))
    decreases n
  {
    if n > 0 && Slippage(levels, size, mid) > bps {
      HalvedUntilClearStops(levels, mid, size * 0.5, bps, n - 1);
    }
  }

  /** The cap clears the slippage limit exactly when the risk size halved 32 times does.
      The last of these sizes is never probed by the loop, and is what it returns when
      no probe clears. */
  lemma ExitCapClearsIff(side: Side, levels: seq<Level>, mid: real, size: real, bps: real, n: nat)
    requires OneSided(side, levels, mid) && size >= 0.0
    ensures Clears(levels, mid, bps, HalvedUntilClear(levels, mid, size, bps, n))
            <==> Clears(levels, mid, bps, Halved(size, n))
  {
    var cap := HalvedUntilClear(levels, mid, size, bps, n);
    HalvedUntilClearStops(levels, mid, size, bps, n);
    HalvedUntilClearRange(levels, mid, size, bps, n);
    SlippageMonotone(side, levels, mid, Halved(size, n), cap);
  }

  /** A cap below the risk size is within a factor of two of every size that clears. */
  lemma ExitCapNearLargest(side: Side, levels: seq<Level>, mid: real, size: real, bps: real, n: nat, other: real)
    requires OneSided(side, levels, mid)
    requires HalvedUntilClear(levels, mid, size, bps, n) != size
    requires Clears(levels, mid, bps, other)
    ensures other < 2.0 * HalvedUntilClear(levels, mid, size, bps, n)
  {
    var cap := HalvedUntilClear(levels, mid, size, bps, n);
    HalvedUntilClearStops(levels, mid, size, bps, n);
    if 2.0 * cap <= other {
      SlippageMonotone(side, levels, mid, 2.0 * cap, other);
    }
  }

  /** A book whose best price is too far from mid: the loop gives up on a size that slips too much. */
  lemma ExitCapMayNotClear()
    ensures var levels := [Level(90.0, 1.0)];
            && OneSided(Bids, levels, 100.0)
            && !Clears(levels, 100.0, 30.0, HalvedUntilClear(levels, 100.0, 90.0, 30.0, PROBES))
  {
    var tiny := Halved(90.0, PROBES);
    HalvedPositive(90.0, PROBES);
    SingleLevelSlips(90.0, 100.0, tiny);
    ExitCapClearsIff(Bids, [Level(90.0, 1.0)], 100.0, 90.0, 30.0, PROBES);
  }

  lemma SingleLevelSlips(price: real, mid: real, usd: real)
    requires price > 0.0 && mid > 0.0 && usd > 0.0
    ensures Slippage([Level(price, 1.0)], usd, mid) == DistanceBps(price, mid)
  {
    var filled := Buys(usd, price);
    assert filled * price == usd;
    assert Buys(usd, filled) == price;
  }

  lemma {:induction false} HalvedPositive(size: real, n: nat)
    requires size > 0.0
    ensures Halved(size, n) > 0.0
    decreases n
  {
    if n > 0 {
      HalvedPositive(size * 0.5, n - 1);
    }
  }

  predicate ExitSimulated(inputs: SizingInputs) {
    inputs.exitLevels.Some? && inputs.mid.Some?
  }

  predicate ValidInputs(inputs: SizingInputs) {
    inputs.exitLevels.Some? ==> ValidLevels(inputs.exitLevels.value)
  }

  method ExitSlippageCap(riskSize: real, inputs: SizingInputs, caps: CapacityCaps) returns (cap: Option<real>)
    requires ValidInputs(inputs)
    ensures cap == if !ExitSimulated(inputs) then None
                   else Some(HalvedUntilClear(inputs.exitLevels.value, inputs.mid.value, riskSize,
                                              caps.maxExitSlippageBps, PROBES))
  {
    if !ExitSimulated(inputs) {
      return None;
    }
    var levels, mid, bps := inputs.exitLevels.value, inputs.mid.value, caps.maxExitSlippageBps;
    var size := riskSize;
    for i := 0 to PROBES
      invariant HalvedUntilClear(levels, mid, size, bps, PROBES - i)
                == HalvedUntilClear(levels, mid, riskSize, bps, PROBES)
    {
      var slip := SimulateMarketOrder(levels, size, mid);
      if slip <= bps {
        return Some(size);
      }
      size := size * 0.5;
    }
    return Some(size);
  }

  // --------------------------------------------------------------------------
  // The minimum over all caps
  // --------------------------------------------------------------------------

  function Rank(name: CapName): nat {
    match name
    case Risk => 0
    case Concentration => 1
    case Volume => 2
    case Depth => 3
    case ExitSlippage => 4
  }

  function VolumeCap(ctx: ExecContext, inputs: SizingInputs): Option<real> {
    if inputs.volume24hUsd.None? then None
    else Some(ShareOf(inputs.volume24hUsd.value, ctx.caps.maxPctOf24hVolume))
  }

  function DepthCap(ctx: ExecContext, inputs: SizingInputs): Option<real> {
    if inputs.bookDepth1pctUsd.None? then None
    else Some(ShareOf(inputs.bookDepth1pctUsd.value, ctx.caps.maxPctOfBookDepth))
  }

  /** What each cap allows; None when its input was not supplied. */
  function CapValue(name: CapName, cfg: Config, plan: TradePlan, ctx: ExecContext, inputs: SizingInputs): Option<real>
    requires cfg.scalePivot != 0.0 && Sizable(plan) && ValidInputs(inputs)
  {
    match name
    case Risk => Some(RiskSize(cfg, plan, ctx))
    case Concentration => Some(ConcentrationCap(plan, ctx))
    case Volume => VolumeCap(ctx, inputs)
    case Depth => DepthCap(ctx, inputs)
    case ExitSlippage =>
      if !ExitSimulated(inputs) then None
      else Some(HalvedUntilClear(inputs.exitLevels.value, inputs.mid.value, RiskSize(cfg, plan, ctx),
                                 ctx.caps.maxExitSlippageBps, PROBES))
  }

  /** name is the first cap to allow the least, and size is what it allows. */
  ghost predicate Binds(name: CapName, size: real, cfg: Config, plan: TradePlan, ctx: ExecContext, inputs: SizingInputs)
    requires cfg.scalePivot != 0.0 && Sizable(plan) && ValidInputs(inputs)
  {
    && CapValue(name, cfg, plan, ctx, inputs) == Some(size)
    && forall other: CapName :: CapValue(other, cfg, plan, ctx, inputs).Some? ==>
         && size <= CapValue(other, cfg, plan, ctx, inputs).value
         && (Rank(other) < Rank(name) ==> size < CapValue(other, cfg, plan, ctx, inputs).value)
  }

  function CutReasons(name: CapName, size: real, riskSize: real): seq<Reason> {
    if name.Risk? then []
    else [SizeCut(if riskSize > 0.0 then (1.0 - size / riskSize) * PCT else 0.0, name)]
  }

  /** Why a size that binds is not worth an order. */
  function Refusal(name: CapName, size: real, riskSize: real): seq<Reason> {
    CutReasons(name, size, riskSize) + [if size <= 0.0 then NonPositiveSize else SizeBelowMinimum]
  }

  /** The caps of rank below r that were supplied, in the order of their ranks. */
  ghost predicate Lists(candidates: seq<(CapName, real)>, r: nat,
                        cfg: Config, plan: TradePlan, ctx: ExecContext, inputs: SizingInputs)
    requires cfg.scalePivot != 0.0 && Sizable(plan) && ValidInputs(inputs)
  {
    && (forall k :: 0 <= k < |candidates| ==> Rank(candidates[k].0) < r)
    && (forall k :: 0 <= k < |candidates| ==>
          CapValue(candidates[k].0, cfg, plan, ctx, inputs) == Some(candidates[k].1))
    && (forall j, k :: 0 <= j < k < |candidates| ==> Rank(candidates[j].0) < Rank(candidates[k].0))
    && (forall name: CapName :: Rank(name) < r && CapValue(name, cfg, plan, ctx, inputs).Some? ==>
          (name, CapValue(name, cfg, plan, ctx, inputs).value) in candidates)
  }

  /** One turn of the listing: the cap is appended when its input was supplied. */
  method ListCap(candidates: seq<(CapName, real)>, name: CapName, value: Option<real>,
                 ghost cfg: Config, ghost plan: TradePlan, ghost ctx: ExecContext, ghost inputs: SizingInputs)
    returns (longer: seq<(CapName, real)>)
    requires cfg.scalePivot != 0.0 && Sizable(plan) && ValidInputs(inputs)
    requires Lists(candidates, Rank(name), cfg, plan, ctx, inputs)
    requires CapValue(name, cfg, plan, ctx, inputs) == value
    ensures Lists(longer, Rank(name) + 1, cfg, plan, ctx, inputs)
    ensures |longer| >= |candidates| && (value.Some? ==> longer != [])
  {
    if value.None? {
      return candidates;
    }
    longer := candidates + [(name, value.value)];
  }

  /** min over the candidates by size: the first of the least. */
  method FirstLeast(candidates: seq<(CapName, real)>) returns (least: nat)
    requires candidates != []
    ensures least < |candidates|
    ensures forall j :: 0 <= j < |candidates| ==> candidates[least].1 <= candidates[j].1
    ensures forall j :: 0 <= j < least ==> candidates[least].1 < candidates[j].1
  {
    least := 0;
    for k := 1 to |candidates|
      invariant least < k
      invariant forall j :: 0 <= j < k ==> candidates[least].1 <= candidates[j].1
      invariant forall j :: 0 <= j < least ==> candidates[least].1 < candidates[j].1
    {
      if candidates[k].1 < candidates[least].1 {
        least := k;
      }
    }
  }

  lemma BindsUnique(n: CapName, x: real, m: CapName, y: real, cfg: Config, plan: TradePlan, ctx: ExecContext,
                    inputs: SizingInputs)
    requires cfg.scalePivot != 0.0 && Sizable(plan) && ValidInputs(inputs)
    requires Binds(n, x, cfg, plan, ctx, inputs) && Binds(m, y, cfg, plan, ctx, inputs)
    ensures n == m && x == y
  {
  }

  /** The size is positive and worth an order on the venue. */
  predicate Tradable(size: real, inputs: SizingInputs) {
    size > 0.0 && size >= inputs.minNotionalUsd
  }

  /** The two caps that are always there. */
  method OwnCaps(cfg: Config, plan: TradePlan, ctx: ExecContext, ghost inputs: SizingInputs)
    returns (candidates: seq<(CapName, real)>)
    requires cfg.scalePivot != 0.0 && Sizable(plan) && ValidInputs(inputs)
    ensures candidates != [] && Lists(candidates, 2, cfg, plan, ctx, inputs)
  {
    candidates := ListCap([], Risk, Some(RiskSize(cfg, plan, ctx)), cfg, plan, ctx, inputs);
    candidates := ListCap(candidates, Concentration, Some(ConcentrationCap(plan, ctx)), cfg, plan, ctx, inputs);
  }

  method CapCandidates(cfg: Config, plan: TradePlan, ctx: ExecContext, inputs: SizingInputs)
    returns (candidates: seq<(CapName, real)>)
    requires cfg.scalePivot != 0.0 && Sizable(plan) && ValidInputs(inputs)
    ensures candidates != [] && Lists(candidates, 5, cfg, plan, ctx, inputs)
  {
    candidates := OwnCaps(cfg, plan, ctx, inputs);
    candidates := ListCap(candidates, Volume, VolumeCap(ctx, inputs), cfg, plan, ctx, inputs);
    candidates := ListCap(candidates, Depth, DepthCap(ctx, inputs), cfg, plan, ctx, inputs);
    var exitCapped := ExitSlippageCap(RiskSize(cfg, plan, ctx), inputs, ctx.caps);
    candidates := ListCap(candidates, ExitSlippage, exitCapped, cfg, plan, ctx, inputs);
  }

  method Size(cfg: Config, c: Candidate, ctx: ExecContext, inputs: SizingInputs) returns (result: SizingResult)
    requires cfg.scalePivot != 0.0 && ValidInputs(inputs)
    modifies c
    ensures c.score == old(c.score)
    ensures result.rejected ==> c.sizeQuote == old(c.sizeQuote) && c.reasons == old(c.reasons)
    ensures !Sizable(c.proposal) ==> result == SizingResult(None, [GeometryRefusal(c.proposal)], true)
    ensures Sizable(c.proposal) ==>
              exists name, size ::
                && Binds(name, size, cfg, c.proposal, ctx, inputs)
                && result.rejected == !Tradable(size, inputs)
                && (result.rejected ==>
                      result == SizingResult(None, Refusal(name, size, RiskSize(cfg, c.proposal, ctx)), true))
                && (!result.rejected ==>
                      && result.sizeQuote == c.sizeQuote == Some(size)
                      && result.reasons == CutReasons(name, size, RiskSize(cfg, c.proposal, ctx))
                      && c.reasons == old(c.reasons) + result.reasons)
  {
    if !HasGeometry(c.proposal) {
      return SizingResult(None, [NoGeometryToSize], true);
    }
    if FracRisk(c.proposal) <= 0.0 {
      return SizingResult(None, [DegenerateStop], true);
    }
    var candidates := CapCandidates(cfg, c.proposal, ctx, inputs);
    var least := FirstLeast(candidates);
    var (binding, final) := candidates[least];
    var reasons := CutReasons(binding, final, RiskSize(cfg, c.proposal, ctx));
    assert Binds(binding, final, cfg, c.proposal, ctx, inputs);
    if final <= 0.0 {
      return SizingResult(None, reasons + [NonPositiveSize], true);
    }
    if final < inputs.minNotionalUsd {
      return SizingResult(None, reasons + [SizeBelowMinimum], true);
    }
    c.sizeQuote := Some(final);
    c.reasons := c.reasons + reasons;
    result := SizingResult(Some(final), reasons, false);
  }

  // --------------------------------------------------------------------------
  // What a size that binds guarantees
  // --------------------------------------------------------------------------

  lemma DivideTimes(x: real, y: real, d: real)
    requires d > 0.0 && x <= y / d
    ensures x * d <= y
  {
    assert y / d * d == y;
    MulMonotone(d, x, y / d);
  }

  /** The risk taken never exceeds the configured percentage of equity at full confidence. */
  lemma RiskBounded(name: CapName, size: real, cfg: Config, plan: TradePlan, ctx: ExecContext, inputs: SizingInputs)
    requires cfg.scalePivot != 0.0 && Sizable(plan) && ValidInputs(inputs)
    requires Binds(name, size, cfg, plan, ctx, inputs) && size > 0.0
    requires cfg.baseRiskPct > 0.0 && 0.0 <= cfg.scaleLo <= cfg.scaleHi
    ensures ctx.equityUsdt > 0.0
    ensures size * FracRisk(plan) / ctx.equityUsdt * PCT <= cfg.baseRiskPct * cfg.scaleHi
  {
    var equity, base, scale := ctx.equityUsdt, cfg.baseRiskPct / PCT, ConfidenceScale(cfg, plan);
    assert size <= RiskSize(cfg, plan, ctx) by {
      assert CapValue(Risk, cfg, plan, ctx, inputs) == Some(RiskSize(cfg, plan, ctx));
    }
    DivideTimes(size, RiskQuote(cfg, plan, ctx), FracRisk(plan));
    MulSign(size, FracRisk(plan));
    assert RiskQuote(cfg, plan, ctx) == equity * base * scale > 0.0;
    EquityPositive(equity, base, scale);
    RiskShare(size * FracRisk(plan), equity, base, scale, cfg.scaleHi);
    assert base * cfg.scaleHi * PCT == cfg.baseRiskPct * cfg.scaleHi;
  }

  lemma EquityPositive(equity: real, base: real, scale: real)
    requires equity * base * scale > 0.0 && base > 0.0 && scale >= 0.0
    ensures equity > 0.0
  {
    if equity <= 0.0 {
      MulMonotone(base, equity, 0.0);
      MulMonotone(scale, equity * base, 0.0);
      assert false;
    }
  }

  lemma RiskShare(risk: real, equity: real, base: real, scale: real, hi: real)
    requires equity > 0.0 && base > 0.0 && scale <= hi && risk <= equity * base * scale
    ensures risk / equity * PCT <= base * hi * PCT
  {
    var share := risk / equity;
    assert share * equity == risk;
    MulMonotone(base, scale, hi);
    var slack := base * scale - share;
    assert slack * equity == equity * base * scale - share * equity;
    MulSign(slack, equity);
  }

  /** The full exit of the final size clears the slippage limit if any halving does. */
  lemma SizeClears(name: CapName, size: real, side: Side, cfg: Config, plan: TradePlan, ctx: ExecContext,
                   inputs: SizingInputs)
    requires cfg.scalePivot != 0.0 && Sizable(plan) && ValidInputs(inputs)
    requires Binds(name, size, cfg, plan, ctx, inputs) && size > 0.0
    requires ExitSimulated(inputs) && OneSided(side, inputs.exitLevels.value, inputs.mid.value)
    requires Clears(inputs.exitLevels.value, inputs.mid.value, ctx.caps.maxExitSlippageBps,
                    Halved(RiskSize(cfg, plan, ctx), PROBES))
    ensures Clears(inputs.exitLevels.value, inputs.mid.value, ctx.caps.maxExitSlippageBps, size)
  {
    var levels, mid, bps := inputs.exitLevels.value, inputs.mid.value, ctx.caps.maxExitSlippageBps;
    var riskSize := RiskSize(cfg, plan, ctx);
    assert CapValue(Risk, cfg, plan, ctx, inputs) == Some(riskSize);
    var cap := HalvedUntilClear(levels, mid, riskSize, bps, PROBES);
    assert CapValue(ExitSlippage, cfg, plan, ctx, inputs) == Some(cap);
    ExitCapClearsIff(side, levels, mid, riskSize, bps, PROBES);
    SlippageMonotone(side, levels, mid, size, cap);
  }

  // --------------------------------------------------------------------------
  // What the caps mean, in the figures they are made from
  // --------------------------------------------------------------------------

  /** What the position loses at its stop. */
  function LossAtStop(size: real, entry: real, stop: real): real
    requires entry != 0.0
  {
    size / entry * Abs(entry - stop)
  }

  lemma LossOfFraction(size: real, plan: TradePlan)
    requires Sizable(plan)
    ensures plan.entry.value > 0.0
    ensures LossAtStop(size, plan.entry.value, plan.stopLoss.value) == size * FracRisk(plan)
  {
    var e, d := plan.entry.value, Abs(plan.entry.value - plan.stopLoss.value);
    assert FracRisk(plan) * e == d;
    MulSign(-e, FracRisk(plan));
    var u := 1.0 / e;
    assert size / e == size * u && d / e == d * u;
    assert size * u * d == size * (d * u);
  }

  /** The confidence in units of the pivot, kept within the configured range. */
  lemma ScaleMeaning(cfg: Config, plan: TradePlan)
    requires cfg.scalePivot > 0.0 && cfg.scaleLo <= cfg.scaleHi
    ensures var scale := ConfidenceScale(cfg, plan);
            && cfg.scaleLo <= scale <= cfg.scaleHi
            && (plan.confidence <= cfg.scaleLo * cfg.scalePivot ==> scale == cfg.scaleLo)
            && (plan.confidence >= cfg.scaleHi * cfg.scalePivot ==> scale == cfg.scaleHi)
            && (cfg.scaleLo * cfg.scalePivot <= plan.confidence <= cfg.scaleHi * cfg.scalePivot ==>
                  scale * cfg.scalePivot == plan.confidence)
  {
    var x := plan.confidence / cfg.scalePivot;
    assert x * cfg.scalePivot == plan.confidence;
    MulSign(x - cfg.scaleLo, cfg.scalePivot);
    MulSign(cfg.scaleLo - x, cfg.scalePivot);
    MulSign(x - cfg.scaleHi, cfg.scalePivot);
    MulSign(cfg.scaleHi - x, cfg.scalePivot);
  }

  lemma ShareMeaning(amount: real, pct: real)
    ensures ShareOf(amount, pct) * 100.0 == amount * pct
  {
  }

  /** The risk budget is the base percentage of equity, times the scale. */
  lemma BudgetMeaning(cfg: Config, plan: TradePlan, ctx: ExecContext)
    requires cfg.scalePivot != 0.0
    ensures RiskQuote(cfg, plan, ctx) * 100.0 == ctx.equityUsdt * cfg.baseRiskPct * ConfidenceScale(cfg, plan)
  {
    ShareMeaning(ctx.equityUsdt, cfg.baseRiskPct);
    var a, c := ShareOf(ctx.equityUsdt, cfg.baseRiskPct), ConfidenceScale(cfg, plan);
    assert a * c * 100.0 == a * 100.0 * c;
  }

  /** The loss at the stop is at most the base percentage of equity, scaled by confidence, and exactly that
      if no cap cuts the size. */
  lemma LossWithinBudget(name: CapName, size: real, cfg: Config, plan: TradePlan, ctx: ExecContext,
                         inputs: SizingInputs)
    requires cfg.scalePivot != 0.0 && Sizable(plan) && ValidInputs(inputs)
    requires Binds(name, size, cfg, plan, ctx, inputs)
    ensures plan.entry.value > 0.0
    ensures var loss := LossAtStop(size, plan.entry.value, plan.stopLoss.value);
            var budget := RiskQuote(cfg, plan, ctx);
            loss <= budget && (name.Risk? ==> loss == budget)
  {
    var frac, quote := FracRisk(plan), RiskQuote(cfg, plan, ctx);
    LossOfFraction(size, plan);
    assert CapValue(Risk, cfg, plan, ctx, inputs) == Some(RiskSize(cfg, plan, ctx));
    DivideTimes(size, quote, frac);
    assert quote / frac * frac == quote;
  }

  /** A position adds what it cost to the exposure of its own symbol. */
  lemma ExposureSnoc(positions: seq<Position>, p: Position, symbol: string)
    ensures Exposure(positions + [p], symbol)
            == Exposure(positions, symbol) + (if p.symbol == symbol then p.qty * p.entry else 0.0)
  {
    assert (positions + [p])[..|positions|] == positions;
  }

  /** With the trade on, what is held of its symbol is within the concentration limit, and meets it exactly
      if that limit cuts the size. */
  lemma ExposureWithinLimit(name: CapName, size: real, cfg: Config, plan: TradePlan, ctx: ExecContext,
                            inputs: SizingInputs, on: Position)
    requires cfg.scalePivot != 0.0 && Sizable(plan) && ValidInputs(inputs)
    requires Binds(name, size, cfg, plan, ctx, inputs) && size > 0.0
    requires on.symbol == plan.symbol && on.qty * on.entry == size
    ensures var held := Exposure(ctx.openPositions + [on], plan.symbol);
            var limit := ShareOf(ctx.equityUsdt, ctx.caps.maxEquityPctPerAsset);
            held <= limit && (name.Concentration? ==> held == limit)
  {
    ExposureSnoc(ctx.openPositions, on, plan.symbol);
    assert CapValue(Concentration, cfg, plan, ctx, inputs) == Some(ConcentrationCap(plan, ctx));
  }

  /** The size is within its share of the day's volume and of the book, as far as these are known, and meets
      the one that cuts it exactly. */
  lemma SizeWithinShares(name: CapName, size: real, cfg: Config, plan: TradePlan, ctx: ExecContext,
                         inputs: SizingInputs)
    requires cfg.scalePivot != 0.0 && Sizable(plan) && ValidInputs(inputs)
    requires Binds(name, size, cfg, plan, ctx, inputs)
    ensures if inputs.volume24hUsd.None? then !name.Volume? else
              var limit := ShareOf(inputs.volume24hUsd.value, ctx.caps.maxPctOf24hVolume);
              size <= limit && (name.Volume? ==> size == limit)
    ensures if inputs.bookDepth1pctUsd.None? then !name.Depth? else
              var limit := ShareOf(inputs.bookDepth1pctUsd.value, ctx.caps.maxPctOfBookDepth);
              size <= limit && (name.Depth? ==> size == limit)
  {
    assert CapValue(Volume, cfg, plan, ctx, inputs) == VolumeCap(ctx, inputs);
    assert CapValue(Depth, cfg, plan, ctx, inputs) == DepthCap(ctx, inputs);
  }

  /** The cut that is reported is the percentage of the risk size that the cap takes away. */
  lemma CutMeaning(name: CapName, size: real, riskSize: real)
    ensures name.Risk? ==> CutReasons(name, size, riskSize) == []
    ensures !name.Risk? && riskSize > 0.0 ==>
              exists pct :: CutReasons(name, size, riskSize) == [SizeCut(pct, name)]
                            && riskSize - size == riskSize * (pct / 100.0)
  {
    if !name.Risk? && riskSize > 0.0 {
      var pct := (1.0 - size / riskSize) * PCT;
      assert size / riskSize * riskSize == size;
      assert CutReasons(name, size, riskSize) == [SizeCut(pct, name)];
      assert pct / 100.0 == 1.0 - size / riskSize;
    }
  }

  function PowerOfTwo(n: nat): real {
    if n == 0 then 1.0 else 2.0 * PowerOfTwo(n - 1)
  }

  lemma {:induction false} HalvedTimes(size: real, n: nat)
    ensures Halved(size, n) * PowerOfTwo(n) == size
    decreases n
  {
    if n > 0 {
      HalvedTimes(size * 0.5, n - 1);
      var h, w := Halved(size * 0.5, n - 1), PowerOfTwo(n - 1);
      assert h * (2.0 * w) == 2.0 * (h * w);
    }
  }

  lemma {:induction false} PowerSum(m: nat, n: nat)
    ensures PowerOfTwo(m + n) == PowerOfTwo(m) * PowerOfTwo(n)
  {
    if m > 0 {
      PowerSum(m - 1, n);
    }
  }

  /** The smallest size the loop returns is the risk size over 2 to the 32nd. */
  lemma SmallestProbe(size: real)
    ensures Halved(size, PROBES) * 4294967296.0 == size
  {
    HalvedTimes(size, PROBES);
    PowerSum(1, 1);
    PowerSum(2, 2);
    PowerSum(4, 4);
    PowerSum(8, 8);
    PowerSum(16, 16);
    assert PowerOfTwo(1) == 2.0;
  }
}
