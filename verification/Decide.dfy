/** The decision gate: propose, evaluate, size, check (aimos/execution/decide.py). */
module Decide {
  import opened Numerics
  import opened Schemas
  import E = Evaluator
  import S = PositionSizer
  import R = RiskManager
  import B = OrderBook

  const NO_INPUTS := S.SizingInputs(None, None, None, None, 0.0)

  function NewRiskPct(plan: TradePlan, ctx: ExecContext): real {
    if plan.sizeQuote.None? || plan.sizeQuote.value == 0.0 || plan.entry.None? || plan.entry.value == 0.0
       || plan.stopLoss.None? || ctx.equityUsdt <= 0.0
    then 0.0
    else plan.sizeQuote.value * (Abs(plan.entry.value - plan.stopLoss.value) / plan.entry.value) / ctx.equityUsdt * PCT
  }

  /** The proposal with its score, its size and the reason for the size filled in. */
  function Sized(ecfg: E.Config, scfg: S.Config, mu: MarketUnderstanding, ctx: ExecContext, proposal: TradePlan,
                 name: CapName, size: real): TradePlan
    requires scfg.scalePivot != 0.0 && S.Sizable(proposal) && E.Screen(ecfg, mu, proposal).Kept?
  {
    proposal.(score := E.Screen(ecfg, mu, proposal).score,
              sizeQuote := Some(size),
              reasons := proposal.reasons + S.CutReasons(name, size, S.RiskSize(scfg, proposal, ctx)))
  }

  /** All that a decision depends on, apart from the proposals. */
  datatype Setting = Setting(ecfg: E.Config, scfg: S.Config, rcfg: R.Config, mu: MarketUnderstanding,
                             ctx: ExecContext, inputs: S.SizingInputs, state: R.RiskState)
  {
    predicate Valid() {
      scfg.scalePivot != 0.0 && S.ValidInputs(inputs)
    }
  }

  /** plan is proposal i of the plugins, approved at every stage: it won the evaluation, the
      named cap set its size, the size is worth an order, and the portfolio may take it. */
  ghost predicate Approved(on: Setting, proposals: seq<Candidate>, i: nat, name: CapName, size: real, plan: TradePlan)
    requires on.Valid()
  {
    && E.Taken(on.ecfg, on.mu, proposals, i)
    && S.Sizable(proposals[i].proposal)
    && S.Binds(name, size, on.scfg, proposals[i].proposal, on.ctx, on.inputs) && S.Tradable(size, on.inputs)
    && plan == Sized(on.ecfg, on.scfg, on.mu, on.ctx, proposals[i].proposal, name, size)
    && R.Open(on.rcfg, plan, on.mu, on.state)
    && R.WithinLimits(on.rcfg, R.After(on.state, plan, on.ctx, NewRiskPct(plan, on.ctx)))
  }

  /** The trade to take always has geometry to size: the evaluator has seen to it. */
  lemma TakenIsSizable(on: Setting, proposals: seq<Candidate>, i: nat)
    requires E.Taken(on.ecfg, on.mu, proposals, i)
    ensures S.Sizable(proposals[i].proposal)
  {
    E.TakenIsSound(on.ecfg, on.mu, proposals, i);
    var p := proposals[i].proposal;
    assert E.RiskBps(p) == S.FracRisk(p) * BPS;
  }

  /** plan is what comes out when proposal i is the trade to take but is not approved: it stands
      aside, and adds to the proposal's reasons why. */
  ghost predicate Refused(on: Setting, proposals: seq<Candidate>, i: nat, plan: TradePlan)
    requires on.Valid() && E.Taken(on.ecfg, on.mu, proposals, i) && S.Sizable(proposals[i].proposal)
  {
    exists name, size :: RefusedAt(on, proposals[i].proposal, name, size, plan)
  }

  ghost predicate RefusedAt(on: Setting, p: TradePlan, name: CapName, size: real, plan: TradePlan)
    requires on.Valid() && S.Sizable(p) && E.Screen(on.ecfg, on.mu, p).Kept?
  {
    && S.Binds(name, size, on.scfg, p, on.ctx, on.inputs)
    && if S.Tradable(size, on.inputs)
       then plan == Vetoed(on, p, name, size)
       else plan == NoTradePlan(p.plugin, on.mu.symbol, 0.0,
                                p.reasons + S.Refusal(name, size, S.RiskSize(on.scfg, p, on.ctx)))
  }

  /** What the risk manager makes of the sized proposal. */
  function Vetoed(on: Setting, p: TradePlan, name: CapName, size: real): TradePlan
    requires on.Valid() && S.Sizable(p) && E.Screen(on.ecfg, on.mu, p).Kept?
  {
    var sized := Sized(on.ecfg, on.scfg, on.mu, on.ctx, p, name, size);
    R.Check(on.rcfg, sized, on.mu, on.ctx, on.state, NewRiskPct(sized, on.ctx)).plan
  }

  /** A proposal that stands aside, as the evaluator leaves it. */
  function Aside(on: Setting, proposal: TradePlan): TradePlan {
    proposal.(score := on.ecfg.noTradeBaseline)
  }

  /** plan stands aside: as the best proposal does; as the last one to do so does, if the best one is a
      trade that falls short; or because no proposal does. */
  ghost predicate StandsAside(on: Setting, proposals: seq<Candidate>, plan: TradePlan) {
    if E.NoneAside(proposals, |proposals|)
    then plan == if proposals == [] then NoTradePlan("RiskOff", on.mu.symbol, on.ecfg.noTradeBaseline, [])
                 else E.SyntheticNoTrade(on.ecfg, on.mu)
    else
      && (exists i :: 0 <= i < |proposals| && proposals[i].proposal.action.NoTrade?
                      && plan == Aside(on, proposals[i].proposal))
      && (forall i: nat :: E.Best(on.ecfg, on.mu, proposals, i) && proposals[i].proposal.action.NoTrade? ==>
            plan == Aside(on, proposals[i].proposal))
      && (forall i: nat, j: nat ::
            (E.Best(on.ecfg, on.mu, proposals, i) && !proposals[i].proposal.action.NoTrade?
             && E.LastAside(proposals, |proposals|, j)) ==> plan == Aside(on, proposals[j].proposal))
  }

  /** No trade, and why. */
  ghost predicate Declined(on: Setting, proposals: seq<Candidate>, plan: TradePlan)
    requires on.Valid()
  {
    && NoneApproved(on, proposals)
    && plan.action.NoTrade?
    && ((exists i: nat :: E.Taken(on.ecfg, on.mu, proposals, i) && S.Sizable(proposals[i].proposal)
                          && Refused(on, proposals, i, plan))
        || ((forall i: nat :: !E.Taken(on.ecfg, on.mu, proposals, i)) && StandsAside(on, proposals, plan)))
  }

  /** Nothing is approved. */
  ghost predicate NoneApproved(on: Setting, proposals: seq<Candidate>)
    requires on.Valid()
  {
    forall i, name, size, p :: !Approved(on, proposals, i, name, size, p)
  }

  /** Nothing is, when a gate stops the winner. */
  lemma GatedNotApproved(on: Setting, proposals: seq<Candidate>, i: nat, name: CapName, size: real, plan: TradePlan)
    requires on.Valid() && E.Taken(on.ecfg, on.mu, proposals, i) && S.Sizable(proposals[i].proposal)
    requires S.Binds(name, size, on.scfg, proposals[i].proposal, on.ctx, on.inputs)
    requires plan == Sized(on.ecfg, on.scfg, on.mu, on.ctx, proposals[i].proposal, name, size)
    requires !(R.Open(on.rcfg, plan, on.mu, on.state)
               && R.WithinLimits(on.rcfg, R.After(on.state, plan, on.ctx, NewRiskPct(plan, on.ctx))))
    ensures NoneApproved(on, proposals)
  {
    forall j, m, y, q | Approved(on, proposals, j, m, y, q)
      ensures false
    {
      E.BestIsUnique(on.ecfg, on.mu, proposals, i, j);
      S.BindsUnique(name, size, m, y, on.scfg, proposals[i].proposal, on.ctx, on.inputs);
    }
  }

  /** The evaluator's figures do not depend on what it and the sizer fill in. */
  lemma FiguresUnchanged(ecfg: E.Config, proposal: TradePlan, plan: TradePlan)
    requires plan == proposal.(score := plan.score, sizeQuote := plan.sizeQuote, reasons := plan.reasons)
    ensures E.ExpectedValue(plan, ecfg.losingR) == E.ExpectedValue(proposal, ecfg.losingR)
    ensures E.GrossMoveBps(plan) == E.GrossMoveBps(proposal)
  {
    assert E.RiskBps(plan) == E.RiskBps(proposal);
    assert E.CostR(plan) == E.CostR(proposal);
  }

  /** A trade that was let through names a positive entry and a stop elsewhere; it wins often enough to
      pay for its losses and its costs, and these are within the permitted fraction of the move it hopes
      for; its score reaches the minimum, and the baseline too whenever standing aside was proposed. */
  lemma DecisionSound(on: Setting, proposals: seq<Candidate>, i: nat, name: CapName, size: real, plan: TradePlan)
    requires on.Valid() && Approved(on, proposals, i, name, size, plan)
    ensures plan.entry.Some? && plan.stopLoss.Some? && plan.entry.value > 0.0
    ensures plan.stopLoss.value != plan.entry.value && E.Worthwhile(on.ecfg, plan)
    ensures E.ExpectedValue(plan, on.ecfg.losingR) > 0.0
    ensures E.GrossMoveBps(plan) > 0.0 ==> plan.expectedCostsBps <= on.ecfg.maxCostFraction * E.GrossMoveBps(plan)
    ensures plan.score >= on.ecfg.minTradeScore
    ensures (exists j :: 0 <= j < |proposals| && proposals[j].proposal.action.NoTrade?) ==>
              plan.score >= on.ecfg.noTradeBaseline
  {
    E.TakenIsSound(on.ecfg, on.mu, proposals, i);
    E.SurvivesIff(on.ecfg, on.mu, proposals[i].proposal);
    FiguresUnchanged(on.ecfg, proposals[i].proposal, plan);
  }

  /** Its size is positive, worth an order and within every cap supplied; its own risk is at
      most the base percentage at full confidence; and heat, positions, bucket risk,
      allocations and reserve are within their limits once it is on. */
  lemma DecisionWithinLimits(on: Setting, proposals: seq<Candidate>, i: nat, name: CapName, size: real, plan: TradePlan)
    requires on.Valid() && Approved(on, proposals, i, name, size, plan)
    ensures plan.sizeQuote == Some(size) && size > 0.0 && size >= on.inputs.minNotionalUsd
    ensures forall cap: CapName :: S.CapValue(cap, on.scfg, proposals[i].proposal, on.ctx, on.inputs).Some? ==>
              size <= S.CapValue(cap, on.scfg, proposals[i].proposal, on.ctx, on.inputs).value
    ensures on.scfg.baseRiskPct > 0.0 && 0.0 <= on.scfg.scaleLo <= on.scfg.scaleHi ==>
              0.0 < NewRiskPct(plan, on.ctx) <= on.scfg.baseRiskPct * on.scfg.scaleHi
    ensures R.WithinLimits(on.rcfg, R.After(on.state, plan, on.ctx, NewRiskPct(plan, on.ctx)))
  {
    if on.scfg.baseRiskPct > 0.0 && 0.0 <= on.scfg.scaleLo <= on.scfg.scaleHi {
      NewRiskOfSized(on, proposals[i].proposal, name, size, plan);
    }
  }

  /** The risk a plan brings, in money, is what it loses at its stop. */
  lemma NewRiskIsLoss(ctx: ExecContext, plan: TradePlan, size: real)
    requires S.Sizable(plan) && plan.sizeQuote == Some(size)
    ensures plan.entry.value > 0.0
    ensures ctx.equityUsdt > 0.0 ==>
              NewRiskPct(plan, ctx) / 100.0 * ctx.equityUsdt
              == S.LossAtStop(size, plan.entry.value, plan.stopLoss.value)
  {
    S.LossOfFraction(size, plan);
    if ctx.equityUsdt > 0.0 {
      var share := size * S.FracRisk(plan) / ctx.equityUsdt;
      assert share * ctx.equityUsdt == size * S.FracRisk(plan);
      assert size != 0.0 ==> NewRiskPct(plan, ctx) == share * PCT;
    }
  }

  lemma NewRiskOfSized(on: Setting, proposal: TradePlan, name: CapName, size: real, plan: TradePlan)
    requires on.Valid() && S.Sizable(proposal) && size > 0.0
    requires S.Binds(name, size, on.scfg, proposal, on.ctx, on.inputs)
    requires plan == proposal.(score := plan.score, sizeQuote := Some(size), reasons := plan.reasons)
    requires on.scfg.baseRiskPct > 0.0 && 0.0 <= on.scfg.scaleLo <= on.scfg.scaleHi
    ensures 0.0 < NewRiskPct(plan, on.ctx) <= on.scfg.baseRiskPct * on.scfg.scaleHi
  {
    S.RiskBounded(name, size, on.scfg, proposal, on.ctx, on.inputs);
    assert NewRiskPct(plan, on.ctx) == size * S.FracRisk(proposal) / on.ctx.equityUsdt * PCT;
  }

  lemma BudgetUnchanged(scfg: S.Config, ctx: ExecContext, proposal: TradePlan, plan: TradePlan)
    requires scfg.scalePivot != 0.0 && plan.confidence == proposal.confidence
    ensures S.RiskQuote(scfg, plan, ctx) == S.RiskQuote(scfg, proposal, ctx)
  {
  }

  /** Its risk, in money, is what it loses at its stop, and that is within the base percentage of equity
      scaled by its confidence. */
  lemma DecisionLoss(on: Setting, proposals: seq<Candidate>, i: nat, name: CapName, size: real, plan: TradePlan)
    requires on.Valid() && Approved(on, proposals, i, name, size, plan)
    ensures plan.entry.Some? && plan.stopLoss.Some? && plan.entry.value > 0.0
    ensures var loss := S.LossAtStop(size, plan.entry.value, plan.stopLoss.value);
            && loss <= S.RiskQuote(on.scfg, plan, on.ctx)
            && (on.ctx.equityUsdt > 0.0 ==> NewRiskPct(plan, on.ctx) / 100.0 * on.ctx.equityUsdt == loss)
  {
    S.LossWithinBudget(name, size, on.scfg, proposals[i].proposal, on.ctx, on.inputs);
    NewRiskIsLoss(on.ctx, plan, size);
    BudgetUnchanged(on.scfg, on.ctx, proposals[i].proposal, plan);
  }

  /** Its full exit clears the slippage limit, if the risk size halved 32 times does. */
  lemma DecisionExitClears(on: Setting, proposals: seq<Candidate>, i: nat, name: CapName, size: real, plan: TradePlan,
                           side: B.Side)
    requires on.Valid() && Approved(on, proposals, i, name, size, plan)
    requires S.ExitSimulated(on.inputs) && B.OneSided(side, on.inputs.exitLevels.value, on.inputs.mid.value)
    requires S.Clears(on.inputs.exitLevels.value, on.inputs.mid.value, on.ctx.caps.maxExitSlippageBps,
                      S.Halved(S.RiskSize(on.scfg, proposals[i].proposal, on.ctx), S.PROBES))
    ensures B.Slippage(on.inputs.exitLevels.value, size, on.inputs.mid.value) <= on.ctx.caps.maxExitSlippageBps
  {
    S.SizeClears(name, size, side, on.scfg, proposals[i].proposal, on.ctx, on.inputs);
  }

  /** proposals holds what the plugins proposed, in plugin order. A trade comes out exactly
      when some proposal is approved at every stage, and then it is that proposal; otherwise the
      plan stands aside and says why. */
  method Decide(ecfg: E.Config, scfg: S.Config, rcfg: R.Config, proposals: seq<Candidate>, mu: MarketUnderstanding,
                ctx: ExecContext, sizingInputs: Option<S.SizingInputs>, riskState: Option<R.RiskState>)
    returns (plan: TradePlan)
    requires scfg.scalePivot != 0.0 && (sizingInputs.Some? ==> S.ValidInputs(sizingInputs.value))
    requires E.Distinct(proposals)
    requires forall c :: c in proposals ==> c.reasons == c.proposal.reasons && c.sizeQuote == c.proposal.sizeQuote
    modifies proposals
    ensures var on := Setting(ecfg, scfg, rcfg, mu, ctx, Supplied(sizingInputs, NO_INPUTS),
                              Supplied(riskState, R.DEFAULT_STATE));
            if plan.action.NoTrade? then Declined(on, proposals, plan)
            else exists i, name, size :: Approved(on, proposals, i, name, size, plan)
  {
    var on := Setting(ecfg, scfg, rcfg, mu, ctx, Supplied(sizingInputs, NO_INPUTS),
                      Supplied(riskState, R.DEFAULT_STATE));
    var candidates := proposals;
    if candidates == [] {
      var riskOff := new Candidate(NoTradePlan("RiskOff", mu.symbol, 0.0, []));
      candidates := [riskOff];
    }
    var winner := E.Evaluate(ecfg, candidates, mu);
    if winner.proposal.action.NoTrade? {
      plan := winner.Plan();
      if proposals == [] {
        assert candidates[0].proposal.action.NoTrade? && winner == candidates[0];
      } else {
        WinnerStandsAside(on, proposals, winner, plan);
      }
      return;
    }
    ghost var i: nat :| E.Taken(ecfg, mu, candidates, i) && winner == candidates[i];
    plan := SizeAndGate(on, proposals, i, winner, scfg, rcfg, mu, ctx, on.inputs, on.state);
  }

  lemma WinnerStandsAside(on: Setting, proposals: seq<Candidate>, winner: Candidate, plan: TradePlan)
    requires proposals != [] && E.Selected(on.ecfg, on.mu, proposals, winner) && winner.proposal.action.NoTrade?
    requires if winner in proposals then plan == Aside(on, winner.proposal)
             else plan == E.SyntheticNoTrade(on.ecfg, on.mu) && E.NoneAside(proposals, |proposals|)
    requires forall i: nat :: !E.Taken(on.ecfg, on.mu, proposals, i)
    ensures StandsAside(on, proposals, plan)
  {
  }

  /** The second and third stages of Decide: the winner is sized, and put before the risk manager. */
  method SizeAndGate(ghost on: Setting, ghost proposals: seq<Candidate>, ghost i: nat, winner: Candidate,
                     scfg: S.Config, rcfg: R.Config, mu: MarketUnderstanding, ctx: ExecContext,
                     inputs: S.SizingInputs, state: R.RiskState)
    returns (plan: TradePlan)
    requires on.Valid() && on.scfg == scfg && on.rcfg == rcfg && on.mu == mu && on.ctx == ctx
    requires on.inputs == inputs && on.state == state
    requires E.Taken(on.ecfg, mu, proposals, i) && winner == proposals[i]
    requires winner.score == E.Screen(on.ecfg, mu, winner.proposal).score && winner.reasons == winner.proposal.reasons
    modifies winner
    ensures if plan.action.NoTrade? then Declined(on, proposals, plan)
            else exists name, size :: Approved(on, proposals, i, name, size, plan)
  {
    TakenIsSizable(on, proposals, i);
    var result := S.Size(scfg, winner, ctx, inputs);
    if result.rejected {
      plan := NoTradePlan(winner.proposal.plugin, mu.symbol, 0.0, winner.reasons + result.reasons);
      ghost var name, size :| S.Binds(name, size, scfg, winner.proposal, ctx, inputs) && !S.Tradable(size, inputs)
                              && result.reasons == S.Refusal(name, size, S.RiskSize(scfg, winner.proposal, ctx));
      assert RefusedAt(on, winner.proposal, name, size, plan);
      return;
    }
    ghost var name, size :| S.Binds(name, size, scfg, winner.proposal, ctx, inputs)
                            && S.Tradable(size, inputs) && winner.sizeQuote == Some(size)
                            && winner.reasons == winner.proposal.reasons
                                                 + S.CutReasons(name, size, S.RiskSize(scfg, winner.proposal, ctx));
    plan := Gate(on, proposals, i, name, size, winner.Plan(), rcfg, mu, ctx, state);
  }

  /** The last stage of Decide: the risk manager's say. */
  method Gate(ghost on: Setting, ghost proposals: seq<Candidate>, ghost i: nat, ghost name: CapName, ghost size: real,
              sized: TradePlan, rcfg: R.Config, mu: MarketUnderstanding, ctx: ExecContext, state: R.RiskState)
    returns (plan: TradePlan)
    requires on.Valid() && on.rcfg == rcfg && on.mu == mu && on.ctx == ctx && on.state == state
    requires E.Taken(on.ecfg, mu, proposals, i) && S.Sizable(proposals[i].proposal)
    requires S.Binds(name, size, on.scfg, proposals[i].proposal, ctx, on.inputs) && S.Tradable(size, on.inputs)
    requires sized == Sized(on.ecfg, on.scfg, mu, ctx, proposals[i].proposal, name, size)
    ensures if plan.action.NoTrade? then Declined(on, proposals, plan)
            else Approved(on, proposals, i, name, size, plan)
  {
    var newRisk := NewRiskPct(sized, ctx);
    R.CheckMeaning(rcfg, sized, mu, ctx, state, newRisk);
    plan := R.Check(rcfg, sized, mu, ctx, state, newRisk).plan;
    if plan.action.NoTrade? {
      GatedNotApproved(on, proposals, i, name, size, sized);
      assert RefusedAt(on, proposals[i].proposal, name, size, plan);
    }
  }

  function Supplied<T>(given: Option<T>, default: T): T {
    if given.Some? then given.value else default
  }
}
