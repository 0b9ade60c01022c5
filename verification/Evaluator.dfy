/** Scoring candidates and selecting the winner (aimos/execution/evaluator.py). */
module Evaluator {
  import opened Numerics
  import opened Schemas

  datatype Weights = Weights(ev: real, confidence: real, opportunity: real, risk: real)

  datatype Config = Config(
    weights: Weights,
    noTradeBaseline: real,
    minTradeScore: real,
    capR: real,
    maxCostFraction: real,
    losingR: real)

  function Clamp01(x: real): (r: real)
    ensures 0.0 <= r <= 1.0
  {
    Max(0.0, Min(1.0, x))
  }

  function RiskBps(plan: TradePlan): real {
    if plan.entry.None? || plan.entry.value == 0.0 || plan.stopLoss.None? then 0.0
    else Abs(plan.entry.value - plan.stopLoss.value) / plan.entry.value * BPS
  }

  function RewardRatio(plan: TradePlan): real {
    if plan.expectedRr.None? then 0.0 else plan.expectedRr.value
  }

  /** The move the plan hopes for, before costs. */
  function GrossMoveBps(plan: TradePlan): real {
    RewardRatio(plan) * RiskBps(plan)
  }

  predicate CostFractionExceeded(cfg: Config, plan: TradePlan) {
    GrossMoveBps(plan) > 0.0 && plan.expectedCostsBps > cfg.maxCostFraction * GrossMoveBps(plan)
  }

  function CostR(plan: TradePlan): real {
    if RiskBps(plan) > 0.0 then plan.expectedCostsBps / RiskBps(plan) else 0.0
  }

  function ExpectedValue(plan: TradePlan, losingR: real): real {
    plan.confidence * RewardRatio(plan) - (1.0 - plan.confidence) * losingR - CostR(plan)
  }

  function EvNormalized(ev: real, capR: real): real {
    if capR <= 0.0 then 0.0 else Clamp01(ev / capR)
  }

  function Score(cfg: Config, plan: TradePlan, mu: MarketUnderstanding, ev: real): real {
    cfg.weights.ev * EvNormalized(ev, cfg.capR)
    + cfg.weights.confidence * plan.confidence
    + cfg.weights.opportunity * mu.opportunityScore / PCT
    + cfg.weights.risk * (1.0 - mu.riskScore / PCT)
  }

  // --------------------------------------------------------------------------
  // One candidate
  // --------------------------------------------------------------------------

  datatype Verdict = Kept(score: real) | Dropped(reason: Reason)

  function Screen(cfg: Config, mu: MarketUnderstanding, plan: TradePlan): Verdict {
    if plan.action.NoTrade? then Kept(cfg.noTradeBaseline)
    else if RiskBps(plan) <= 0.0 then Dropped(NoStopGeometry)
    else if CostFractionExceeded(cfg, plan) then Dropped(CostsTooHigh)
    else
      var ev := ExpectedValue(plan, cfg.losingR);
      if ev <= 0.0 then Dropped(EvNotPositive(ev)) else Kept(Score(cfg, plan, mu, ev))
  }

  /** A directional plan worth taking: it has a stop, a positive expectation after costs,
      and costs within the permitted fraction of the move it hopes for. */
  predicate Sound(cfg: Config, plan: TradePlan) {
    && RiskBps(plan) > 0.0
    && ExpectedValue(plan, cfg.losingR) > 0.0
    && (GrossMoveBps(plan) > 0.0 ==> plan.expectedCostsBps <= cfg.maxCostFraction * GrossMoveBps(plan))
  }

  lemma KeptMeansSound(cfg: Config, mu: MarketUnderstanding, plan: TradePlan)
    requires !plan.action.NoTrade?
    ensures Screen(cfg, mu, plan).Kept? <==> Sound(cfg, plan)
  {
  }

  /** With costs that are not a credit, a kept plan always hopes for a real move, so
      its costs are bounded by a fraction of that move. */
  lemma SoundCostsBounded(cfg: Config, plan: TradePlan)
    requires Sound(cfg, plan)
    requires plan.expectedCostsBps >= 0.0 && cfg.losingR >= 0.0 && 0.0 <= plan.confidence <= 1.0
    ensures GrossMoveBps(plan) > 0.0
    ensures plan.expectedCostsBps <= cfg.maxCostFraction * GrossMoveBps(plan)
  {
    var p, rr := plan.confidence, RewardRatio(plan);
    MulSign(1.0 - p, cfg.losingR);
    if rr <= 0.0 {
      MulMonotone(p, rr, 0.0);
      assert false;
    }
    MulSign(rr, RiskBps(plan));
  }

  // --------------------------------------------------------------------------
  // What the figures mean, in the plan's own fields
  // --------------------------------------------------------------------------

  /** The distance from entry to stop, in basis points of the entry. */
  function StopDistance(entry: real, stop: real): real
    requires entry != 0.0
  {
    Abs(entry - stop) / entry * 10000.0
  }

  /** Won often enough to pay for the losses and the costs. */
  predicate BreaksEven(confidence: real, rr: real, losingR: real, costsBps: real, distance: real)
    requires distance != 0.0
  {
    confidence * (rr + losingR) > losingR + costsBps / distance
  }

  lemma DistanceSign(entry: real, stop: real)
    requires entry != 0.0
    ensures StopDistance(entry, stop) > 0.0 <==> entry > 0.0 && stop != entry
  {
    var share := Abs(entry - stop) / entry;
    assert share * entry == Abs(entry - stop);
    MulSign(share, entry);
    MulSign(-share, -entry);
  }

  lemma Expectation(plan: TradePlan, losingR: real)
    requires plan.entry.Some? && plan.entry.value != 0.0 && plan.stopLoss.Some? && RiskBps(plan) > 0.0
    ensures ExpectedValue(plan, losingR) > 0.0
            <==> BreaksEven(plan.confidence, RewardRatio(plan), losingR, plan.expectedCostsBps,
                            StopDistance(plan.entry.value, plan.stopLoss.value))
  {
    var p, rr := plan.confidence, RewardRatio(plan);
    assert p * (rr + losingR) == p * rr + p * losingR;
    assert (1.0 - p) * losingR == losingR - p * losingR;
  }

  /** A directional plan survives the screen exactly when it names a positive entry and a stop elsewhere,
      its costs are within the permitted fraction of a favourable move, and it wins often enough. */
  lemma SurvivesIff(cfg: Config, mu: MarketUnderstanding, plan: TradePlan)
    requires !plan.action.NoTrade?
    ensures Screen(cfg, mu, plan).Kept? <==>
            && plan.entry.Some? && plan.stopLoss.Some? && plan.entry.value > 0.0
            && plan.stopLoss.value != plan.entry.value
            && Worthwhile(cfg, plan)
  {
    if plan.entry.Some? && plan.entry.value != 0.0 && plan.stopLoss.Some? {
      DistanceSign(plan.entry.value, plan.stopLoss.value);
      if RiskBps(plan) > 0.0 {
        Expectation(plan, cfg.losingR);
        MulSign(RewardRatio(plan), RiskBps(plan));
      }
    }
  }

  /** Costs and wins of a plan whose geometry is usable. */
  predicate Worthwhile(cfg: Config, plan: TradePlan)
    requires plan.entry.Some? && plan.stopLoss.Some? && plan.entry.value > 0.0
    requires plan.stopLoss.value != plan.entry.value
  {
    var distance := StopDistance(plan.entry.value, plan.stopLoss.value);
    DistanceSign(plan.entry.value, plan.stopLoss.value);
    var rr := if plan.expectedRr.Some? then plan.expectedRr.value else 0.0;
    && (rr > 0.0 ==> plan.expectedCostsBps <= cfg.maxCostFraction * (rr * distance))
    && BreaksEven(plan.confidence, rr, cfg.losingR, plan.expectedCostsBps, distance)
  }

  /** The share of a score that the expectation earns: all of it from the cap on, none without a cap or an
      expectation, and in between in proportion. */
  lemma ShareOfExpectation(ev: real, capR: real)
    ensures capR > 0.0 && ev >= capR ==> EvNormalized(ev, capR) == 1.0
    ensures capR > 0.0 && 0.0 <= ev <= capR ==> EvNormalized(ev, capR) * capR == ev
    ensures capR <= 0.0 || ev <= 0.0 ==> EvNormalized(ev, capR) == 0.0
  {
    if capR > 0.0 {
      var share := ev / capR;
      assert share * capR == ev;
      MulSign(share, capR);
      MulSign(share - 1.0, capR);
      MulSign(1.0 - share, capR);
      MulSign(-share, capR);
    }
  }

  /** At its best a plan scores the sum of the weights; and by as much less as its expectation, its
      confidence, the opportunity and the market's calm fall short, each by its weight. */
  lemma ScoreFromBest(cfg: Config, plan: TradePlan, mu: MarketUnderstanding, ev: real)
    ensures Score(cfg, plan, mu, ev)
            == cfg.weights.ev + cfg.weights.confidence + cfg.weights.opportunity + cfg.weights.risk
               - cfg.weights.ev * (1.0 - EvNormalized(ev, cfg.capR))
               - cfg.weights.confidence * (1.0 - plan.confidence)
               - cfg.weights.opportunity * ((100.0 - mu.opportunityScore) / 100.0)
               - cfg.weights.risk * (mu.riskScore / 100.0)
  {
  }

  // --------------------------------------------------------------------------
  // The selection
  // --------------------------------------------------------------------------

  /** Candidate i survives the screen with the best score, the first to reach it. */
  ghost predicate Best(cfg: Config, mu: MarketUnderstanding, candidates: seq<Candidate>, i: nat) {
    && i < |candidates|
    && Screen(cfg, mu, candidates[i].proposal).Kept?
    && forall j :: 0 <= j < |candidates| && Screen(cfg, mu, candidates[j].proposal).Kept? ==>
         && Screen(cfg, mu, candidates[j].proposal).score <= Screen(cfg, mu, candidates[i].proposal).score
         && (j < i ==> Screen(cfg, mu, candidates[j].proposal).score < Screen(cfg, mu, candidates[i].proposal).score)
  }

  /** Candidate i is the trade to take. */
  ghost predicate Taken(cfg: Config, mu: MarketUnderstanding, candidates: seq<Candidate>, i: nat) {
    && Best(cfg, mu, candidates, i)
    && !candidates[i].proposal.action.NoTrade?
    && Screen(cfg, mu, candidates[i].proposal).score >= cfg.minTradeScore
  }

  /** A taken trade is sound and beats standing aside whenever that was proposed. */
  lemma TakenIsSound(cfg: Config, mu: MarketUnderstanding, candidates: seq<Candidate>, i: nat)
    requires Taken(cfg, mu, candidates, i)
    ensures Sound(cfg, candidates[i].proposal)
    ensures Screen(cfg, mu, candidates[i].proposal).score >= cfg.minTradeScore
    ensures (exists j :: 0 <= j < |candidates| && candidates[j].proposal.action.NoTrade?) ==>
              Screen(cfg, mu, candidates[i].proposal).score >= cfg.noTradeBaseline
  {
    KeptMeansSound(cfg, mu, candidates[i].proposal);
    if j :| 0 <= j < |candidates| && candidates[j].proposal.action.NoTrade? {
      assert Screen(cfg, mu, candidates[j].proposal) == Kept(cfg.noTradeBaseline);
    }
  }

  lemma BestIsUnique(cfg: Config, mu: MarketUnderstanding, candidates: seq<Candidate>, i: nat, j: nat)
    requires Best(cfg, mu, candidates, i) && Best(cfg, mu, candidates, j)
    ensures i == j
  {
  }

  /** The candidate carries its verdict: its score, or the reason it was dropped. */
  twostate predicate Marked(cfg: Config, mu: MarketUnderstanding, c: Candidate)
    reads c
  {
    && c.sizeQuote == old(c.sizeQuote)
    && match Screen(cfg, mu, c.proposal)
       case Kept(score) => c.score == score && c.reasons == old(c.reasons)
       case Dropped(reason) => c.score == old(c.score) && c.reasons == old(c.reasons) + [reason]
  }

  /** Candidate i is the last of the first n to propose standing aside. */
  ghost predicate LastAside(candidates: seq<Candidate>, n: nat, i: nat) {
    && i < n <= |candidates|
    && candidates[i].proposal.action.NoTrade?
    && forall j :: i < j < n ==> !candidates[j].proposal.action.NoTrade?
  }

  ghost predicate NoneAside(candidates: seq<Candidate>, n: nat) {
    n <= |candidates| && forall j :: 0 <= j < n ==> !candidates[j].proposal.action.NoTrade?
  }

  /** The verdicts on all candidates, in order. */
  ghost function Verdicts(cfg: Config, mu: MarketUnderstanding, candidates: seq<Candidate>): (s: seq<Verdict>)
    ensures |s| == |candidates|
  {
    if candidates == [] then []
    else
      var n := |candidates| - 1;
      Verdicts(cfg, mu, candidates[..n]) + [Screen(cfg, mu, candidates[n].proposal)]
  }

  lemma {:induction false} VerdictAt(cfg: Config, mu: MarketUnderstanding, candidates: seq<Candidate>, i: nat)
    requires i < |candidates|
    ensures Verdicts(cfg, mu, candidates)[i] == Screen(cfg, mu, candidates[i].proposal)
  {
    if i < |candidates| - 1 {
      VerdictAt(cfg, mu, candidates[..|candidates| - 1], i);
    }
  }

  /** The positions of the survivors among the first n, in order. */
  ghost predicate Survivors(verdicts: seq<Verdict>, n: nat, kept: seq<nat>) {
    && n <= |verdicts|
    && (forall k :: 0 <= k < |kept| ==> kept[k] < n && verdicts[kept[k]].Kept?)
    && (forall j, k :: 0 <= j < k < |kept| ==> kept[j] < kept[k])
    && (forall i :: 0 <= i < n && verdicts[i].Kept? ==> i in kept)
  }

  lemma BestAmongSurvivors(cfg: Config, mu: MarketUnderstanding, candidates: seq<Candidate>, kept: seq<nat>, best: nat)
    requires Survivors(Verdicts(cfg, mu, candidates), |candidates|, kept) && best < |kept|
    requires var v := Verdicts(cfg, mu, candidates);
             && (forall j :: 0 <= j < |kept| ==> v[kept[j]].score <= v[kept[best]].score)
             && (forall j :: 0 <= j < best ==> v[kept[j]].score < v[kept[best]].score)
    ensures Best(cfg, mu, candidates, kept[best])
  {
    var verdicts := Verdicts(cfg, mu, candidates);
    VerdictAt(cfg, mu, candidates, kept[best]);
    forall j | 0 <= j < |candidates| && Screen(cfg, mu, candidates[j].proposal).Kept?
      ensures Screen(cfg, mu, candidates[j].proposal).score <= Screen(cfg, mu, candidates[kept[best]].proposal).score
      ensures j < kept[best] ==>
                Screen(cfg, mu, candidates[j].proposal).score
                < Screen(cfg, mu, candidates[kept[best]].proposal).score
    {
      VerdictAt(cfg, mu, candidates, j);
      assert verdicts[j].Kept?;
      var k :| 0 <= k < |kept| && kept[k] == j;
    }
  }

  lemma NoSurvivorNoBest(cfg: Config, mu: MarketUnderstanding, candidates: seq<Candidate>)
    requires Survivors(Verdicts(cfg, mu, candidates), |candidates|, [])
    ensures forall i: nat :: !Best(cfg, mu, candidates, i)
    ensures NoneAside(candidates, |candidates|)
  {
    forall j | 0 <= j < |candidates|
      ensures !candidates[j].proposal.action.NoTrade? && !Screen(cfg, mu, candidates[j].proposal).Kept?
    {
      VerdictAt(cfg, mu, candidates, j);
      assert !Verdicts(cfg, mu, candidates)[j].Kept?;
    }
  }

  /** The winner is the one the selection rule names. */
  ghost predicate Selected(cfg: Config, mu: MarketUnderstanding, candidates: seq<Candidate>, winner: Candidate) {
    // the best survivor wins if it stands aside or reaches the minimum score
    && (forall i: nat ::
          Best(cfg, mu, candidates, i) && (candidates[i].proposal.action.NoTrade? || Taken(cfg, mu, candidates, i)) ==>
            winner == candidates[i])
    // if it falls short, the last proposal to stand aside wins
    && (forall i: nat, j: nat ::
          (Best(cfg, mu, candidates, i) && !candidates[i].proposal.action.NoTrade? && !Taken(cfg, mu, candidates, i)
           && LastAside(candidates, |candidates|, j)) ==> winner == candidates[j])
    // a directional winner is always the trade to take
    && (!winner.proposal.action.NoTrade? ==>
          exists i: nat :: Taken(cfg, mu, candidates, i) && winner == candidates[i])
  }

  ghost predicate Distinct(candidates: seq<Candidate>) {
    forall i, j :: 0 <= i < j < |candidates| ==> candidates[i] != candidates[j]
  }

  /** One turn of the first loop: the verdict is written into the candidate. */
  method ScreenOne(cfg: Config, c: Candidate, mu: MarketUnderstanding) returns (survives: bool)
    modifies c
    ensures Marked(cfg, mu, c)
    ensures survives == Screen(cfg, mu, c.proposal).Kept?
    ensures survives ==> c.score == Screen(cfg, mu, c.proposal).score
  {
    match Screen(cfg, mu, c.proposal) {
      case Kept(score) =>
        c.score := score;
        survives := true;
      case Dropped(reason) =>
        c.reasons := c.reasons + [reason];
        survives := false;
    }
  }

  /** The first loop: every candidate is screened, the survivors collected in order. */
  method ScreenAll(cfg: Config, candidates: seq<Candidate>, mu: MarketUnderstanding)
    returns (scored: seq<Candidate>, noTrade: Candidate?, ghost kept: seq<nat>, ghost aside: nat)
    requires Distinct(candidates)
    modifies candidates
    ensures forall i :: 0 <= i < |candidates| ==> Marked(cfg, mu, candidates[i])
    ensures Survivors(Verdicts(cfg, mu, candidates), |candidates|, kept)
    ensures |scored| == |kept| && forall k :: 0 <= k < |kept| ==> scored[k] == candidates[kept[k]]
    ensures noTrade == null ==> NoneAside(candidates, |candidates|)
    ensures noTrade != null ==>
              LastAside(candidates, |candidates|, aside) && noTrade == candidates[aside]
  {
    ghost var verdicts := Verdicts(cfg, mu, candidates);
    scored, noTrade, kept, aside := [], null, [], 0;
    for n := 0 to |candidates|
      invariant forall i :: 0 <= i < n ==> Marked(cfg, mu, candidates[i])
      invariant forall i :: n <= i < |candidates| ==> unchanged(candidates[i])
      invariant Survivors(verdicts, n, kept)
      invariant |scored| == |kept| && forall k :: 0 <= k < |kept| ==> scored[k] == candidates[kept[k]]
      invariant noTrade == null ==> NoneAside(candidates, n)
      invariant noTrade != null ==> LastAside(candidates, n, aside) && noTrade == candidates[aside]
    {
      var c := candidates[n];
      VerdictAt(cfg, mu, candidates, n);
      var keep := ScreenOne(cfg, c, mu);
      if keep {
        scored, kept := scored + [c], kept + [n];
      }
      if c.proposal.action.NoTrade? {
        noTrade, aside := c, n;
      }
    }
  }

  /** max by score: the first of the best. */
  method FirstBest(scored: seq<Candidate>) returns (best: nat)
    requires scored != []
    ensures best < |scored|
    ensures forall j :: 0 <= j < |scored| ==> scored[j].score <= scored[best].score
    ensures forall j :: 0 <= j < best ==> scored[j].score < scored[best].score
  {
    best := 0;
    for k := 1 to |scored|
      invariant best < k
      invariant forall j :: 0 <= j < k ==> scored[j].score <= scored[best].score
      invariant forall j :: 0 <= j < best ==> scored[j].score < scored[best].score
    {
      if scored[k].score > scored[best].score {
        best := k;
      }
    }
  }

  function SyntheticNoTrade(cfg: Config, mu: MarketUnderstanding): TradePlan {
    NoTradePlan("RiskOff", mu.symbol, cfg.noTradeBaseline, [NoPositiveEvCandidate])
  }

  /** The fallback: the candidate that proposed to stand aside, or a new plan that does. */
  method OrStandAside(cfg: Config, mu: MarketUnderstanding, noTrade: Candidate?) returns (winner: Candidate)
    ensures noTrade != null ==> winner == noTrade
    ensures noTrade == null ==> fresh(winner) && winner.Plan() == SyntheticNoTrade(cfg, mu)
  {
    if noTrade != null {
      return noTrade;
    }
    winner := new Candidate(SyntheticNoTrade(cfg, mu));
  }

  /** The two ways the best survivor can be disposed of. */
  lemma SelectedBest(cfg: Config, mu: MarketUnderstanding, candidates: seq<Candidate>, b: nat)
    requires Best(cfg, mu, candidates, b)
    requires candidates[b].proposal.action.NoTrade?
             || Screen(cfg, mu, candidates[b].proposal).score >= cfg.minTradeScore
    ensures Selected(cfg, mu, candidates, candidates[b])
  {
    assert forall i: nat :: Best(cfg, mu, candidates, i) ==> i == b;
    if !candidates[b].proposal.action.NoTrade? {
      assert Taken(cfg, mu, candidates, b);
    }
  }

  lemma SelectedFallback(cfg: Config, mu: MarketUnderstanding, candidates: seq<Candidate>, b: nat, winner: Candidate)
    requires Best(cfg, mu, candidates, b) && !candidates[b].proposal.action.NoTrade?
    requires Screen(cfg, mu, candidates[b].proposal).score < cfg.minTradeScore
    requires winner.proposal.action.NoTrade?
    requires forall j: nat :: LastAside(candidates, |candidates|, j) ==> winner == candidates[j]
    ensures Selected(cfg, mu, candidates, winner)
  {
    assert forall i: nat :: Best(cfg, mu, candidates, i) ==> i == b;
  }

  method Evaluate(cfg: Config, candidates: seq<Candidate>, mu: MarketUnderstanding) returns (winner: Candidate)
    requires Distinct(candidates)
    modifies candidates
    ensures forall i :: 0 <= i < |candidates| ==> Marked(cfg, mu, candidates[i])
    ensures Selected(cfg, mu, candidates, winner)
    // a plan of the evaluator's own making stands aside, and only if no candidate did
    ensures winner in candidates
            || (fresh(winner) && winner.Plan() == SyntheticNoTrade(cfg, mu) && NoneAside(candidates, |candidates|))
  {
    ghost var verdicts := Verdicts(cfg, mu, candidates);
    var scored, noTrade, kept, aside := ScreenAll(cfg, candidates, mu);
    if scored == [] {
      NoSurvivorNoBest(cfg, mu, candidates);
      winner := OrStandAside(cfg, mu, noTrade);
      return;
    }
    var best := FirstBest(scored);
    forall j | 0 <= j < |kept|
      ensures scored[j].score == verdicts[kept[j]].score
    {
      VerdictAt(cfg, mu, candidates, kept[j]);
    }
    BestAmongSurvivors(cfg, mu, candidates, kept, best);
    VerdictAt(cfg, mu, candidates, kept[best]);
    winner := scored[best];
    if !winner.proposal.action.NoTrade? && winner.score < cfg.minTradeScore {
      winner := OrStandAside(cfg, mu, noTrade);
      SelectedFallback(cfg, mu, candidates, kept[best], winner);
    } else {
      SelectedBest(cfg, mu, candidates, kept[best]);
    }
  }
}
