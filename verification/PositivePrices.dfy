/** The stop ratchet when every price is positive (aimos/execution/trade_manager.py). */
module PositivePrices {
  import opened Numerics
  import opened Schemas
  import opened Management

  ghost predicate Positive(ticks: seq<Tick>) {
    forall i :: 0 <= i < |ticks| ==> ticks[i].price > 0.0
  }

  /** Over no run of positive prices does a step at one move the stop away from the price. */
  ghost predicate RatchetsAtPositivePrices(cfg: Config, pos: Position, s: State) {
    forall ticks: seq<Tick>, t: Tick ::
      Positive(ticks) && t.price > 0.0 ==> StepRatchets(cfg, pos, Run(cfg, pos, s, ticks), t)
  }

  /** No positive price lies on both sides of break-even: every one of a long's reaches it, none of a short's. */
  predicate Settled(cfg: Config, pos: Position, risk: real) {
    PriceAt(pos, risk, cfg.breakevenR) <= 0.0
  }

  lemma SettledReached(cfg: Config, pos: Position, t: Tick, s: State)
    requires s.initialRisk > 0.0 && t.price > 0.0 && Settled(cfg, pos, s.initialRisk)
    ensures Reached(pos, t, s, cfg.breakevenR) <==> pos.side == Long
  {
  }

  /** A long breaks even before it trails; a short never does. */
  predicate SettledSided(pos: Position, risk: real, s: State) {
    && s.initialRisk == risk
    && (s.breakevenDone ==> pos.side == Long)
    && (!s.breakevenDone && pos.side == Long ==> !s.trailActive && Gain(pos, s.stop) <= 0.0)
  }

  lemma NextSettled(cfg: Config, pos: Position, risk: real, t: Tick, s: State)
    requires risk > 0.0 && t.price > 0.0 && Settled(cfg, pos, risk) && SettledSided(pos, risk, s)
    ensures SettledSided(pos, risk, Next(cfg, pos, t, s)) && StepRatchets(cfg, pos, s, t)
  {
    SettledReached(cfg, pos, t, s);
  }

  lemma {:induction false} RunSettled(cfg: Config, pos: Position, s: State, ticks: seq<Tick>)
    requires Opened(pos, s) && Settled(cfg, pos, s.initialRisk) && Positive(ticks)
    ensures SettledSided(pos, s.initialRisk, Run(cfg, pos, s, ticks))
  {
    if ticks != [] {
      var n := |ticks| - 1;
      RunSettled(cfg, pos, s, ticks[..n]);
      NextSettled(cfg, pos, s.initialRisk, ticks[n], Run(cfg, pos, s, ticks[..n]));
    }
  }

  lemma TimesRises(r: real, r': real, risk: real)
    requires risk > 0.0 && r < r'
    ensures Times(r, risk) < Times(r', risk)
  {
    MulSign(r' - r, risk);
  }

  /** If break-even has a positive price, so has every multiple below it from this floor up. */
  lemma PositiveAbove(pos: Position, risk: real, be: real) returns (floor: real)
    requires risk > 0.0 && PriceAt(pos, risk, be) > 0.0
    ensures floor < be && forall r :: floor < r < be ==> PriceAt(pos, risk, r) > 0.0
  {
    floor := if pos.side == Long then Ratio(-pos.entry, risk) else be - 1.0;
    if pos.side == Long {
      assert Times(floor, risk) == -pos.entry;
      TimesRises(floor, be, risk);
    }
    forall r | floor < r < be
      ensures PriceAt(pos, risk, r) > 0.0
    {
      TimesRises(floor, r, risk);
      TimesRises(r, be, risk);
    }
  }

  /** With prices that are all positive, the exact condition has one more case. */
  lemma RatchetsAtPositivePricesIff(cfg: Config, pos: Position, s: State)
    requires Opened(pos, s)
    ensures RatchetsAtPositivePrices(cfg, pos, s) <==> ThresholdsInOrder(cfg) || Settled(cfg, pos, s.initialRisk)
  {
    if ThresholdsInOrder(cfg) {
      RatchetsIff(cfg, pos, s);
    } else if Settled(cfg, pos, s.initialRisk) {
      forall ticks: seq<Tick>, t: Tick | Positive(ticks) && t.price > 0.0
        ensures StepRatchets(cfg, pos, Run(cfg, pos, s, ticks), t)
      {
        RunSettled(cfg, pos, s, ticks);
        NextSettled(cfg, pos, s.initialRisk, t, Run(cfg, pos, s, ticks));
      }
    } else {
      var floor := PositiveAbove(pos, s.initialRisk, cfg.breakevenR);
      var ticks, t, r := LoosensWhenOutOfOrder(cfg, pos, s, floor);
      assert Positive(ticks) && !StepRatchets(cfg, pos, Run(cfg, pos, s, ticks), t);
    }
  }
}
