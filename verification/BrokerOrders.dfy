/** What becomes of the simulated broker's orders: which of them fill, at what price and cost, what position
    they leave, and which stay (aimos/execution/broker/paper.py). */
module BrokerOrders {
  import opened Numerics
  import opened Schemas
  import opened Broker

  /** The order is for the symbol, and it is a market order or the bar crosses its limit. */
  predicate Fills(p: Pending, symbol: string, bar: Bar) {
    && p.plan.symbol == symbol
    && (p.isLimit ==> p.plan.entry.Some? && bar.low <= p.plan.entry.value <= bar.high)
  }

  function PriceOf(p: Pending, symbol: string, bar: Bar): real
    requires Fills(p, symbol, bar)
  {
    if p.isLimit then p.plan.entry.value else bar.open
  }

  lemma FillsOrStays(p: Pending, symbol: string, bar: Bar)
    ensures Stays(p, symbol, bar) <==> !Fills(p, symbol, bar)
    ensures Fills(p, symbol, bar) ==> FillPrice(p, bar) == Some(PriceOf(p, symbol, bar))
  {
  }

  // --------------------------------------------------------------------------
  // The orders that stay
  // --------------------------------------------------------------------------

  /** Staying and cancelling go order by order: these two laws and the two after them determine both. */
  lemma StayingOne(p: Pending, symbol: string, bar: Bar)
    ensures Staying([p], symbol, bar) == if Fills(p, symbol, bar) then [] else [p]
  {
    assert [p][..0] == [];
  }

  lemma {:induction false} StayingConcat(a: seq<Pending>, b: seq<Pending>, symbol: string, bar: Bar)
    ensures Staying(a + b, symbol, bar) == Staying(a, symbol, bar) + Staying(b, symbol, bar)
  {
    if b == [] {
      assert a + b == a;
    } else {
      var n := |b| - 1;
      assert (a + b)[..|a + b| - 1] == a + b[..n];
      StayingConcat(a, b[..n], symbol, bar);
    }
  }

  lemma CancelOne(p: Pending, symbol: string)
    ensures WithoutSymbol([p], symbol) == if p.plan.symbol == symbol then [] else [p]
  {
    assert [p][..0] == [];
  }

  lemma {:induction false} CancelConcat(a: seq<Pending>, b: seq<Pending>, symbol: string)
    ensures WithoutSymbol(a + b, symbol) == WithoutSymbol(a, symbol) + WithoutSymbol(b, symbol)
  {
    if b == [] {
      assert a + b == a;
    } else {
      var n := |b| - 1;
      assert (a + b)[..|a + b| - 1] == a + b[..n];
      CancelConcat(a, b[..n], symbol);
    }
  }

  // --------------------------------------------------------------------------
  // The position they leave
  // --------------------------------------------------------------------------

  /** pos is what the plan asks for, bought or sold at the price for the plan's size in money. */
  predicate OpenedFrom(pos: Position, plan: TradePlan, price: real, now: Instant) {
    && pos.symbol == plan.symbol && pos.entry == price && pos.openedAt == now
    && (pos.side == if plan.action == Long then Long else Short)
    && pos.qty * price == (if plan.sizeQuote.Some? then plan.sizeQuote.value else 0.0)
    && (pos.stop == if plan.stopLoss.Some? && plan.stopLoss.value != 0.0 then plan.stopLoss.value else price)
    && pos.tp == plan.takeProfit && pos.plugin == plan.plugin
    && (pos.decisionId == if plan.decisionId.Some? && plan.decisionId.value != "" then plan.decisionId.value
                          else plan.symbol + "-" + plan.plugin)
  }

  lemma NewIsOpenedFrom(plan: TradePlan, price: real, now: Instant)
    requires price != 0.0
    ensures OpenedFrom(NewPosition(plan, price, now), plan, price, now)
  {
  }

  ghost predicate NoneFills(pending: seq<Pending>, symbol: string, bar: Bar, from: nat) {
    forall j :: from <= j < |pending| ==> !Fills(pending[j], symbol, bar)
  }

  /** The money that fills cost in fees, at the rate that applies. */
  function EntryFees(cfg: Config, pending: seq<Pending>, symbol: string, bar: Bar): real {
    if pending == [] then 0.0
    else
      var n := |pending| - 1;
      var plan := pending[n].plan;
      EntryFees(cfg, pending[..n], symbol, bar)
      + if Fills(pending[n], symbol, bar) then FeeAt(cfg, if plan.sizeQuote.Some? then plan.sizeQuote.value else 0.0)
        else 0.0
  }

  /** The taker's or the maker's share of a notional, in ten-thousandths. */
  function FeeAt(cfg: Config, notional: real): real {
    notional * (if cfg.taker then cfg.cost.takerBps else cfg.cost.makerBps) / 10000.0
  }

  function CountFilling(pending: seq<Pending>, symbol: string, bar: Bar): nat {
    if pending == [] then 0
    else
      var n := |pending| - 1;
      CountFilling(pending[..n], symbol, bar) + if Fills(pending[n], symbol, bar) then 1 else 0
  }

  /** The state after the fills of a bar, relative to the one before. */
  ghost predicate Filled(cfg: Config, s: State, s': State, pending: seq<Pending>, symbol: string, bar: Bar,
                         now: Instant) {
    && s'.cash == s.cash - EntryFees(cfg, pending, symbol, bar)
    && |s'.fills| == |s.fills| + CountFilling(pending, symbol, bar) && s.fills <= s'.fills
    && s'.realized == s.realized && s'.outcomes == s.outcomes && s'.closedR == s.closedR
    && s'.lastMark == s.lastMark
  }

  lemma OpenFills(cfg: Config, s: State, p: Pending, symbol: string, bar: Bar, now: Instant)
    requires PositiveBar(bar) && Fills(p, symbol, bar)
    ensures FillPrice(p, bar).Some? && FillPrice(p, bar).value > 0.0
    ensures var s' := OpenPosition(cfg, s, p.plan, FillPrice(p, bar).value, now);
            && s'.cash == s.cash - FeeAt(cfg, if p.plan.sizeQuote.Some? then p.plan.sizeQuote.value else 0.0)
            && |s'.fills| == |s.fills| + 1 && s.fills <= s'.fills
            && s'.realized == s.realized && s'.outcomes == s.outcomes && s'.closedR == s.closedR
            && s'.lastMark == s.lastMark
  {
  }

  /** The fills of a bar cost the fees of the orders that fill, record one fill for each, and close nothing. */
  lemma {:induction false} AllFilled(cfg: Config, s: State, pending: seq<Pending>, symbol: string, bar: Bar,
                                     now: Instant)
    requires PositiveBar(bar)
    ensures Filled(cfg, s, OpenAll(cfg, s, pending, symbol, bar, now), pending, symbol, bar, now)
    decreases |pending|
  {
    if pending != [] {
      var n := |pending| - 1;
      AllFilled(cfg, s, pending[..n], symbol, bar, now);
      FillsOrStays(pending[n], symbol, bar);
      if Fills(pending[n], symbol, bar) {
        OpenFills(cfg, OpenAll(cfg, s, pending[..n], symbol, bar, now), pending[n], symbol, bar, now);
      }
    }
  }

  /** Of the orders that fill, the last one leaves its position; without one nothing changes hands, and
      other symbols are left alone. */
  lemma {:induction false} LastOpens(cfg: Config, s: State, pending: seq<Pending>, symbol: string, bar: Bar,
                                     now: Instant, i: nat)
    requires PositiveBar(bar)
    requires i < |pending| && Fills(pending[i], symbol, bar) && NoneFills(pending, symbol, bar, i + 1)
    ensures var s' := OpenAll(cfg, s, pending, symbol, bar, now);
            && symbol in s'.positions
            && OpenedFrom(s'.positions[symbol], pending[i].plan, PriceOf(pending[i], symbol, bar), now)
            && ExcursionOf(s', s'.positions[symbol].decisionId) == Excursion(0.0, 0.0)
    decreases |pending|
  {
    var n := |pending| - 1;
    FillsOrStays(pending[n], symbol, bar);
    if i < n {
      LastOpens(cfg, s, pending[..n], symbol, bar, now, i);
    } else {
      NewIsOpenedFrom(pending[n].plan, PriceOf(pending[n], symbol, bar), now);
    }
  }

  lemma {:induction false} NoneOpens(cfg: Config, s: State, pending: seq<Pending>, symbol: string, bar: Bar,
                                     now: Instant, k: string)
    requires PositiveBar(bar) && (k != symbol || NoneFills(pending, symbol, bar, 0))
    ensures var s' := OpenAll(cfg, s, pending, symbol, bar, now);
            (k in s'.positions <==> k in s.positions) && (k in s.positions ==> s'.positions[k] == s.positions[k])
    decreases |pending|
  {
    if pending != [] {
      var n := |pending| - 1;
      FillsOrStays(pending[n], symbol, bar);
      NoneOpens(cfg, s, pending[..n], symbol, bar, now, k);
    }
  }

  /** The whole of what a bar does to the orders and to the positions before it decides on exits. */
  lemma BarFills(cfg: Config, s: State, symbol: string, bar: Bar, now: Instant, k: string, i: nat)
    requires PositiveBar(bar)
    ensures var s' := AfterFills(cfg, s, symbol, bar, now);
            && s'.cash == s.cash - EntryFees(cfg, s.pending, symbol, bar)
            && |s'.fills| == |s.fills| + CountFilling(s.pending, symbol, bar)
            && s'.pending == Staying(s.pending, symbol, bar)
            && s'.outcomes == s.outcomes && s'.realized == s.realized
            && (i < |s.pending| && Fills(s.pending[i], symbol, bar) && NoneFills(s.pending, symbol, bar, i + 1) ==>
                  && symbol in s'.positions
                  && OpenedFrom(s'.positions[symbol], s.pending[i].plan, PriceOf(s.pending[i], symbol, bar), now))
            && (k != symbol || NoneFills(s.pending, symbol, bar, 0) ==>
                  && (k in s'.positions <==> k in s.positions)
                  && (k in s.positions ==> s'.positions[k] == s.positions[k]))
  {
    var marked := s.(lastMark := s.lastMark[symbol := bar.close]);
    AllFilled(cfg, marked, s.pending, symbol, bar, now);
    if i < |s.pending| && Fills(s.pending[i], symbol, bar) && NoneFills(s.pending, symbol, bar, i + 1) {
      LastOpens(cfg, marked, s.pending, symbol, bar, now, i);
    }
    if k != symbol || NoneFills(s.pending, symbol, bar, 0) {
      NoneOpens(cfg, marked, s.pending, symbol, bar, now, k);
    }
  }

  /** A plan is taken as an order unless it stands aside or has no size. It rests at its entry if it comes
      from one of two plugins, and otherwise goes to the market. */
  lemma PlaceMeaning(s: State, plan: TradePlan)
    ensures Place(s, plan).pending
            == if plan.action == NoTrade || plan.sizeQuote == None || plan.sizeQuote == Some(0.0) then s.pending
               else s.pending + [Pending(plan, plan.plugin in {"Pullback", "MeanReversion"})]
    ensures Place(s, plan) == s.(pending := Place(s, plan).pending)
  {
  }
}
