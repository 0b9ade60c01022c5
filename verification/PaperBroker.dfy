/** The broker object (aimos/execution/broker/paper.py). Every method is proved against the
    function on the state's value that has its name. */
module PaperBroker {
  import opened Schemas
  import opened B = Broker
  import opened BrokerSnapshot
  import opened BrokerLedger

  class PaperBroker {
    const cfg: Config
    var cash: real
    var realized: real
    var pending: seq<Pending>
    var positions: map<string, Position>
    var fills: seq<Fill>
    var closedR: seq<real>
    var outcomes: seq<Outcome>
    var excursions: map<string, Excursion>
    var lastMark: map<string, real>

    function View(): State
      reads this
    {
      State(cash, realized, pending, positions, fills, closedR, outcomes, excursions, lastMark)
    }

    constructor (startingEquity: real, cfg: Config)
      ensures this.cfg == cfg && View() == Fresh(startingEquity)
    {
      this.cfg := cfg;
      cash, realized, pending, positions, fills := startingEquity, 0.0, [], map[], [];
      closedR, outcomes, excursions, lastMark := [], [], map[], map[];
    }

    /** Whether the order was taken. */
    method Place(plan: TradePlan) returns (open: bool)
      modifies this`pending
      ensures View() == B.Place(old(View()), plan) && open == !Rejected(plan)
    {
      if Rejected(plan) {
        return false;
      }
      pending := pending + [Pending(plan, LimitPlugin(plan.plugin))];
      return true;
    }

    method CancelAll(symbol: string)
      modifies this`pending
      ensures View() == B.CancelAll(old(View()), symbol)
    {
      var kept: seq<Pending> := [];
      for i := 0 to |pending|
        invariant pending == old(pending) && kept == WithoutSymbol(pending[..i], symbol)
      {
        assert pending[..i + 1][..i] == pending[..i];
        if pending[i].plan.symbol != symbol {
          kept := kept + [pending[i]];
        }
      }
      assert pending[..|pending|] == pending;
      pending := kept;
    }

    method Step(symbol: string, bar: Bar, now: Instant)
      requires PositiveBar(bar)
      modifies this
      ensures View() == B.Step(cfg, old(View()), symbol, bar, now)
    {
      lastMark := lastMark[symbol := bar.close];
      FillPending(symbol, bar, now);
      UpdateExcursions(symbol, bar);
      CheckExits(symbol, bar, now);
    }

    method FillPending(symbol: string, bar: Bar, now: Instant)
      requires PositiveBar(bar)
      modifies this
      ensures View() == B.FillPending(cfg, old(View()), symbol, bar, now)
    {
      ghost var s := View();
      var still: seq<Pending> := [];
      for i := 0 to |pending|
        invariant pending == s.pending && still == Staying(pending[..i], symbol, bar)
        invariant View() == OpenAll(cfg, s, pending[..i], symbol, bar, now)
      {
        var p := pending[i];
        assert pending[..i + 1][..i] == pending[..i];
        if p.plan.symbol != symbol {
          still := still + [p];
          continue;
        }
        var price := FillPrice(p, bar);
        if price.None? {
          still := still + [p];
          continue;
        }
        OpenPosition(p.plan, price.value, now);
      }
      assert pending[..|pending|] == pending;
      pending := still;
    }

    method OpenPosition(plan: TradePlan, price: real, now: Instant)
      requires price != 0.0
      modifies this`cash, this`positions, this`excursions, this`fills
      ensures View() == B.OpenPosition(cfg, old(View()), plan, price, now)
    {
      var pos := NewPosition(plan, price, now);
      var fee := FeeQuote(cfg, SizeOf(plan));
      cash := cash - fee;
      positions := positions[plan.symbol := pos];
      excursions := excursions[pos.decisionId := Excursion(0.0, 0.0)];
      fills := fills + [EntryFill(cfg, pos, fee, now)];
    }

    method UpdateExcursions(symbol: string, bar: Bar)
      modifies this`excursions
      ensures View() == B.UpdateExcursions(old(View()), symbol, bar)
    {
      if symbol !in positions {
        return;
      }
      var pos := positions[symbol];
      if InitialRisk(pos) <= 0.0 {
        return;
      }
      var adverse, favorable := InR(pos, AdversePrice(pos, bar)), InR(pos, FavorablePrice(pos, bar));
      var e := if pos.decisionId in excursions then excursions[pos.decisionId] else Excursion(0.0, 0.0);
      excursions := excursions[pos.decisionId := Widened(e, adverse, favorable)];
    }

    method CheckExits(symbol: string, bar: Bar, now: Instant)
      modifies this
      ensures View() == B.CheckExits(cfg, old(View()), symbol, bar, now)
    {
      if symbol !in positions {
        return;
      }
      var pos := positions[symbol];
      var exit := ExitOf(pos, bar);
      if exit.Some? {
        Close(pos, exit.value, now);
      }
    }

    method Close(pos: Position, exit: Exit, now: Instant)
      modifies this`cash, this`realized, this`closedR, this`excursions, this`outcomes, this`fills, this`positions
      ensures View() == B.Close(cfg, old(View()), pos, exit, now)
    {
      var pnl := ExitPnl(cfg, pos, exit.price);
      cash := cash + pnl;
      realized := realized + pnl;
      if RiskQuote(pos) > 0.0 {
        closedR := closedR + [PnlR(cfg, pos, exit.price)];
      }
      var e := if pos.decisionId in excursions then excursions[pos.decisionId] else Excursion(0.0, 0.0);
      excursions := excursions - {pos.decisionId};
      outcomes := outcomes + [ExitOutcome(cfg, pos, exit, e, now)];
      fills := fills + [ExitFill(cfg, pos, exit, e, now)];
      positions := positions - {pos.symbol};
    }

    method ApplyFunding(symbol: string, rateBps: real, minutes: real)
      modifies this`cash
      ensures View() == B.ApplyFunding(old(View()), symbol, rateBps, minutes)
    {
      if symbol !in positions {
        return;
      }
      var pos := positions[symbol];
      var costBps := FundingCostBps(rateBps, minutes, Sign(pos.side));
      var notional := pos.qty * (if symbol in lastMark then lastMark[symbol] else pos.entry);
      cash := cash - notional * costBps / BPS;
    }

    method DrainOutcomes() returns (drained: seq<Outcome>)
      modifies this`outcomes
      ensures View() == B.DrainOutcomes(old(View())) && drained == old(outcomes)
    {
      drained := outcomes;
      outcomes := [];
    }

    method History() returns (trades: seq<Row>)
      ensures IsHistory(trades, fills)
    {
      trades := TradeHistory(fills);
    }

    method StateDict() returns (snap: Snapshot)
      ensures Saves(View(), snap)
    {
      var listed: seq<Position> := [];
      var left := positions;
      while left != map[]
        invariant left.Keys <= positions.Keys && forall k :: k in left ==> left[k] == positions[k]
        invariant forall p :: p in listed ==> exists k :: k in positions && positions[k] == p
        invariant forall k :: k in positions && k !in left ==> positions[k] in listed
        decreases |left|
      {
        var k :| k in left;
        listed := listed + [left[k]];
        left := left - {k};
      }
      var plans: seq<TradePlan> := [];
      for i := 0 to |pending|
        invariant plans == Plans(pending[..i])
      {
        assert pending[..i + 1][..i] == pending[..i];
        plans := plans + [pending[i].plan];
      }
      assert pending[..|pending|] == pending;
      snap := Snapshot(cash, realized, listed, plans, fills, closedR, outcomes, excursions, lastMark);
    }

    method LoadState(snap: Snapshot)
      modifies this
      ensures View() == Load(snap)
    {
      cash, realized := snap.cash, snap.realized;
      positions := map[];
      for i := 0 to |snap.positions|
        invariant cash == snap.cash && realized == snap.realized
        invariant positions == BySymbol(snap.positions[..i])
      {
        assert snap.positions[..i + 1][..i] == snap.positions[..i];
        positions := positions[snap.positions[i].symbol := snap.positions[i]];
      }
      assert snap.positions[..|snap.positions|] == snap.positions;
      pending := [];
      for i := 0 to |snap.pending|
        invariant cash == snap.cash && realized == snap.realized && positions == BySymbol(snap.positions)
        invariant pending == Orders(snap.pending[..i])
      {
        assert snap.pending[..i + 1][..i] == snap.pending[..i];
        pending := pending + [Pending(snap.pending[i], LimitPlugin(snap.pending[i].plugin))];
      }
      assert snap.pending[..|snap.pending|] == snap.pending;
      fills, closedR, outcomes := snap.fills, snap.closedR, snap.outcomes;
      excursions, lastMark := snap.excursions, snap.lastMark;
    }
  }
}
