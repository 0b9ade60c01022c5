/** The rows of the trade history carry the profit that their own prices show
    (aimos/execution/broker/paper.py). */
module BrokerHistory {
  import opened Numerics
  import opened Schemas
  import opened Broker
  import opened BrokerExcursions
  import opened BrokerTargets
  import opened BrokerLedger
  import opened BrokerOrders
  import opened BrokerExits

  /** The row's profit is what its quantity gained between its two prices, less the exit fee. */
  ghost predicate Priced(cfg: Config, r: Row) {
    && r.closed && r.entry.Some? && r.exit.Some?
    && r.pnl == (if r.side == Long then r.exit.value - r.entry.value else r.entry.value - r.exit.value) * r.qty
                - FeeAt(cfg, r.qty * r.exit.value)
  }

  /** The entry to pair the position's exit with is the position's own. */
  ghost predicate PairedWith(pos: Position, unpaired: map<string, Fill>) {
    && pos.decisionId in unpaired
    && var e := unpaired[pos.decisionId];
       e.symbol == pos.symbol && e.side == pos.side && e.price == pos.entry && e.qty == pos.qty
       && e.ts == Some(pos.openedAt)
  }

  ghost predicate Paired(s: State) {
    forall k :: k in s.positions ==> PairedWith(s.positions[k], Unpaired(s.fills))
  }

  ghost predicate AllPriced(cfg: Config, rows: seq<Row>) {
    forall r :: r in rows ==> Priced(cfg, r)
  }

  lemma FillsSnoc(fills: seq<Fill>, f: Fill)
    ensures var u := Unpaired(fills);
            && Unpaired(fills + [f]) == (if f.kind.Entry? then u[f.decisionId := f] else u - {f.decisionId})
            && ClosedRows(fills + [f])
               == if f.kind.Entry? then ClosedRows(fills)
                  else ClosedRows(fills) + [ClosedRow(f, if f.decisionId in u then Some(u[f.decisionId]) else None)]
  {
    assert (fills + [f])[..|fills|] == fills;
  }

  /** An order's position takes the place of its symbol's, and its id is no other symbol's. */
  lemma OpenStaysPaired(cfg: Config, s: State, p: Pending, price: real, now: Instant)
    requires Inv(s) && Paired(s) && p in s.pending && price > 0.0
    ensures var s' := OpenPosition(cfg, s, p.plan, price, now);
            Paired(s') && ClosedRows(s'.fills) == ClosedRows(s.fills)
  {
    var pos := NewPosition(p.plan, price, now);
    var e := EntryFill(cfg, pos, FeeQuote(cfg, SizeOf(p.plan)), now);
    FillsSnoc(s.fills, e);
    OtherIds(s, p);
    forall k | k in s.positions && k != p.plan.symbol
      ensures PairedWith(s.positions[k], Unpaired(s.fills)[e.decisionId := e])
    {
      assert PairedWith(s.positions[k], Unpaired(s.fills));
    }
    assert PairedWith(pos, Unpaired(s.fills)[e.decisionId := e]);
  }

  lemma OtherIds(s: State, p: Pending)
    requires Inv(s) && p in s.pending
    ensures forall k :: k in s.positions && k != p.plan.symbol ==> s.positions[k].decisionId != DecisionId(p.plan)
  {
  }

  lemma {:induction false} AllOpenStayPaired(cfg: Config, s: State, pending: seq<Pending>, symbol: string, bar: Bar,
                                             now: Instant)
    requires Inv(s) && Paired(s) && PositiveBar(bar) && forall p :: p in pending ==> p in s.pending
    ensures var s' := OpenAll(cfg, s, pending, symbol, bar, now);
            Paired(s') && ClosedRows(s'.fills) == ClosedRows(s.fills)
    decreases |pending|
  {
    if pending != [] {
      var n := |pending| - 1;
      AllOpenStayPaired(cfg, s, pending[..n], symbol, bar, now);
      OpenAllKeepsInv(cfg, s, pending[..n], symbol, bar, now);
      if !Stays(pending[n], symbol, bar) {
        OpenStaysPaired(cfg, OpenAll(cfg, s, pending[..n], symbol, bar, now), pending[n],
                        FillPrice(pending[n], bar).value, now);
      }
    }
  }

  lemma RowOfExit(cfg: Config, pos: Position, exit: Exit, x: Excursion, now: Instant, e: Fill)
    requires e.side == pos.side && e.price == pos.entry
    ensures Priced(cfg, ClosedRow(ExitFill(cfg, pos, exit, x, now), Some(e)))
  {
    ProfitMeaning(cfg, pos, exit.price);
  }

  /** An exit adds a row with the prices of its own position. */
  lemma CloseStaysPaired(cfg: Config, s: State, symbol: string, exit: Exit, now: Instant)
    requires Inv(s) && Paired(s) && symbol in s.positions && !exit.kind.Entry?
    requires AllPriced(cfg, ClosedRows(s.fills))
    ensures var s' := Close(cfg, s, s.positions[symbol], exit, now);
            Paired(s') && AllPriced(cfg, ClosedRows(s'.fills))
  {
    var pos := s.positions[symbol];
    var f := ExitFill(cfg, pos, exit, ExcursionOf(s, pos.decisionId), now);
    FillsSnoc(s.fills, f);
    assert PairedWith(pos, Unpaired(s.fills));
    RowOfExit(cfg, pos, exit, ExcursionOf(s, pos.decisionId), now, Unpaired(s.fills)[pos.decisionId]);
    forall k | k in s.positions && k != symbol
      ensures s.positions[k].decisionId != pos.decisionId
    {
    }
  }

  lemma FillsStayPaired(cfg: Config, s: State, symbol: string, bar: Bar, now: Instant)
    requires Inv(s) && Paired(s) && PositiveBar(bar)
    ensures var b := BeforeExits(cfg, s, symbol, bar, now);
            Inv(b) && Paired(b) && ClosedRows(b.fills) == ClosedRows(s.fills)
  {
    AllOpenStayPaired(cfg, s.(lastMark := s.lastMark[symbol := bar.close]), s.pending, symbol, bar, now);
    StepKeepsInv(cfg, s, symbol, bar, now);
  }

  lemma StepStaysPaired(cfg: Config, s: State, symbol: string, bar: Bar, now: Instant)
    requires Inv(s) && Paired(s) && PositiveBar(bar) && AllPriced(cfg, ClosedRows(s.fills))
    ensures var s' := Step(cfg, s, symbol, bar, now);
            Paired(s') && AllPriced(cfg, ClosedRows(s'.fills))
  {
    FillsStayPaired(cfg, s, symbol, bar, now);
    ExitsStayPaired(cfg, BeforeExits(cfg, s, symbol, bar, now), symbol, bar, now);
  }

  lemma ExitsStayPaired(cfg: Config, s: State, symbol: string, bar: Bar, now: Instant)
    requires Inv(s) && Paired(s) && AllPriced(cfg, ClosedRows(s.fills))
    ensures var s' := CheckExits(cfg, s, symbol, bar, now);
            Paired(s') && AllPriced(cfg, ClosedRows(s'.fills))
  {
    if symbol in s.positions && ExitOf(s.positions[symbol], bar).Some? {
      CloseStaysPaired(cfg, s, symbol, ExitOf(s.positions[symbol], bar).value, now);
    }
  }

  lemma {:induction false} RunStaysPaired(cfg: Config, startingEquity: real, ops: seq<Op>)
    requires AllAllowed(ops) && IdsFresh(cfg, Fresh(startingEquity), ops)
    ensures var s := Run(cfg, Fresh(startingEquity), ops);
            Paired(s) && AllPriced(cfg, ClosedRows(s.fills))
  {
    if ops != [] {
      var n := |ops| - 1;
      var s := Run(cfg, Fresh(startingEquity), ops[..n]);
      assert ops[n] in ops;
      RunStaysPaired(cfg, startingEquity, ops[..n]);
      RunKeepsInv(cfg, Fresh(startingEquity), ops[..n]);
      if ops[n].StepOp? {
        StepStaysPaired(cfg, s, ops[n].symbol, ops[n].bar, ops[n].now);
      }
    }
  }

  /** In every run whose orders carry ids of their own symbol's, each closed row of the history shows the profit
      of its own two prices, quantity and side; and each open position has an open row with its entry. */
  lemma HistoryPriced(cfg: Config, startingEquity: real, ops: seq<Op>, trades: seq<Row>, r: Row)
    requires AllAllowed(ops) && IdsFresh(cfg, Fresh(startingEquity), ops)
    requires IsHistory(trades, Run(cfg, Fresh(startingEquity), ops).fills)
    ensures r in trades && r.closed ==> Priced(cfg, r)
    ensures forall k :: k in Run(cfg, Fresh(startingEquity), ops).positions ==>
              var pos := Run(cfg, Fresh(startingEquity), ops).positions[k];
              exists e :: OpenRow(e) in trades && e.symbol == pos.symbol && e.side == pos.side
                          && e.price == pos.entry && e.qty == pos.qty
  {
    var s := Run(cfg, Fresh(startingEquity), ops);
    RunStaysPaired(cfg, startingEquity, ops);
    var closed, open := ClosedRows(s.fills), trades[|ClosedRows(s.fills)|..];
    assert trades == closed + open;
    var ids: seq<string> :| (forall k :: k in ids <==> k in Unpaired(s.fills)) && ListsIn(open, ids, Unpaired(s.fills));
    forall k | k in s.positions
      ensures exists e :: OpenRow(e) in trades && e.symbol == s.positions[k].symbol && e.side == s.positions[k].side
                          && e.price == s.positions[k].entry && e.qty == s.positions[k].qty
    {
      var id := s.positions[k].decisionId;
      assert PairedWith(s.positions[k], Unpaired(s.fills));
      var i :| 0 <= i < |ids| && ids[i] == id;
      assert open[i] == OpenRow(Unpaired(s.fills)[id]);
    }
  }
}
