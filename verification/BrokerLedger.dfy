/** The broker's money: cash, realized profit and the trade history (aimos/execution/broker/paper.py). */
module BrokerLedger {
  import opened Schemas
  import opened Broker

  /** What a fill did to the cash: an entry pays its fee, an exit brings its profit. */
  function CashEffect(f: Fill): real {
    if f.kind.Entry? then -f.feeQuote else f.pnlQuote
  }

  function Realized(f: Fill): real {
    if f.kind.Entry? then 0.0 else f.pnlQuote
  }

  function CashFlow(fills: seq<Fill>): real {
    if fills == [] then 0.0 else CashFlow(fills[..|fills| - 1]) + CashEffect(fills[|fills| - 1])
  }

  function RealizedTotal(fills: seq<Fill>): real {
    if fills == [] then 0.0 else RealizedTotal(fills[..|fills| - 1]) + Realized(fills[|fills| - 1])
  }

  /** Cash and realized profit that the fills do not explain. */
  function Unexplained(s: State): (real, real) {
    (s.cash - CashFlow(s.fills), s.realized - RealizedTotal(s.fills))
  }

  lemma OpenExplained(cfg: Config, s: State, plan: TradePlan, price: real, now: Instant)
    requires price != 0.0
    ensures Unexplained(OpenPosition(cfg, s, plan, price, now)) == Unexplained(s)
  {
  }

  lemma {:induction false} OpenAllExplained(cfg: Config, s: State, pending: seq<Pending>, symbol: string, bar: Bar,
                                            now: Instant)
    requires PositiveBar(bar)
    ensures Unexplained(OpenAll(cfg, s, pending, symbol, bar, now)) == Unexplained(s)
    decreases |pending|
  {
    if pending != [] {
      var n := |pending| - 1;
      OpenAllExplained(cfg, s, pending[..n], symbol, bar, now);
      if !Stays(pending[n], symbol, bar) {
        OpenExplained(cfg, OpenAll(cfg, s, pending[..n], symbol, bar, now), pending[n].plan,
                      FillPrice(pending[n], bar).value, now);
      }
    }
  }

  lemma CloseExplained(cfg: Config, s: State, pos: Position, exit: Exit, now: Instant)
    requires !exit.kind.Entry?
    ensures Unexplained(Close(cfg, s, pos, exit, now)) == Unexplained(s)
  {
  }

  lemma BeforeExitsExplained(cfg: Config, s: State, symbol: string, bar: Bar, now: Instant)
    requires PositiveBar(bar)
    ensures Unexplained(BeforeExits(cfg, s, symbol, bar, now)) == Unexplained(s)
  {
    var marked := s.(lastMark := s.lastMark[symbol := bar.close]);
    OpenAllExplained(cfg, marked, marked.pending, symbol, bar, now);
  }

  lemma StepExplained(cfg: Config, s: State, symbol: string, bar: Bar, now: Instant)
    requires PositiveBar(bar)
    ensures Unexplained(Step(cfg, s, symbol, bar, now)) == Unexplained(s)
  {
    BeforeExitsExplained(cfg, s, symbol, bar, now);
  }

  /** What one operation charges in funding. */
  function Charged(s: State, op: Op): real {
    if op.FundingOp? then FundingCharge(s, op.symbol, op.rateBps, op.minutes) else 0.0
  }

  ghost function TotalCharged(cfg: Config, s: State, ops: seq<Op>): real
    requires AllAllowed(ops)
  {
    if ops == [] then 0.0
    else
      var n := |ops| - 1;
      TotalCharged(cfg, s, ops[..n]) + Charged(Run(cfg, s, ops[..n]), ops[n])
  }

  lemma DoExplained(cfg: Config, s: State, op: Op)
    requires Allowed(op)
    ensures Unexplained(Do(cfg, s, op)) == (Unexplained(s).0 - Charged(s, op), Unexplained(s).1)
  {
    if op.StepOp? {
      StepExplained(cfg, s, op.symbol, op.bar, op.now);
    }
  }

  /** In every reachable state the cash is the starting equity, less the entry fees, plus the
      profits of the exits, less the funding charged; and the realized profit is theirs too. */
  lemma {:induction false} LedgerBalances(cfg: Config, startingEquity: real, ops: seq<Op>)
    requires AllAllowed(ops)
    ensures var s := Run(cfg, Fresh(startingEquity), ops);
            && s.cash == startingEquity + CashFlow(s.fills) - TotalCharged(cfg, Fresh(startingEquity), ops)
            && s.realized == RealizedTotal(s.fills)
  {
    if ops != [] {
      var n := |ops| - 1;
      LedgerBalances(cfg, startingEquity, ops[..n]);
      DoExplained(cfg, Run(cfg, Fresh(startingEquity), ops[..n]), ops[n]);
    }
  }

  // --------------------------------------------------------------------------
  // The trade history
  // --------------------------------------------------------------------------

  datatype Row = Row(
    symbol: string,
    strategy: string,
    venue: string,
    side: Action,
    qty: real,
    entry: Option<real>,
    exit: Option<real>,
    pnl: real,
    pnlR: real,
    openedAt: Option<Instant>,
    closedAt: Option<Instant>,
    closed: bool)

  function ClosedRow(f: Fill, e: Option<Fill>): Row {
    Row(f.symbol, f.plugin, f.venue, if e.Some? then e.value.side else f.side, f.qty,
        if e.Some? then Some(e.value.price) else None, Some(f.price), f.pnlQuote, f.pnlR,
        if e.Some? then e.value.ts else None, f.ts, true)
  }

  function OpenRow(e: Fill): Row {
    Row(e.symbol, e.plugin, e.venue, e.side, e.qty, Some(e.price), None, 0.0, 0.0, e.ts, None, false)
  }

  /** The entries not yet paired with an exit: of several under one id, the last. */
  function Unpaired(fills: seq<Fill>): map<string, Fill> {
    if fills == [] then map[]
    else
      var n := |fills| - 1;
      var f := fills[n];
      if f.kind.Entry? then Unpaired(fills[..n])[f.decisionId := f] else Unpaired(fills[..n]) - {f.decisionId}
  }

  /** One row for each exit, paired with the last entry of its id. */
  function ClosedRows(fills: seq<Fill>): seq<Row> {
    if fills == [] then []
    else
      var n := |fills| - 1;
      var f := fills[n];
      var before := Unpaired(fills[..n]);
      if f.kind.Entry? then ClosedRows(fills[..n])
      else ClosedRows(fills[..n]) + [ClosedRow(f, if f.decisionId in before then Some(before[f.decisionId]) else None)]
  }

  function RowsPnl(rows: seq<Row>): real {
    if rows == [] then 0.0 else RowsPnl(rows[..|rows| - 1]) + rows[|rows| - 1].pnl
  }

  lemma RowsPnlSnoc(rows: seq<Row>, r: Row)
    ensures RowsPnl(rows + [r]) == RowsPnl(rows) + r.pnl
  {
    assert (rows + [r])[..|rows|] == rows;
  }

  lemma {:induction false} ClosedRowsPnl(fills: seq<Fill>)
    ensures RowsPnl(ClosedRows(fills)) == RealizedTotal(fills)
    ensures forall r :: r in ClosedRows(fills) ==> r.closed
  {
    if fills != [] {
      var n := |fills| - 1;
      ClosedRowsPnl(fills[..n]);
      if !fills[n].kind.Entry? {
        var before := Unpaired(fills[..n]);
        RowsPnlSnoc(ClosedRows(fills[..n]), ClosedRow(fills[n],
          if fills[n].decisionId in before then Some(before[fills[n].decisionId]) else None));
      }
    }
  }

  /** The open rows list each unpaired entry once. */
  ghost predicate ListsOpen(open: seq<Row>, unpaired: map<string, Fill>) {
    exists ids: seq<string> :: (forall k :: k in ids <==> k in unpaired) && ListsIn(open, ids, unpaired)
  }

  /** ... one row for each of the ids, in their order. */
  ghost predicate ListsIn(open: seq<Row>, ids: seq<string>, unpaired: map<string, Fill>) {
    && |open| == |ids|
    && (forall i, j :: 0 <= i < j < |ids| ==> ids[i] != ids[j])
    && forall i :: 0 <= i < |ids| ==> ids[i] in unpaired && open[i] == OpenRow(unpaired[ids[i]])
  }

  /** trades is the history that the fills tell. */
  ghost predicate IsHistory(trades: seq<Row>, fills: seq<Fill>) {
    ClosedRows(fills) <= trades && ListsOpen(trades[|ClosedRows(fills)|..], Unpaired(fills))
  }

  lemma ListedNext(open: seq<Row>, ids: seq<string>, unpaired: map<string, Fill>, k: string)
    requires ListsIn(open, ids, unpaired) && k in unpaired && k !in ids
    ensures ListsIn(open + [OpenRow(unpaired[k])], ids + [k], unpaired)
  {
  }

  /** The rows of the entries still unpaired, in the dictionary's order. */
  method OpenRows(entries: map<string, Fill>) returns (open: seq<Row>)
    ensures ListsOpen(open, entries)
  {
    open := [];
    ghost var ids: seq<string> := [];
    var left := entries;
    while left != map[]
      invariant left.Keys <= entries.Keys && forall k :: k in left ==> left[k] == entries[k]
      invariant forall k :: k in ids <==> k in entries && k !in left
      invariant ListsIn(open, ids, entries)
      decreases |left|
    {
      var k :| k in left;
      ListedNext(open, ids, entries, k);
      open, ids := open + [OpenRow(left[k])], ids + [k];
      left := left - {k};
    }
  }

  lemma {:induction false} OpenPnl(open: seq<Row>)
    requires forall i :: 0 <= i < |open| ==> open[i].pnl == 0.0
    ensures RowsPnl(open) == 0.0
  {
    if open != [] {
      OpenPnl(open[..|open| - 1]);
    }
  }

  /** The rows of a history add up to the profit of the exits, and its open rows show none. */
  lemma HistoryPnl(trades: seq<Row>, fills: seq<Fill>)
    requires IsHistory(trades, fills)
    ensures RowsPnl(trades) == RealizedTotal(fills)
    ensures forall r :: r in trades && !r.closed ==> r.pnl == 0.0
  {
    var closed := ClosedRows(fills);
    var open := trades[|closed|..];
    assert trades == closed + open;
    ClosedRowsPnl(fills);
    OpenPnl(open);
    RowsPnlConcat(closed, open);
  }

  lemma {:induction false} RowsPnlConcat(a: seq<Row>, b: seq<Row>)
    ensures RowsPnl(a + b) == RowsPnl(a) + RowsPnl(b)
  {
    if b == [] {
      assert a + b == a;
    } else {
      assert (a + b)[..|a + b| - 1] == a + b[..|b| - 1];
      RowsPnlConcat(a, b[..|b| - 1]);
    }
  }

  /** The closed trades in the order of their exits, then the open ones. */
  method TradeHistory(fills: seq<Fill>) returns (trades: seq<Row>)
    ensures IsHistory(trades, fills)
  {
    var entries: map<string, Fill> := map[];
    trades := [];
    for i := 0 to |fills|
      invariant entries == Unpaired(fills[..i]) && trades == ClosedRows(fills[..i])
    {
      var f := fills[i];
      assert fills[..i + 1][..i] == fills[..i];
      if f.kind.Entry? {
        entries := entries[f.decisionId := f];
      } else {
        var e := if f.decisionId in entries then Some(entries[f.decisionId]) else None;
        entries := entries - {f.decisionId};
        trades := trades + [ClosedRow(f, e)];
      }
    }
    assert fills[..|fills|] == fills;
    var open := OpenRows(entries);
    trades := trades + open;
  }
}
