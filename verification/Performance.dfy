/** The performance report over both ledgers (aimos/execution/broker/multivenue.py). */
module Performance {
  import opened Numerics
  import opened Schemas
  import B = Broker
  import L = BrokerLedger
  import M = MultiVenue

  /** What the report reads of a trade record. */
  datatype Line = Line(strategy: string, venue: string, pnl: real, closed: bool)

  datatype Group = Group(trades: nat, pnl: real)

  datatype Report = Report(
    closedTrades: nat,
    openTrades: int,
    realized: real,
    winRate: real,
    arbTrades: nat,
    arbPnl: real,
    maxDrawdownPct: real,
    byStrategy: map<string, Group>,
    byVenue: map<string, Group>)

  function OfRow(r: L.Row): Line {
    Line(r.strategy, r.venue, r.pnl, r.closed)
  }

  function OfArb(t: M.Trade): Line {
    Line("CrossExchangeArb", t.buyVenue + "\U{2192}" + t.sellVenue, t.pnl, true)
  }

  function Closed(lines: seq<Line>): seq<Line> {
    if lines == [] then []
    else
      var n := |lines| - 1;
      Closed(lines[..n]) + (if lines[n].closed then [lines[n]] else [])
  }

  function Wins(lines: seq<Line>): nat {
    if lines == [] then 0
    else
      var n := |lines| - 1;
      Wins(lines[..n]) + (if lines[n].pnl > 0.0 then 1 else 0)
  }

  function Pnl(lines: seq<Line>): real {
    if lines == [] then 0.0 else Pnl(lines[..|lines| - 1]) + lines[|lines| - 1].pnl
  }

  // --------------------------------------------------------------------------
  // Breakdowns
  // --------------------------------------------------------------------------

  datatype Dimension = ByStrategy | ByVenue

  function KeyOf(line: Line, dim: Dimension): string {
    if dim.ByStrategy? then line.strategy else line.venue
  }

  function GroupAt(groups: map<string, Group>, key: string): Group {
    if key in groups then groups[key] else Group(0, 0.0)
  }

  function Tally(groups: map<string, Group>, key: string, pnl: real): map<string, Group> {
    var g := GroupAt(groups, key);
    groups[key := Group(g.trades + 1, g.pnl + pnl)]
  }

  function Breakdown(lines: seq<Line>, dim: Dimension): map<string, Group> {
    if lines == [] then map[]
    else
      var n := |lines| - 1;
      Tally(Breakdown(lines[..n], dim), KeyOf(lines[n], dim), lines[n].pnl)
  }

  /** The lines of one group. */
  function Matching(lines: seq<Line>, dim: Dimension, key: string): seq<Line> {
    if lines == [] then []
    else
      var n := |lines| - 1;
      if KeyOf(lines[n], dim) == key then Matching(lines[..n], dim, key) + [lines[n]]
      else Matching(lines[..n], dim, key)
  }

  lemma TallyAt(groups: map<string, Group>, k: string, pnl: real, key: string)
    ensures key in Tally(groups, k, pnl) <==> key in groups || key == k
    ensures GroupAt(Tally(groups, k, pnl), key)
            == var g := GroupAt(groups, key); if key == k then Group(g.trades + 1, g.pnl + pnl) else g
  {
  }

  /** Each group counts and sums its own lines. */
  lemma {:induction false} BreakdownAt(lines: seq<Line>, dim: Dimension, key: string)
    ensures key in Breakdown(lines, dim) <==> Matching(lines, dim, key) != []
    ensures GroupAt(Breakdown(lines, dim), key)
            == Group(|Matching(lines, dim, key)|, Pnl(Matching(lines, dim, key)))
  {
    if lines != [] {
      var n := |lines| - 1;
      BreakdownAt(lines[..n], dim, key);
      TallyAt(Breakdown(lines[..n], dim), KeyOf(lines[n], dim), lines[n].pnl, key);
      var before := Matching(lines[..n], dim, key);
      if KeyOf(lines[n], dim) == key {
        PnlSnoc(before, lines[n]);
      }
    }
  }

  function GroupPnl(g: Group): real {
    g.pnl
  }

  /** The groups add up to the whole. */
  lemma {:induction false} BreakdownTotal(lines: seq<Line>, dim: Dimension)
    ensures MapSum(Breakdown(lines, dim), GroupPnl) == Pnl(lines)
  {
    if lines != [] {
      var n := |lines| - 1;
      BreakdownTotal(lines[..n], dim);
      var before, key := Breakdown(lines[..n], dim), KeyOf(lines[n], dim);
      var g := GroupAt(before, key);
      MapSumUpdate(before, GroupPnl, key, Group(g.trades + 1, g.pnl + lines[n].pnl));
    }
  }

  // --------------------------------------------------------------------------
  // Drawdown
  // --------------------------------------------------------------------------

  function Peak(curve: seq<real>): real
    requires curve != []
  {
    if |curve| == 1 then curve[0] else Max(Peak(curve[..|curve| - 1]), curve[|curve| - 1])
  }

  /** The drop from a peak, as a fraction of it. */
  function Drop(peak: real, e: real): real
    requires peak > 0.0
  {
    (peak - e) / peak
  }

  function MaxDrawdown(curve: seq<real>): real {
    if curve == [] then 0.0
    else
      var before := MaxDrawdown(curve[..|curve| - 1]);
      if Peak(curve) > 0.0 then Max(before, Drop(Peak(curve), curve[|curve| - 1])) else before
  }

  lemma {:induction false} PeakIsMax(curve: seq<real>)
    requires curve != []
    ensures forall i :: 0 <= i < |curve| ==> curve[i] <= Peak(curve)
    ensures exists i :: 0 <= i < |curve| && curve[i] == Peak(curve)
  {
    var n := |curve| - 1;
    if n == 0 {
      assert curve[0] == Peak(curve);
    } else {
      assert curve[n] <= Peak(curve);
      var init := curve[..|curve| - 1];
      PeakIsMax(init);
      var i :| 0 <= i < |init| && init[i] == Peak(init);
      assert curve[i] == Peak(init);
    }
  }

  lemma DropGrows(p: real, q: real, e: real)
    requires 0.0 < p <= q && e >= 0.0
    ensures Drop(p, e) <= Drop(q, e)
  {
    MulMonotone(e, p, q);
    QuotientLeq(p - e, p, q - e, q);
  }

  /** On a curve that never goes below zero, the report's drawdown is the largest drop from
      any earlier point to any later one. */
  lemma {:induction false} DrawdownBoundsDrops(curve: seq<real>, i: nat, j: nat)
    requires forall k :: 0 <= k < |curve| ==> curve[k] >= 0.0
    requires i <= j < |curve| && curve[i] > 0.0
    ensures Drop(curve[i], curve[j]) <= MaxDrawdown(curve)
  {
    var n := |curve| - 1;
    if j < n {
      DrawdownBoundsDrops(curve[..n], i, j);
    } else {
      PeakIsMax(curve);
      DropGrows(curve[i], Peak(curve), curve[n]);
    }
  }

  lemma {:induction false} DrawdownAttained(curve: seq<real>)
    requires MaxDrawdown(curve) != 0.0
    ensures exists i, j :: 0 <= i <= j < |curve| && curve[i] > 0.0 && MaxDrawdown(curve) == Drop(curve[i], curve[j])
  {
    var n := |curve| - 1;
    if MaxDrawdown(curve) == MaxDrawdown(curve[..n]) {
      DrawdownAttained(curve[..n]);
      var i, j :| 0 <= i <= j < n && curve[..n][i] > 0.0
                  && MaxDrawdown(curve[..n]) == Drop(curve[..n][i], curve[..n][j]);
      assert curve[i] == curve[..n][i] && curve[j] == curve[..n][j];
    } else {
      PeakIsMax(curve);
      var i :| 0 <= i < |curve| && curve[i] == Peak(curve);
      assert MaxDrawdown(curve) == Drop(curve[i], curve[n]);
    }
  }

  /** What a drop leaves of a peak. */
  function Left(peak: real, drop: real): real {
    peak * (1.0 - drop)
  }

  lemma DropLeaves(peak: real, e: real)
    requires peak > 0.0
    ensures Left(peak, Drop(peak, e)) == e
  {
    var d := Drop(peak, e);
    assert d * peak == peak - e;
  }

  lemma LargerDropLeavesLess(peak: real, d: real, d': real)
    requires peak > 0.0 && d <= d'
    ensures Left(peak, d') <= Left(peak, d)
  {
    MulMonotone(peak, 1.0 - d', 1.0 - d);
  }

  /** In money: of any value of the curve, all but the drawdown is left at any later point, ... */
  lemma DrawdownLeaves(curve: seq<real>, i: nat, j: nat)
    requires forall k :: 0 <= k < |curve| ==> curve[k] >= 0.0
    requires i <= j < |curve| && curve[i] > 0.0
    ensures Left(curve[i], MaxDrawdown(curve)) <= curve[j]
  {
    DrawdownBoundsDrops(curve, i, j);
    DropLeaves(curve[i], curve[j]);
    LargerDropLeavesLess(curve[i], Drop(curve[i], curve[j]), MaxDrawdown(curve));
  }

  /** ... and no more at some point, if there is a drawdown at all. */
  lemma DrawdownTakes(curve: seq<real>) returns (i: nat, j: nat)
    requires MaxDrawdown(curve) != 0.0
    ensures i <= j < |curve| && curve[i] > 0.0 && curve[j] == Left(curve[i], MaxDrawdown(curve))
  {
    DrawdownAttained(curve);
    i, j :| 0 <= i <= j < |curve| && curve[i] > 0.0 && MaxDrawdown(curve) == Drop(curve[i], curve[j]);
    DropLeaves(curve[i], curve[j]);
  }

  ghost function Winning(lines: seq<Line>): set<nat> {
    set i: nat | i < |lines| && lines[i].pnl > 0.0
  }

  /** The wins are the lines with a profit. */
  lemma {:induction false} WinsCount(lines: seq<Line>)
    ensures Wins(lines) == |Winning(lines)|
  {
    if lines == [] {
      assert Winning(lines) == {};
    } else {
      var n := |lines| - 1;
      WinsCount(lines[..n]);
      if lines[n].pnl > 0.0 {
        assert Winning(lines) == Winning(lines[..n]) + {n};
      } else {
        assert Winning(lines) == Winning(lines[..n]);
      }
    }
  }

  // --------------------------------------------------------------------------
  // The report
  // --------------------------------------------------------------------------

  method ClosedOnly(lines: seq<Line>) returns (closed: seq<Line>)
    ensures closed == Closed(lines)
  {
    closed := [];
    for i := 0 to |lines|
      invariant closed == Closed(lines[..i])
    {
      assert lines[..i + 1][..i] == lines[..i];
      if lines[i].closed {
        closed := closed + [lines[i]];
      }
    }
    assert lines[..|lines|] == lines;
  }

  /** One pass over the closed trades. */
  method Summarize(closed: seq<Line>)
    returns (wins: nat, realized: real, byStrategy: map<string, Group>, byVenue: map<string, Group>)
    ensures wins == Wins(closed) && realized == Pnl(closed)
    ensures byStrategy == Breakdown(closed, ByStrategy) && byVenue == Breakdown(closed, ByVenue)
  {
    wins, realized, byStrategy, byVenue := 0, 0.0, map[], map[];
    for i := 0 to |closed|
      invariant wins == Wins(closed[..i]) && realized == Pnl(closed[..i])
      invariant byStrategy == Breakdown(closed[..i], ByStrategy) && byVenue == Breakdown(closed[..i], ByVenue)
    {
      var t := closed[i];
      assert closed[..i + 1][..i] == closed[..i];
      wins := wins + (if t.pnl > 0.0 then 1 else 0);
      realized := realized + t.pnl;
      byStrategy := Tally(byStrategy, t.strategy, t.pnl);
      byVenue := Tally(byVenue, t.venue, t.pnl);
    }
    assert closed[..|closed|] == closed;
  }

  method Drawdown(curve: seq<real>) returns (dd: real)
    ensures dd == MaxDrawdown(curve)
  {
    dd := 0.0;
    if curve == [] {
      return;
    }
    var peak := curve[0];
    for i := 0 to |curve|
      invariant peak == if i == 0 then curve[0] else Peak(curve[..i])
      invariant dd == MaxDrawdown(curve[..i])
    {
      assert curve[..i + 1][..i] == curve[..i];
      peak := Max(peak, curve[i]);
      if peak > 0.0 {
        dd := Max(dd, Drop(peak, curve[i]));
      }
    }
    assert curve[..|curve|] == curve;
  }

  function WinRate(wins: nat, closed: nat): (rate: real)
    ensures closed > 0 ==> rate * closed as real == wins as real
    ensures closed == 0 ==> rate == 0.0
  {
    if closed > 0 then wins as real / closed as real else 0.0
  }

  method Performance(directional: seq<Line>, arb: seq<Line>, curve: seq<real>) returns (r: Report)
    ensures r.realized == Pnl(Closed(directional + arb))
    ensures r.realized == MapSum(r.byStrategy, GroupPnl) == MapSum(r.byVenue, GroupPnl)
    ensures r.byStrategy == Breakdown(Closed(directional + arb), ByStrategy)
    ensures r.byVenue == Breakdown(Closed(directional + arb), ByVenue)
    ensures r.closedTrades == |Closed(directional + arb)|
    ensures r.openTrades == |directional| - |Closed(directional)|
    ensures r.winRate == WinRate(Wins(Closed(directional + arb)), r.closedTrades)
    ensures r.arbTrades == |arb| && r.arbPnl == Pnl(arb)
    ensures r.maxDrawdownPct == MaxDrawdown(curve) * PCT
  {
    var closed := ClosedOnly(directional + arb);
    var wins, realized, byStrategy, byVenue := Summarize(closed);
    BreakdownTotal(closed, ByStrategy);
    BreakdownTotal(closed, ByVenue);
    var dd := Drawdown(curve);
    var closedDirectional := ClosedOnly(directional);
    var _, arbPnl, _, _ := Summarize(arb);
    r := Report(|closed|, |directional| - |closedDirectional|, realized, WinRate(wins, |closed|), |arb|, arbPnl,
                dd * PCT, byStrategy, byVenue);
  }

  // --------------------------------------------------------------------------
  // The report agrees with both ledgers
  // --------------------------------------------------------------------------

  function OfRows(rows: seq<L.Row>): seq<Line> {
    if rows == [] then [] else OfRows(rows[..|rows| - 1]) + [OfRow(rows[|rows| - 1])]
  }

  function OfArbs(trades: seq<M.Trade>): seq<Line> {
    if trades == [] then [] else OfArbs(trades[..|trades| - 1]) + [OfArb(trades[|trades| - 1])]
  }

  lemma {:induction false} ClosedConcat(a: seq<Line>, b: seq<Line>)
    ensures Pnl(Closed(a + b)) == Pnl(Closed(a)) + Pnl(Closed(b))
  {
    if b == [] {
      assert a + b == a;
    } else {
      var n := |b| - 1;
      assert (a + b)[..|a + b| - 1] == a + b[..n];
      ClosedConcat(a, b[..n]);
      assert Closed(a + b[..n]) + [] == Closed(a + b[..n]) && Closed(b[..n]) + [] == Closed(b[..n]);
      PnlSnoc(Closed(a + b[..n]), b[n]);
      PnlSnoc(Closed(b[..n]), b[n]);
    }
  }

  lemma PnlSnoc(lines: seq<Line>, line: Line)
    ensures Pnl(lines + [line]) == Pnl(lines) + line.pnl
  {
    assert (lines + [line])[..|lines|] == lines;
  }

  lemma {:induction false} ClosedOfRows(rows: seq<L.Row>)
    requires forall r :: r in rows && !r.closed ==> r.pnl == 0.0
    ensures Pnl(Closed(OfRows(rows))) == L.RowsPnl(rows)
  {
    if rows != [] {
      var n := |rows| - 1;
      ClosedOfRows(rows[..n]);
      var lines := OfRows(rows[..n]);
      assert (lines + [OfRow(rows[n])])[..|lines|] == lines && Closed(lines) + [] == Closed(lines);
      PnlSnoc(Closed(lines), OfRow(rows[n]));
    }
  }

  lemma {:induction false} ClosedOfArbs(trades: seq<M.Trade>)
    ensures Pnl(Closed(OfArbs(trades))) == M.TradePnl(trades)
  {
    if trades != [] {
      var n := |trades| - 1;
      ClosedOfArbs(trades[..n]);
      var lines := OfArbs(trades[..n]);
      assert (lines + [OfArb(trades[n])])[..|lines|] == lines;
      PnlSnoc(Closed(lines), OfArb(trades[n]));
    }
  }

  /** The profit of the closed rows of one strategy, or of one venue. */
  function RowsOf(rows: seq<L.Row>, dim: Dimension, key: string): real {
    if rows == [] then 0.0
    else
      var n := |rows| - 1;
      var mine := rows[n].closed && key == if dim.ByStrategy? then rows[n].strategy else rows[n].venue;
      RowsOf(rows[..n], dim, key) + if mine then rows[n].pnl else 0.0
  }

  /** The profit of the arbitrages, which make up one strategy, or of those over one pair of venues. */
  function ArbsOf(trades: seq<M.Trade>, dim: Dimension, key: string): real {
    if trades == [] then 0.0
    else
      var n := |trades| - 1;
      ArbsOf(trades[..n], dim, key) + if ArbIn(trades[n], dim, key) then trades[n].pnl else 0.0
  }

  predicate ArbIn(t: M.Trade, dim: Dimension, key: string) {
    key == if dim.ByStrategy? then "CrossExchangeArb" else t.buyVenue + "\U{2192}" + t.sellVenue
  }

  lemma KeyOfArb(t: M.Trade, dim: Dimension, key: string)
    ensures KeyOf(OfArb(t), dim) == key <==> ArbIn(t, dim, key)
    ensures OfArb(t).closed && OfArb(t).pnl == t.pnl
  {
  }

  /** The profit of the closed lines of a group. */
  function ClosedIn(lines: seq<Line>, dim: Dimension, key: string): real {
    Pnl(Matching(Closed(lines), dim, key))
  }

  lemma {:induction false} ClosedInSnoc(lines: seq<Line>, line: Line, dim: Dimension, key: string)
    ensures ClosedIn(lines + [line], dim, key)
            == ClosedIn(lines, dim, key) + if line.closed && KeyOf(line, dim) == key then line.pnl else 0.0
  {
    assert (lines + [line])[..|lines|] == lines;
    var closed := Closed(lines);
    if line.closed {
      assert Closed(lines + [line]) == closed + [line];
      assert (closed + [line])[..|closed|] == closed;
      PnlSnoc(Matching(closed, dim, key), line);
    } else {
      assert Closed(lines + [line]) == closed + [] == closed;
    }
  }

  lemma {:induction false} GroupOfRows(rows: seq<L.Row>, dim: Dimension, key: string)
    ensures ClosedIn(OfRows(rows), dim, key) == RowsOf(rows, dim, key)
  {
    if rows != [] {
      var n := |rows| - 1;
      GroupOfRows(rows[..n], dim, key);
      ClosedInSnoc(OfRows(rows[..n]), OfRow(rows[n]), dim, key);
    }
  }

  lemma {:induction false} GroupOfArbs(lines: seq<Line>, trades: seq<M.Trade>, dim: Dimension, key: string)
    ensures ClosedIn(lines + OfArbs(trades), dim, key) == ClosedIn(lines, dim, key) + ArbsOf(trades, dim, key)
  {
    if trades == [] {
      assert lines + OfArbs(trades) == lines;
    } else {
      var init, last := trades[..|trades| - 1], trades[|trades| - 1];
      GroupOfArbs(lines, init, dim, key);
      ArbsSnoc(lines, trades);
      KeyOfArb(last, dim, key);
      ClosedInSnoc(lines + OfArbs(init), OfArb(last), dim, key);
    }
  }

  lemma ArbsSnoc(lines: seq<Line>, trades: seq<M.Trade>)
    requires trades != []
    ensures lines + OfArbs(trades)
            == (lines + OfArbs(trades[..|trades| - 1])) + [OfArb(trades[|trades| - 1])]
  {
    ConcatSnoc(lines, OfArbs(trades[..|trades| - 1]), OfArb(trades[|trades| - 1]));
  }

  lemma ConcatSnoc(a: seq<Line>, b: seq<Line>, line: Line)
    ensures a + (b + [line]) == (a + b) + [line]
  {
  }

  /** Each group of the report shows the profit of its strategy's, or its venue's, closed trades in both ledgers. */
  lemma ReportGroups(rows: seq<L.Row>, trades: seq<M.Trade>, dim: Dimension, key: string)
    ensures GroupAt(Breakdown(Closed(OfRows(rows) + OfArbs(trades)), dim), key).pnl
            == RowsOf(rows, dim, key) + ArbsOf(trades, dim, key)
  {
    BreakdownAt(Closed(OfRows(rows) + OfArbs(trades)), dim, key);
    GroupOfRows(rows, dim, key);
    GroupOfArbs(OfRows(rows), trades, dim, key);
  }

  /** After any run of the broker and any run of the arbitrage simulator, the realized profit
      the report shows is the broker's plus the simulator's. rows is the broker's history. */
  lemma ReportMatchesLedgers(cfg: B.Config, equity: real, ops: seq<B.Op>, rows: seq<L.Row>,
                             venues: seq<string>, total: real, takerBps: real, arbs: seq<M.Arb>)
    requires B.AllAllowed(ops) && 1.0 + takerBps / BPS != 0.0
    requires L.IsHistory(rows, B.Run(cfg, B.Fresh(equity), ops).fills)
    ensures var s, m := B.Run(cfg, B.Fresh(equity), ops), M.Exec(M.Start(venues, total, takerBps), arbs);
            Pnl(Closed(OfRows(rows) + OfArbs(m.trades))) == s.realized + m.realizedArb
  {
    var m := M.Exec(M.Start(venues, total, takerBps), arbs);
    L.LedgerBalances(cfg, equity, ops);
    M.ArbRun(venues, total, takerBps, arbs);
    L.HistoryPnl(rows, B.Run(cfg, B.Fresh(equity), ops).fills);
    ClosedOfRows(rows);
    ClosedOfArbs(m.trades);
    ClosedConcat(OfRows(rows), OfArbs(m.trades));
  }
}
