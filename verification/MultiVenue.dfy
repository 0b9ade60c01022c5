/** Simulated multi-venue balances and two-leg arbitrage (aimos/execution/broker/multivenue.py). */
module MultiVenue {
  import opened Numerics
  import opened Schemas

  const USDT := "USDT"

  type Balances = map<string, map<string, real>>

  datatype Trade = Trade(
    base: string,
    buyVenue: string,
    sellVenue: string,
    qty: real,
    entry: real,
    exit: real,
    pnl: real,
    at: Instant)

  datatype State = State(takerBps: real, balances: Balances, trades: seq<Trade>, realizedArb: real)

  datatype Arb = Arb(base: string, buyVenue: string, sellVenue: string, buyPrice: real, sellPrice: real,
                     notional: real, now: Instant)

  /** What one venue holds in USDT; nothing if it or its USDT is unknown. */
  function Usdt(assets: map<string, real>): real {
    if USDT in assets then assets[USDT] else 0.0
  }

  function At(balances: Balances, venue: string): map<string, real> {
    if venue in balances then balances[venue] else map[]
  }

  ghost function Total(balances: Balances): real {
    MapSum(balances, Usdt)
  }

  /** A venue's USDT moved by some amount, the venue entered if it was not known. */
  function Move(balances: Balances, venue: string, amount: real): Balances {
    var assets := At(balances, venue);
    balances[venue := assets[USDT := Usdt(assets) + amount]]
  }

  function Fee(notional: real, takerBps: real): real {
    notional * takerBps / BPS
  }

  /** What a buy venue can spend so that the spend and its fee stay within the balance. */
  function Affordable(available: real, takerBps: real): real
    requires 1.0 + takerBps / BPS != 0.0
  {
    available / (1.0 + takerBps / BPS)
  }

  /** The notional actually traded. */
  function Sized(s: State, a: Arb): real
    requires 1.0 + s.takerBps / BPS != 0.0
  {
    Min(a.notional, Affordable(Usdt(At(s.balances, a.buyVenue)), s.takerBps))
  }

  predicate Skipped(s: State, a: Arb)
    requires 1.0 + s.takerBps / BPS != 0.0
  {
    a.buyPrice <= 0.0 || a.sellPrice <= 0.0 || a.notional <= 0.0 || Sized(s, a) <= 1.0
  }

  function Proceeds(s: State, a: Arb): real
    requires 1.0 + s.takerBps / BPS != 0.0 && a.buyPrice != 0.0
  {
    Sized(s, a) / a.buyPrice * a.sellPrice
  }

  function Pnl(s: State, a: Arb): real
    requires 1.0 + s.takerBps / BPS != 0.0 && a.buyPrice != 0.0
  {
    Proceeds(s, a) - Sized(s, a) - Fee(Sized(s, a), s.takerBps) - Fee(Proceeds(s, a), s.takerBps)
  }

  function Arbitrage(s: State, a: Arb): (State, real)
    requires 1.0 + s.takerBps / BPS != 0.0
  {
    if Skipped(s, a) then (s, 0.0)
    else
      var spent := Sized(s, a) + Fee(Sized(s, a), s.takerBps);
      var received := Proceeds(s, a) - Fee(Proceeds(s, a), s.takerBps);
      var pnl := Pnl(s, a);
      (State(s.takerBps,
             Move(Move(s.balances, a.buyVenue, -spent), a.sellVenue, received),
             s.trades + [Trade(a.base, a.buyVenue, a.sellVenue, Sized(s, a) / a.buyPrice, a.buyPrice, a.sellPrice,
                               pnl, a.now)],
             s.realizedArb + pnl),
       pnl)
  }

  // --------------------------------------------------------------------------
  // The start
  // --------------------------------------------------------------------------

  function SpreadOver(venues: seq<string>, each: real): Balances {
    if venues == [] then map[]
    else SpreadOver(venues[..|venues| - 1], each)[venues[|venues| - 1] := map[USDT := each]]
  }

  function Start(venues: seq<string>, startTotal: real, takerBps: real): State {
    State(takerBps, SpreadOver(venues, startTotal / (if |venues| > 1 then |venues| else 1) as real), [], 0.0)
  }

  ghost predicate Distinct(venues: seq<string>) {
    forall i, j :: 0 <= i < j < |venues| ==> venues[i] != venues[j]
  }

  function Venues(venues: seq<string>): set<string> {
    set v | v in venues
  }

  lemma {:induction false} SpreadAt(venues: seq<string>, each: real, v: string)
    ensures v in SpreadOver(venues, each) <==> v in venues
    ensures v in venues ==> SpreadOver(venues, each)[v] == map[USDT := each]
  {
    if venues != [] {
      var n := |venues| - 1;
      SpreadAt(venues[..n], each, v);
      assert venues == venues[..n] + [venues[n]];
    }
  }

  lemma VenuesSnoc(venues: seq<string>)
    requires venues != []
    ensures var n := |venues| - 1;
            Venues(venues) == Venues(venues[..n]) + {venues[n]}
  {
    var n := |venues| - 1;
    assert venues == venues[..n] + [venues[n]];
  }

  lemma {:induction false} SpreadTotal(venues: seq<string>, each: real)
    ensures Total(SpreadOver(venues, each)) == Scale(each, |Venues(venues)|)
  {
    if venues == [] {
      assert Venues(venues) == {};
    } else {
      var n := |venues| - 1;
      SpreadTotal(venues[..n], each);
      MapSumUpdate(SpreadOver(venues[..n], each), Usdt, venues[n], map[USDT := each]);
      SpreadAt(venues[..n], each, venues[n]);
      VenuesSnoc(venues);
    }
  }

  lemma {:induction false} DistinctCount(venues: seq<string>)
    ensures |Venues(venues)| <= |venues|
    ensures Distinct(venues) <==> |Venues(venues)| == |venues|
  {
    if venues == [] {
      assert Venues(venues) == {};
    } else {
      var n := |venues| - 1;
      DistinctCount(venues[..n]);
      VenuesSnoc(venues);
      if venues[n] in venues[..n] {
        var i :| 0 <= i < n && venues[..n][i] == venues[n];
        assert venues[i] == venues[n];
      } else if Distinct(venues[..n]) {
        assert Distinct(venues);
      }
    }
  }

  /** The books open at the starting total exactly when the venues are distinct and there
      is one, or there is nothing to spread. */
  lemma StartTotalIff(venues: seq<string>, startTotal: real, takerBps: real)
    ensures Total(Start(venues, startTotal, takerBps).balances) == startTotal
            <==> startTotal == 0.0 || (venues != [] && Distinct(venues))
  {
    var d := (if |venues| > 1 then |venues| else 1) as real;
    StartTotal(venues, startTotal, d);
    SharesAddUp(startTotal, d, |Venues(venues)| as real);
    SharesCount(venues);
  }

  lemma SharesCount(venues: seq<string>)
    ensures |Venues(venues)| as real == (if |venues| > 1 then |venues| else 1) as real
            <==> venues != [] && Distinct(venues)
  {
    DistinctCount(venues);
    if venues == [] {
      assert Venues(venues) == {};
    }
  }

  lemma StartTotal(venues: seq<string>, startTotal: real, d: real)
    requires d > 0.0
    ensures Total(SpreadOver(venues, startTotal / d)) == startTotal / d * |Venues(venues)| as real
  {
    SpreadTotal(venues, startTotal / d);
    ScaleIsProduct(startTotal / d, |Venues(venues)|);
  }

  lemma SharesAddUp(total: real, d: real, k: real)
    requires d > 0.0
    ensures total / d * k == total <==> total == 0.0 || k == d
  {
    var share := total / d;
    assert share * d == total;
    assert share * k - total == share * (k - d);
    if total != 0.0 && k != d {
      assert share != 0.0;
    }
  }

  // --------------------------------------------------------------------------
  // One arbitrage
  // --------------------------------------------------------------------------

  lemma MoveTotal(balances: Balances, venue: string, amount: real)
    ensures Total(Move(balances, venue, amount)) == Total(balances) + amount
  {
    var assets := At(balances, venue);
    MapSumUpdate(balances, Usdt, venue, assets[USDT := Usdt(assets) + amount]);
  }

  ghost predicate Solvent(balances: Balances) {
    forall v :: v in balances ==> Usdt(balances[v]) >= 0.0
  }

  function TradePnl(trades: seq<Trade>): real {
    if trades == [] then 0.0 else TradePnl(trades[..|trades| - 1]) + trades[|trades| - 1].pnl
  }

  /** The sheet moves by the profit, and the ledger records it. */
  lemma ArbConserves(s: State, a: Arb)
    requires 1.0 + s.takerBps / BPS != 0.0
    ensures var (s', pnl) := Arbitrage(s, a);
            && Total(s'.balances) == Total(s.balances) + pnl
            && s'.realizedArb == s.realizedArb + pnl
            && TradePnl(s'.trades) == TradePnl(s.trades) + pnl
  {
    if !Skipped(s, a) {
      var spent := Sized(s, a) + Fee(Sized(s, a), s.takerBps);
      MoveTotal(s.balances, a.buyVenue, -spent);
      MoveTotal(Move(s.balances, a.buyVenue, -spent), a.sellVenue, Proceeds(s, a) - Fee(Proceeds(s, a), s.takerBps));
      var t := Arbitrage(s, a).0.trades;
      assert t[..|t| - 1] == s.trades;
    }
  }

  predicate FairFee(takerBps: real) {
    0.0 <= takerBps <= BPS
  }

  lemma FeeWithin(notional: real, takerBps: real, available: real)
    requires FairFee(takerBps) && notional <= Affordable(available, takerBps)
    ensures notional + Fee(notional, takerBps) <= available
  {
    var rate := 1.0 + takerBps / BPS;
    assert Affordable(available, takerBps) * rate == available;
    MulMonotone(rate, notional, Affordable(available, takerBps));
    assert notional * rate == notional + Fee(notional, takerBps);
  }

  lemma FeeBelowProceeds(proceeds: real, takerBps: real)
    requires FairFee(takerBps) && proceeds >= 0.0
    ensures Fee(proceeds, takerBps) <= proceeds
  {
    MulMonotone(proceeds, takerBps, BPS);
  }

  /** No venue is overdrawn: the buy is sized to the balance with its fee, and a fee of at
      most the proceeds leaves the sell venue no poorer. */
  lemma ArbStaysSolvent(s: State, a: Arb)
    requires FairFee(s.takerBps) && Solvent(s.balances)
    ensures Solvent(Arbitrage(s, a).0.balances)
  {
    if !Skipped(s, a) {
      FeeWithin(Sized(s, a), s.takerBps, Usdt(At(s.balances, a.buyVenue)));
      FeeBelowProceeds(Proceeds(s, a), s.takerBps);
    }
  }

  // --------------------------------------------------------------------------
  // In prices
  // --------------------------------------------------------------------------

  /** The fee as a fraction of what changes hands. */
  function FeeFraction(takerBps: real): real {
    takerBps / 10000.0
  }

  /** What one unit brings: sold at the one price and bought at the other, with the fee on both. */
  function UnitProfit(buyPrice: real, sellPrice: real, f: real): real {
    sellPrice * (1.0 - f) - buyPrice * (1.0 + f)
  }

  /** One more trade is on record, of this quantity, with these prices and this profit. */
  ghost predicate Recorded(before: seq<Trade>, after: seq<Trade>, a: Arb, qty: real, pnl: real) {
    after == before + [Trade(a.base, a.buyVenue, a.sellVenue, qty, a.buyPrice, a.sellPrice, pnl, a.now)]
  }

  lemma ProfitFromPrices(s: State, a: Arb, qty: real)
    requires 1.0 + s.takerBps / BPS != 0.0 && a.buyPrice > 0.0 && qty * a.buyPrice == Sized(s, a)
    ensures Pnl(s, a) == qty * UnitProfit(a.buyPrice, a.sellPrice, FeeFraction(s.takerBps))
    ensures Proceeds(s, a) == qty * a.sellPrice
  {
    var f, sized := FeeFraction(s.takerBps), Sized(s, a);
    QuotientIs(sized, a.buyPrice, qty);
    FeeIsFraction(sized, s.takerBps);
    FeeIsFraction(Proceeds(s, a), s.takerBps);
    UnitProfitTimes(qty, a.buyPrice, a.sellPrice, f);
  }

  lemma QuotientIs(x: real, d: real, q: real)
    requires d > 0.0 && q * d == x
    ensures x / d == q
  {
  }

  lemma FeeIsFraction(notional: real, takerBps: real)
    ensures Fee(notional, takerBps) == notional * FeeFraction(takerBps)
  {
  }

  lemma UnitProfitTimes(qty: real, buy: real, sell: real, f: real)
    ensures qty * UnitProfit(buy, sell, f) == qty * sell - qty * buy - qty * buy * f - qty * sell * f
  {
  }

  /** An arbitrage that is not skipped moves all the venues together, and the realized profit, by what its
      quantity makes of the two prices and the fee; the record shows the quantity and the prices. */
  lemma ArbEarns(s: State, a: Arb)
    requires 1.0 + s.takerBps / BPS != 0.0 && !Skipped(s, a)
    ensures var (s', pnl) := Arbitrage(s, a);
            var qty, f := Sized(s, a) / a.buyPrice, FeeFraction(s.takerBps);
            && qty > 0.0 && Recorded(s.trades, s'.trades, a, qty, pnl)
            && pnl == qty * UnitProfit(a.buyPrice, a.sellPrice, f)
            && Total(s'.balances) == Total(s.balances) + pnl && s'.realizedArb == s.realizedArb + pnl
            && (pnl > 0.0 <==> a.sellPrice * (1.0 - f) > a.buyPrice * (1.0 + f))
  {
    var qty, f := Sized(s, a) / a.buyPrice, FeeFraction(s.takerBps);
    assert qty * a.buyPrice == Sized(s, a);
    MulSign(qty, a.buyPrice);
    ProfitFromPrices(s, a, qty);
    ArbConserves(s, a);
    ProductSign(qty, UnitProfit(a.buyPrice, a.sellPrice, f));
  }

  lemma ProductSign(qty: real, x: real)
    requires qty > 0.0
    ensures qty * x > 0.0 <==> x > 0.0
  {
    MulSign(qty, x);
    MulSign(qty, -x);
  }

  /** The quantity is as large as the order and the buy venue's balance, its fee included, allow. */
  lemma ArbSize(s: State, a: Arb, qty: real)
    requires FairFee(s.takerBps) && !Skipped(s, a) && qty == Sized(s, a) / a.buyPrice
    ensures var f := FeeFraction(s.takerBps);
            var available := Usdt(At(s.balances, a.buyVenue));
            && qty * a.buyPrice <= a.notional && qty * a.buyPrice * (1.0 + f) <= available
            && (qty * a.buyPrice == a.notional || qty * a.buyPrice * (1.0 + f) == available)
  {
    var rate, available := 1.0 + s.takerBps / BPS, Usdt(At(s.balances, a.buyVenue));
    assert qty * a.buyPrice == Sized(s, a);
    assert Affordable(available, s.takerBps) * rate == available;
    MulMonotone(rate, Sized(s, a), Affordable(available, s.takerBps));
  }

  /** An arbitrage is skipped, and leaves everything as it is, exactly if a price is not positive or no more than
      one dollar's worth was ordered or can be paid for with its fee. */
  lemma SkippedIff(s: State, a: Arb)
    requires FairFee(s.takerBps)
    ensures Arbitrage(s, a) == (s, 0.0) || !Skipped(s, a)
    ensures Skipped(s, a)
            <==> a.buyPrice <= 0.0 || a.sellPrice <= 0.0 || a.notional <= 1.0
                 || Usdt(At(s.balances, a.buyVenue)) <= 1.0 + FeeFraction(s.takerBps)
  {
    var rate, available := 1.0 + FeeFraction(s.takerBps), Usdt(At(s.balances, a.buyVenue));
    AtMostOne(available, rate);
    assert Affordable(available, s.takerBps) == available / rate;
  }

  lemma AtMostOne(x: real, rate: real)
    requires rate > 0.0
    ensures x / rate <= 1.0 <==> x <= rate
  {
    var q := x / rate;
    assert q * rate == x;
    MulSign(q - 1.0, rate);
    MulSign(1.0 - q, rate);
    assert (q - 1.0) * rate == x - rate && (1.0 - q) * rate == rate - x;
  }

  /** The two legs: the buy venue pays for the quantity and its fee, the sell venue receives its price less
      the fee, and no other venue is touched. On a venue of its own each shows in full. */
  lemma ArbLegs(s: State, a: Arb, v: string)
    requires 1.0 + s.takerBps / BPS != 0.0 && !Skipped(s, a)
    ensures var s' := Arbitrage(s, a).0;
            var qty, f := Sized(s, a) / a.buyPrice, FeeFraction(s.takerBps);
            var bought, sold := qty * a.buyPrice * (1.0 + f), qty * a.sellPrice * (1.0 - f);
            Usdt(At(s'.balances, v)) == Usdt(At(s.balances, v))
                                        - (if v == a.buyVenue then bought else 0.0)
                                        + (if v == a.sellVenue then sold else 0.0)
  {
    LegAmounts(s, a);
    var spent := Sized(s, a) + Fee(Sized(s, a), s.takerBps);
    var received := Proceeds(s, a) - Fee(Proceeds(s, a), s.takerBps);
    MoveAt(s.balances, a.buyVenue, -spent, v);
    MoveAt(Move(s.balances, a.buyVenue, -spent), a.sellVenue, received, v);
  }

  lemma LegAmounts(s: State, a: Arb)
    requires 1.0 + s.takerBps / BPS != 0.0 && a.buyPrice > 0.0
    ensures var qty, f := Sized(s, a) / a.buyPrice, FeeFraction(s.takerBps);
            && Sized(s, a) + Fee(Sized(s, a), s.takerBps) == qty * a.buyPrice * (1.0 + f)
            && Proceeds(s, a) - Fee(Proceeds(s, a), s.takerBps) == qty * a.sellPrice * (1.0 - f)
  {
    var qty, f := Sized(s, a) / a.buyPrice, FeeFraction(s.takerBps);
    assert qty * a.buyPrice == Sized(s, a);
    FeeIsFraction(Sized(s, a), s.takerBps);
    FeeIsFraction(Proceeds(s, a), s.takerBps);
    LegWithFee(Sized(s, a), f);
    LegWithFee(Proceeds(s, a), f);
  }

  lemma LegWithFee(x: real, f: real)
    ensures x * (1.0 + f) == x + x * f && x * (1.0 - f) == x - x * f
  {
  }

  lemma MoveAt(balances: Balances, venue: string, amount: real, v: string)
    ensures Usdt(At(Move(balances, venue, amount), v)) == Usdt(At(balances, v)) + if v == venue then amount else 0.0
  {
  }

  // --------------------------------------------------------------------------
  // Runs
  // --------------------------------------------------------------------------

  ghost function Exec(s: State, arbs: seq<Arb>): (s': State)
    requires 1.0 + s.takerBps / BPS != 0.0
    ensures s'.takerBps == s.takerBps
  {
    if arbs == [] then s
    else Arbitrage(Exec(s, arbs[..|arbs| - 1]), arbs[|arbs| - 1]).0
  }

  lemma {:induction false} RunConserves(s: State, arbs: seq<Arb>)
    requires 1.0 + s.takerBps / BPS != 0.0
    ensures var s' := Exec(s, arbs);
            && Total(s'.balances) - s'.realizedArb == Total(s.balances) - s.realizedArb
            && TradePnl(s'.trades) - s'.realizedArb == TradePnl(s.trades) - s.realizedArb
            && (FairFee(s.takerBps) && Solvent(s.balances) ==> Solvent(s'.balances))
  {
    if arbs != [] {
      var n := |arbs| - 1;
      RunConserves(s, arbs[..n]);
      ArbConserves(Exec(s, arbs[..n]), arbs[n]);
      if FairFee(s.takerBps) && Solvent(s.balances) {
        ArbStaysSolvent(Exec(s, arbs[..n]), arbs[n]);
      }
    }
  }

  /** After any run, same-venue legs, unknown venues and dry venues included: the realized
      profit is the ledger's; total USDT is the start plus that profit exactly when the venues
      are distinct and there is one (or nothing was spread); and no venue is overdrawn, if none
      was to begin with and the fee is at most the proceeds. */
  lemma ArbRun(venues: seq<string>, startTotal: real, takerBps: real, arbs: seq<Arb>)
    requires 1.0 + takerBps / BPS != 0.0
    ensures var s := Exec(Start(venues, startTotal, takerBps), arbs);
            && TradePnl(s.trades) == s.realizedArb
            && (Total(s.balances) == startTotal + s.realizedArb
                <==> startTotal == 0.0 || (venues != [] && Distinct(venues)))
            && (FairFee(takerBps) && startTotal >= 0.0 ==> Solvent(s.balances))
  {
    var start := Start(venues, startTotal, takerBps);
    StartTotalIff(venues, startTotal, takerBps);
    var each := startTotal / (if |venues| > 1 then |venues| else 1) as real;
    forall v | v in start.balances && startTotal >= 0.0
      ensures Usdt(start.balances[v]) >= 0.0
    {
      SpreadAt(venues, each, v);
    }
    RunConserves(start, arbs);
  }

  // --------------------------------------------------------------------------
  // The simulator
  // --------------------------------------------------------------------------

  class MultiVenueSim {
    const takerBps: real
    var balances: Balances
    var trades: seq<Trade>
    var realizedArb: real
    var count: nat

    function View(): State
      reads this
    {
      State(takerBps, balances, trades, realizedArb)
    }

    constructor (venues: seq<string>, startTotal: real, takerBps: real)
      ensures View() == Start(venues, startTotal, takerBps) && count == 0
    {
      this.takerBps := takerBps;
      balances := SpreadOver(venues, startTotal / (if |venues| > 1 then |venues| else 1) as real);
      trades, realizedArb, count := [], 0.0, 0;
    }

    method ExecuteArb(base: string, buyVenue: string, sellVenue: string, buyPrice: real, sellPrice: real,
                      notionalUsd: real, now: Instant) returns (pnl: real)
      requires 1.0 + takerBps / BPS != 0.0
      modifies this
      ensures (View(), pnl)
              == Arbitrage(old(View()), Arb(base, buyVenue, sellVenue, buyPrice, sellPrice, notionalUsd, now))
      ensures count == old(count) + |trades| - |old(trades)|
    {
      if buyPrice <= 0.0 || sellPrice <= 0.0 || notionalUsd <= 0.0 {
        return 0.0;
      }
      var available := Usdt(At(balances, buyVenue));
      var notional := Min(notionalUsd, Affordable(available, takerBps));
      if notional <= 1.0 {
        return 0.0;
      }
      var qty := notional / buyPrice;
      var buyFee := Fee(notional, takerBps);
      var proceeds := qty * sellPrice;
      var sellFee := Fee(proceeds, takerBps);
      pnl := proceeds - notional - buyFee - sellFee;
      ghost var s := View();
      ghost var a := Arb(base, buyVenue, sellVenue, buyPrice, sellPrice, notionalUsd, now);
      assert notional == Sized(s, a) && proceeds == Proceeds(s, a) && pnl == Pnl(s, a);
      balances := Move(balances, buyVenue, -(notional + buyFee));
      balances := Move(balances, sellVenue, proceeds - sellFee);
      realizedArb := realizedArb + pnl;
      count := count + 1;
      trades := trades + [Trade(base, buyVenue, sellVenue, qty, buyPrice, sellPrice, pnl, now)];
    }
  }
}
