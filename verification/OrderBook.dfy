/** Walking one side of an order book (aimos/data/orderbook.py). */
module OrderBook {
  import opened Numerics

  datatype Level = Level(price: real, size: real)

  /** The side being hit: asks for a buy, bids for a sell. */
  datatype Side = Asks | Bids

  /** x is no worse a price than y for whoever hits this side. */
  predicate NoWorse(side: Side, x: real, y: real) {
    if side.Asks? then x <= y else y <= x
  }

  /** What a venue publishes: positive prices, no negative size. */
  predicate ValidLevels(levels: seq<Level>) {
    forall k :: 0 <= k < |levels| ==> levels[k].price > 0.0 && levels[k].size >= 0.0
  }

  /** One side of a book: best price first, and no price better than mid. */
  ghost predicate OneSided(side: Side, levels: seq<Level>, mid: real) {
    && ValidLevels(levels)
    && (forall j, k :: 0 <= j < k < |levels| ==> NoWorse(side, levels[j].price, levels[k].price))
    && (forall k :: 0 <= k < |levels| ==> NoWorse(side, mid, levels[k].price))
  }

  /** The money one level absorbs: what its whole size costs. */
  function Notional(level: Level): (usd: real)
    ensures level.price > 0.0 ==> usd / level.price == level.size
    ensures level.price > 0.0 && level.size >= 0.0 ==> usd >= 0.0
  {
    level.price * level.size
  }

  /** What usd buys at one price. */
  function Buys(usd: real, price: real): real
    requires price != 0.0
  {
    usd / price
  }

  function Times(a: real, b: real): real {
    a * b
  }

  /** The base quantity that spending usd on the levels buys. Whatever the book cannot
      absorb is bought at the price of the last level. */
  function Filled(levels: seq<Level>, usd: real): real
    requires levels != [] && ValidLevels(levels)
    decreases |levels|
  {
    var first := levels[0];
    if |levels| == 1 || usd <= Notional(first) then Buys(usd, first.price)
    else Buys(Notional(first), first.price) + Filled(levels[1..], usd - Notional(first))
  }

  function Slippage(levels: seq<Level>, usd: real, mid: real): (bps: real)
    requires ValidLevels(levels)
  {
    if usd <= 0.0 || mid <= 0.0 || levels == [] then 0.0
    else
      var filled := Filled(levels, usd);
      DistanceBps(if filled > 0.0 then Buys(usd, filled) else mid, mid)
  }

  // --------------------------------------------------------------------------
  // Division
  // --------------------------------------------------------------------------

  lemma DivideByMore(side: Side, x: real, p: real, q: real)
    requires x >= 0.0 && p > 0.0 && q > 0.0 && NoWorse(side, p, q)
    ensures NoWorse(side, Buys(x, q), Buys(x, p))
  {
  }

  lemma DivideSum(x: real, y: real, p: real)
    requires p > 0.0
    ensures Buys(x, p) + Buys(y, p) == Buys(x + y, p)
    ensures Buys(0.0, p) == 0.0
  {
  }

  /** a * f' compared with b * f decides how the averages a / f and b / f' compare. */
  lemma CompareAverages(side: Side, a: real, f: real, b: real, f': real)
    requires f > 0.0 && f' > 0.0 && NoWorse(side, Times(a, f'), Times(b, f))
    ensures NoWorse(side, Buys(a, f), Buys(b, f'))
  {
    if side.Asks? {
      QuotientLeq(a, f, b, f');
    } else {
      QuotientLeq(b, f', a, f);
    }
  }

  // --------------------------------------------------------------------------
  // The quantity bought, as a function of the money spent
  // --------------------------------------------------------------------------

  lemma {:induction false} FilledPositive(levels: seq<Level>, usd: real)
    requires levels != [] && ValidLevels(levels) && usd > 0.0
    ensures Filled(levels, usd) > 0.0
    decreases |levels|
  {
    var first := levels[0];
    if |levels| == 1 || usd <= Notional(first) {
    } else {
      FilledPositive(levels[1..], usd - Notional(first));
    }
  }

  lemma FilledNothing(levels: seq<Level>)
    requires levels != [] && ValidLevels(levels)
    ensures Filled(levels, 0.0) == 0.0
  {
    DivideSum(0.0, 0.0, levels[0].price);
  }

  /** No further dollar buys more than it would at a price p no worse than every level. */
  lemma {:induction false} FilledSlope(side: Side, levels: seq<Level>, p: real, a: real, b: real)
    requires levels != [] && ValidLevels(levels) && p > 0.0 && 0.0 <= a <= b
    requires forall k :: 0 <= k < |levels| ==> NoWorse(side, p, levels[k].price)
    ensures NoWorse(side, Filled(levels, b) - Filled(levels, a), Buys(b - a, p))
    decreases |levels|
  {
    var first, rest := levels[0], levels[1..];
    var capacity := Notional(first);
    if |levels| == 1 || b <= capacity {
      DivideSum(b - a, a, first.price);
      DivideByMore(side, b - a, p, first.price);
    } else if a <= capacity {
      FilledSlope(side, rest, p, 0.0, b - capacity);
      FilledNothing(rest);
      DivideSum(capacity - a, a, first.price);
      DivideByMore(side, capacity - a, p, first.price);
      DivideSum(capacity - a, b - capacity, p);
    } else {
      FilledSlope(side, rest, p, a - capacity, b - capacity);
    }
  }

  lemma AverageStep(side: Side, a: real, b: real, c: real, h: real, d: real, g: real, g': real)
    requires 0.0 <= c <= a <= b
    requires NoWorse(side, Times(a - c, g'), Times(b - c, g))
    requires NoWorse(side, g' - g, d) && Times(c, d) == Times(b - a, h)
    ensures NoWorse(side, Times(a, h + g'), Times(b, h + g))
  {
    TimesMonotone(side, c, g' - g, d);
    assert Times(b, h + g) - Times(a, h + g')
           == (Times(b - c, g) - Times(a - c, g')) + (Times(c, d) - Times(c, g' - g)) + (Times(b - a, h) - Times(c, d));
  }

  lemma TimesMonotone(side: Side, a: real, x: real, y: real)
    requires a >= 0.0 && NoWorse(side, x, y)
    ensures NoWorse(side, Times(a, x), Times(a, y))
  {
    if side.Asks? {
      MulMonotone(a, x, y);
    } else {
      MulMonotone(a, y, x);
    }
  }

  lemma CrossBuys(a: real, b: real, p: real)
    requires p > 0.0
    ensures Times(a, Buys(b, p)) == Times(b, Buys(a, p))
  {
  }

  /** The average price does not improve as more is spent. */
  lemma {:induction false} AverageWorsens(side: Side, levels: seq<Level>, a: real, b: real)
    requires levels != [] && ValidLevels(levels) && 0.0 <= a <= b
    requires forall j, k :: 0 <= j < k < |levels| ==> NoWorse(side, levels[j].price, levels[k].price)
    ensures NoWorse(side, Times(a, Filled(levels, b)), Times(b, Filled(levels, a)))
    decreases |levels|
  {
    var p, rest := levels[0].price, levels[1..];
    var capacity := Notional(levels[0]);
    CrossBuys(a, b, p);
    if |levels| == 1 || b <= capacity {
    } else if a <= capacity {
      assert side.Asks? ==> p <= p;
      FilledSlope(side, levels, p, 0.0, b);
      FilledNothing(levels);
      TimesMonotone(side, a, Filled(levels, b), Buys(b, p));
    } else {
      AverageWorsens(side, rest, a - capacity, b - capacity);
      FilledSlope(side, rest, p, a - capacity, b - capacity);
      CrossBuys(capacity, b - a, p);
      AverageStep(side, a, b, capacity, Buys(capacity, p), Buys(b - a, p),
                  Filled(rest, a - capacity), Filled(rest, b - capacity));
    }
  }

  // --------------------------------------------------------------------------
  // The walk as an allocation
  // --------------------------------------------------------------------------

  /** The notional of the first k levels. */
  function Absorbed(levels: seq<Level>, k: nat): real
    requires k <= |levels|
  {
    if k == 0 then 0.0 else Notional(levels[0]) + Absorbed(levels[1..], k - 1)
  }

  function Spent(takes: seq<real>): real {
    if takes == [] then 0.0 else takes[0] + Spent(takes[1..])
  }

  /** What the takes buy, each at the price of its level, and the rest at the price of the last. */
  function Bought(levels: seq<Level>, takes: seq<real>, rest: real): real
    requires levels != [] && |takes| == |levels| && ValidLevels(levels)
  {
    takes[0] / levels[0].price
    + (if |levels| == 1 then rest / levels[0].price else Bought(levels[1..], takes[1..], rest))
  }

  /** A way to spend usd on the book: no level beyond its notional, and beyond the book only what the
      whole of it cannot absorb. */
  ghost predicate Allocates(levels: seq<Level>, usd: real, takes: seq<real>, rest: real) {
    && |takes| == |levels| && Spent(takes) + rest == usd && rest >= 0.0
    && (forall k :: 0 <= k < |levels| ==> 0.0 <= takes[k] <= Notional(levels[k]))
    && (rest > 0.0 ==> forall k :: 0 <= k < |levels| ==> takes[k] == Notional(levels[k]))
  }

  /** Each level takes what the levels before it leave, up to its notional. */
  ghost predicate InOrder(levels: seq<Level>, usd: real, takes: seq<real>) {
    && |takes| == |levels|
    && forall k :: 0 <= k < |levels| ==>
         takes[k] == Max(0.0, Min(Notional(levels[k]), usd - Absorbed(levels, k)))
  }

  lemma {:induction false} AbsorbedNonneg(levels: seq<Level>, k: nat)
    requires ValidLevels(levels) && k <= |levels|
    ensures Absorbed(levels, k) >= 0.0
  {
    if k > 0 {
      AbsorbedNonneg(levels[1..], k - 1);
    }
  }

  /** The first level, and then the walk of the others with what it leaves. */
  lemma FilledNext(levels: seq<Level>, usd: real)
    requires |levels| > 1 && ValidLevels(levels) && usd >= 0.0
    ensures var take := Min(usd, Notional(levels[0]));
            Filled(levels, usd) == Buys(take, levels[0].price) + Filled(levels[1..], usd - take)
  {
    FilledNothing(levels[1..]);
  }

  lemma InOrderNext(levels: seq<Level>, usd: real, take: real, takes: seq<real>)
    requires levels != [] && ValidLevels(levels) && usd >= 0.0 && take == Min(usd, Notional(levels[0]))
    requires InOrder(levels[1..], usd - take, takes)
    ensures InOrder(levels, usd, [take] + takes)
  {
    forall k | 0 < k < |levels|
      ensures takes[k - 1] == Max(0.0, Min(Notional(levels[k]), usd - Absorbed(levels, k)))
    {
      AbsorbedNonneg(levels[1..], k - 1);
      assert levels[1..][k - 1] == levels[k];
    }
  }

  lemma AllocatesNext(levels: seq<Level>, usd: real, take: real, takes: seq<real>, rest: real)
    requires levels != [] && ValidLevels(levels) && usd >= 0.0 && take == Min(usd, Notional(levels[0]))
    requires Allocates(levels[1..], usd - take, takes, rest)
    ensures Allocates(levels, usd, [take] + takes, rest)
  {
    var longer := [take] + takes;
    assert longer[1..] == takes;
    SpentNonneg(takes);
    forall k | 0 < k < |levels|
      ensures longer[k] == takes[k - 1] && levels[k] == levels[1..][k - 1]
    {
    }
  }

  /** The walk spends all the money, on each level what the levels before it leave. */
  lemma {:induction false} WalkAllocates(levels: seq<Level>, usd: real) returns (takes: seq<real>, rest: real)
    requires levels != [] && ValidLevels(levels) && usd >= 0.0
    ensures Allocates(levels, usd, takes, rest) && InOrder(levels, usd, takes)
    ensures Filled(levels, usd) == Bought(levels, takes, rest)
    decreases |levels|
  {
    var take := Min(usd, Notional(levels[0]));
    if |levels| == 1 {
      takes, rest := [take], usd - take;
      DivideSum(take, rest, levels[0].price);
    } else {
      var others;
      others, rest := WalkAllocates(levels[1..], usd - take);
      takes := [take] + others;
      InOrderNext(levels, usd, take, others);
      AllocatesNext(levels, usd, take, others, rest);
      FilledNext(levels, usd);
      assert takes[1..] == others && takes[0] == take;
    }
  }

  lemma {:induction false} SpentNonneg(takes: seq<real>)
    requires forall k :: 0 <= k < |takes| ==> takes[k] >= 0.0
    ensures Spent(takes) >= 0.0
  {
    if takes != [] {
      SpentNonneg(takes[1..]);
    }
  }

  lemma AllocatesRest(levels: seq<Level>, usd: real, takes: seq<real>, rest: real)
    requires levels != [] && Allocates(levels, usd, takes, rest)
    ensures Allocates(levels[1..], usd - takes[0], takes[1..], rest)
    ensures 0.0 <= takes[0] <= Min(usd, Notional(levels[0]))
    ensures |levels| == 1 ==> takes[0] + rest == usd
  {
    SpentNonneg(takes[1..]);
    assert |levels| == 1 ==> takes[1..] == [];
  }

  /** On a sorted side no allocation does better than the walk: none buys more from asks, and none
      has to sell less into bids. */
  lemma {:induction false} WalkIsBest(side: Side, levels: seq<Level>, usd: real, takes: seq<real>, rest: real)
    requires levels != [] && ValidLevels(levels) && Allocates(levels, usd, takes, rest)
    requires forall j, k :: 0 <= j < k < |levels| ==> NoWorse(side, levels[j].price, levels[k].price)
    ensures NoWorse(side, Bought(levels, takes, rest), Filled(levels, usd))
    decreases |levels|
  {
    AllocatesRest(levels, usd, takes, rest);
    var p := levels[0].price;
    if |levels| == 1 {
      DivideSum(takes[0], rest, p);
    } else {
      var take := Min(usd, Notional(levels[0]));
      WalkIsBest(side, levels[1..], usd - takes[0], takes[1..], rest);
      FilledNext(levels, usd);
      FilledSlope(side, levels[1..], p, usd - take, usd - takes[0]);
      DivideSum(take - takes[0], takes[0], p);
    }
  }

  /** ... so what is taken in order is the best of all allocations. */
  lemma InOrderIsBest(side: Side, levels: seq<Level>, usd: real, takes: seq<real>, rest: real,
                      others: seq<real>, otherRest: real)
    requires levels != [] && ValidLevels(levels) && usd >= 0.0
    requires forall j, k :: 0 <= j < k < |levels| ==> NoWorse(side, levels[j].price, levels[k].price)
    requires Allocates(levels, usd, takes, rest) && InOrder(levels, usd, takes)
    requires Allocates(levels, usd, others, otherRest)
    ensures NoWorse(side, Bought(levels, others, otherRest), Bought(levels, takes, rest))
  {
    var walked, walkedRest := WalkAllocates(levels, usd);
    assert walked == takes;
    WalkIsBest(side, levels, usd, others, otherRest);
  }

  // --------------------------------------------------------------------------
  // Slippage
  // --------------------------------------------------------------------------

  lemma VwapBeyondMid(side: Side, levels: seq<Level>, usd: real, mid: real)
    requires OneSided(side, levels, mid) && levels != [] && usd > 0.0 && mid > 0.0
    ensures Filled(levels, usd) > 0.0
    ensures NoWorse(side, mid, Buys(usd, Filled(levels, usd)))
  {
    var f := Filled(levels, usd);
    FilledPositive(levels, usd);
    FilledSlope(side, levels, mid, 0.0, usd);
    FilledNothing(levels);
    CompareToMid(side, usd, f, mid);
  }

  lemma CompareToMid(side: Side, usd: real, f: real, mid: real)
    requires f > 0.0 && mid > 0.0 && NoWorse(side, f, Buys(usd, mid))
    ensures NoWorse(side, mid, Buys(usd, f))
  {
    assert Times(mid, Buys(usd, mid)) == Times(usd, 1.0);
    TimesMonotone(side, mid, f, Buys(usd, mid));
    CompareAverages(side, mid, 1.0, usd, f);
  }

  /** The distance of a price from mid, in basis points. */
  function DistanceBps(price: real, mid: real): real
    requires mid != 0.0
  {
    Abs(price - mid) / mid * 10000.0
  }

  lemma BpsMonotone(side: Side, mid: real, v: real, w: real)
    requires mid > 0.0 && NoWorse(side, mid, v) && NoWorse(side, v, w)
    ensures 0.0 <= DistanceBps(v, mid) <= DistanceBps(w, mid)
  {
    DivideSum(Abs(w - mid) - Abs(v - mid), Abs(v - mid), mid);
  }

  /** A larger order never slips less, even past the end of the book. */
  lemma SlippageMonotone(side: Side, levels: seq<Level>, mid: real, a: real, b: real)
    requires OneSided(side, levels, mid) && a <= b
    ensures 0.0 <= Slippage(levels, a, mid) <= Slippage(levels, b, mid)
  {
    if b > 0.0 && mid > 0.0 && levels != [] {
      VwapBeyondMid(side, levels, b, mid);
      var w := Buys(b, Filled(levels, b));
      if a > 0.0 {
        VwapBeyondMid(side, levels, a, mid);
        AverageWorsens(side, levels, a, b);
        CompareAverages(side, a, Filled(levels, a), b, Filled(levels, b));
        BpsMonotone(side, mid, Buys(a, Filled(levels, a)), w);
      } else {
        BpsMonotone(side, mid, w, w);
      }
    }
  }

  /** The walk itself: level by level until the order is spent or the book is. */
  method SimulateMarketOrder(levels: seq<Level>, usd: real, mid: real) returns (bps: real)
    requires ValidLevels(levels)
    ensures bps == Slippage(levels, usd, mid)
    ensures usd <= 0.0 || mid <= 0.0 || levels == [] ==> bps == 0.0
    ensures usd > 0.0 && mid > 0.0 && levels != [] ==>
              exists takes, rest ::
                && Allocates(levels, usd, takes, rest) && InOrder(levels, usd, takes)
                && Bought(levels, takes, rest) > 0.0
                && bps == Abs(usd / Bought(levels, takes, rest) - mid) / mid * 10000.0
  {
    if usd <= 0.0 || mid <= 0.0 || levels == [] {
      return 0.0;
    }
    ghost var takes, rest := WalkAllocates(levels, usd);
    FilledPositive(levels, usd);
    var remaining, cost, filled := usd, 0.0, 0.0;
    var worstPrice := levels[0].price;
    var k := 0;
    while k < |levels| && remaining > 0.0
      invariant 0 <= k <= |levels|
      invariant remaining >= 0.0 && cost + remaining == usd
      invariant k > 0 ==> worstPrice == levels[k - 1].price
      invariant k == 0 ==> remaining > 0.0
      invariant k < |levels| && remaining > 0.0 ==> filled + Filled(levels[k..], remaining) == Filled(levels, usd)
      invariant k == |levels| && remaining > 0.0 ==> filled + Buys(remaining, worstPrice) == Filled(levels, usd)
      invariant remaining == 0.0 ==> filled == Filled(levels, usd)
    {
      var level := levels[k];
      var levelUsd := Notional(level);
      var take := Min(remaining, levelUsd);
      assert levels[k..][1..] == levels[k + 1..];
      DivideSum(take, remaining - take, level.price);
      cost := cost + take;
      filled := filled + Buys(take, level.price);
      remaining := remaining - take;
      worstPrice := level.price;
      k := k + 1;
    }
    if remaining > 0.0 {
      filled := filled + Buys(remaining, worstPrice);
      cost := cost + remaining;
    }
    var vwap := if filled > 0.0 then Buys(cost, filled) else mid;
    bps := DistanceBps(vwap, mid);
  }
}
