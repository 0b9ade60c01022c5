/** The management of an open position, as values (aimos/execution/trade_manager.py). */
module Management {
  import opened Numerics
  import opened Schemas

  const MINUTE := 60000000.0

  datatype Config = Config(
    breakevenR: real,
    partialTpR: real,
    partialTpPct: real,
    trailActivateR: real,
    trailAtrMult: real,
    thesisExitConfidence: real,
    timeStopHoldMult: real,
    timeStopMinR: real,
    exitDegradeMult: Option<real>)

  datatype State = State(
    initialRisk: real,
    stop: real,
    holdMinutes: int,
    breakevenDone: bool,
    partialDone: bool,
    trailActive: bool)

  datatype Thesis = RegimeFlip | MarketCrash | Manipulated

  datatype Kind =
    | BreakEven
    | Trail
    | PartialTp
    | ThesisExit(why: Thesis)
    | TimeStop(r: real)
    | LiquidityTighten(exitSlip: real, entrySlip: real)

  datatype Event = Event(
    decisionId: string,
    timestamp: Instant,
    kind: Kind,
    newStop: Option<real>,
    closedQty: Option<real>)

  /** What one re-evaluation is given beside the position and its state. */
  datatype Tick = Tick(
    price: real,
    atr: real,
    mu: Option<MarketUnderstanding>,
    now: Instant,
    exitSlip: Option<real>,
    entrySlip: Option<real>)

  function Ev(pos: Position, t: Tick, kind: Kind): Event {
    Event(pos.decisionId, t.now, kind, None, None)
  }

  // --------------------------------------------------------------------------
  // The rules
  // --------------------------------------------------------------------------

  /** How far x is from the entry, counted in the position's favour. */
  function Gain(pos: Position, x: real): real {
    if pos.side == Long then x - pos.entry else pos.entry - x
  }

  function Ratio(a: real, b: real): real
    requires b != 0.0
  {
    a / b
  }

  function RMultiple(pos: Position, price: real, risk: real): real {
    if risk <= 0.0 then 0.0 else Ratio(Gain(pos, price), risk)
  }

  predicate Flipped(cfg: Config, pos: Position, mu: MarketUnderstanding) {
    && mu.directionBias == (if pos.side == Long then Bearish else Bullish)
    && mu.confidence >= cfg.thesisExitConfidence
  }

  function ThesisBroken(cfg: Config, pos: Position, t: Tick): Option<Thesis> {
    if t.mu == None then None
    else if Flipped(cfg, pos, t.mu.value) then Some(RegimeFlip)
    else if t.mu.value.regime == Crash then Some(MarketCrash)
    else if t.mu.value.behavior == Manipulation then Some(Manipulated)
    else None
  }

  function HoldLimit(cfg: Config, minutes: int): real {
    cfg.timeStopHoldMult * minutes as real * MINUTE
  }

  predicate TimedOut(cfg: Config, pos: Position, t: Tick, s: State) {
    && s.holdMinutes > 0
    && (t.now - pos.openedAt) as real > HoldLimit(cfg, s.holdMinutes)
    && RMultiple(pos, t.price, s.initialRisk) < cfg.timeStopMinR
  }

  /** The tick gets past the two exits. */
  predicate Managed(cfg: Config, pos: Position, t: Tick, s: State) {
    ThesisBroken(cfg, pos, t) == None && !TimedOut(cfg, pos, t, s)
  }

  function Times(a: real, b: real): real {
    a * b
  }

  /** Where the trailing stop wants to be. */
  function TrailLevel(cfg: Config, pos: Position, t: Tick): real {
    if pos.side == Long then t.price - Times(cfg.trailAtrMult, t.atr) else t.price + Times(cfg.trailAtrMult, t.atr)
  }

  function Tighter(pos: Position, a: real, b: real): real {
    if pos.side == Long then Max(a, b) else Min(a, b)
  }

  predicate LiquidityGone(cfg: Config, t: Tick) {
    && t.exitSlip.Some?
    && t.entrySlip.Some?
    && t.entrySlip.value > 0.0
    && t.exitSlip.value > Times(if cfg.exitDegradeMult.Some? then cfg.exitDegradeMult.value else 2.0, t.entrySlip.value)
  }

  // --------------------------------------------------------------------------
  // One step
  // --------------------------------------------------------------------------

  predicate Reached(pos: Position, t: Tick, s: State, r: real) {
    RMultiple(pos, t.price, s.initialRisk) >= r
  }

  function AfterBreakEven(cfg: Config, pos: Position, t: Tick, s: State): State {
    if !s.breakevenDone && Reached(pos, t, s, cfg.breakevenR)
    then s.(stop := pos.entry, breakevenDone := true)
    else s
  }

  function AfterPartial(cfg: Config, pos: Position, t: Tick, s: State): State {
    if !s.partialDone && Reached(pos, t, s, cfg.partialTpR) then s.(partialDone := true) else s
  }

  function AfterTrail(cfg: Config, pos: Position, t: Tick, s: State): State {
    var active := s.trailActive || Reached(pos, t, s, cfg.trailActivateR);
    if active && t.atr > 0.0
    then s.(trailActive := true, stop := Tighter(pos, s.stop, TrailLevel(cfg, pos, t)))
    else s.(trailActive := active)
  }

  function Next(cfg: Config, pos: Position, t: Tick, s: State): State {
    if Managed(cfg, pos, t, s)
    then AfterTrail(cfg, pos, t, AfterPartial(cfg, pos, t, AfterBreakEven(cfg, pos, t, s)))
    else s
  }

  function BreakEvenEvents(pos: Position, t: Tick, s: State, s': State): seq<Event> {
    if s'.breakevenDone != s.breakevenDone then [Ev(pos, t, BreakEven).(newStop := Some(pos.entry))] else []
  }

  function PartialEvents(cfg: Config, pos: Position, t: Tick, s: State, s': State): seq<Event> {
    if s'.partialDone != s.partialDone
    then [Ev(pos, t, PartialTp).(closedQty := Some(Times(pos.qty, cfg.partialTpPct / PCT)))]
    else []
  }

  function TrailEvents(pos: Position, t: Tick, s: State, s': State): seq<Event> {
    if s'.stop != s.stop then [Ev(pos, t, Trail).(newStop := Some(s'.stop))] else []
  }

  function LiquidityEvents(cfg: Config, pos: Position, t: Tick): seq<Event> {
    if LiquidityGone(cfg, t) then [Ev(pos, t, LiquidityTighten(t.exitSlip.value, t.entrySlip.value))] else []
  }

  function Events(cfg: Config, pos: Position, t: Tick, s: State): seq<Event> {
    if ThesisBroken(cfg, pos, t).Some? then [Ev(pos, t, ThesisExit(ThesisBroken(cfg, pos, t).value))]
    else if TimedOut(cfg, pos, t, s) then [Ev(pos, t, TimeStop(RMultiple(pos, t.price, s.initialRisk)))]
    else
      var b := AfterBreakEven(cfg, pos, t, s);
      var p := AfterPartial(cfg, pos, t, b);
      BreakEvenEvents(pos, t, s, b) + PartialEvents(cfg, pos, t, b, p)
      + TrailEvents(pos, t, p, AfterTrail(cfg, pos, t, p)) + LiquidityEvents(cfg, pos, t)
  }

  // --------------------------------------------------------------------------
  // Runs
  // --------------------------------------------------------------------------

  function Run(cfg: Config, pos: Position, s: State, ticks: seq<Tick>): State {
    if ticks == [] then s
    else Next(cfg, pos, ticks[|ticks| - 1], Run(cfg, pos, s, ticks[..|ticks| - 1]))
  }

  function RunEvents(cfg: Config, pos: Position, s: State, ticks: seq<Tick>): seq<Event> {
    if ticks == [] then []
    else
      var n := |ticks| - 1;
      RunEvents(cfg, pos, s, ticks[..n]) + Events(cfg, pos, ticks[n], Run(cfg, pos, s, ticks[..n]))
  }

  /** A position as its owner hands it over: nothing done yet, the stop not beyond the entry. */
  predicate Opened(pos: Position, s: State) {
    && s.initialRisk > 0.0
    && Gain(pos, s.stop) <= 0.0
    && !s.breakevenDone && !s.partialDone && !s.trailActive
  }

  // --------------------------------------------------------------------------
  // The ratchet
  // --------------------------------------------------------------------------

  /** b protects at least as much as a. */
  predicate NoLooser(pos: Position, a: real, b: real) {
    Gain(pos, a) <= Gain(pos, b)
  }

  /** Over no run does a step move the stop away from the price. */
  ghost predicate Ratchets(cfg: Config, pos: Position, s: State) {
    forall ticks: seq<Tick>, t: Tick :: StepRatchets(cfg, pos, Run(cfg, pos, s, ticks), t)
  }

  predicate StepRatchets(cfg: Config, pos: Position, s: State, t: Tick) {
    NoLooser(pos, s.stop, Next(cfg, pos, t, s).stop)
  }

  /** The condition on the thresholds: either break-even comes no later than trailing, or it comes
      at a loss and the trail is on the price's own side. */
  predicate ThresholdsInOrder(cfg: Config) {
    cfg.breakevenR <= cfg.trailActivateR || (cfg.breakevenR <= 0.0 && cfg.trailAtrMult >= 0.0)
  }

  /** Until break-even has fired, the stop is not beyond the entry; from then on, it is not
      behind it. */
  predicate Sided(pos: Position, s: State) {
    && s.initialRisk > 0.0
    && (if s.breakevenDone then Gain(pos, s.stop) >= 0.0 else Gain(pos, s.stop) <= 0.0)
  }

  predicate Armed(cfg: Config, s: State) {
    cfg.breakevenR <= cfg.trailActivateR && s.trailActive ==> s.breakevenDone
  }

  lemma NextSided(cfg: Config, pos: Position, t: Tick, s: State)
    requires ThresholdsInOrder(cfg) && Sided(pos, s) && Armed(cfg, s)
    ensures Sided(pos, Next(cfg, pos, t, s)) && Armed(cfg, Next(cfg, pos, t, s))
    ensures StepRatchets(cfg, pos, s, t)
  {
  }

  lemma {:induction false} RunSided(cfg: Config, pos: Position, s: State, ticks: seq<Tick>)
    requires ThresholdsInOrder(cfg) && Opened(pos, s)
    ensures Sided(pos, Run(cfg, pos, s, ticks)) && Armed(cfg, Run(cfg, pos, s, ticks))
  {
    if ticks != [] {
      var n := |ticks| - 1;
      RunSided(cfg, pos, s, ticks[..n]);
      NextSided(cfg, pos, ticks[n], Run(cfg, pos, s, ticks[..n]));
    }
  }

  /** A tick that no exit rule answers. */
  function QuietTick(cfg: Config, pos: Position, s: State, price: real, atr: real): (t: Tick)
    ensures Managed(cfg, pos, t, s)
  {
    Tick(price, atr, None, pos.openedAt + HoldLimit(cfg, s.holdMinutes).Floor, None, None)
  }

  /** The price r risks in the position's favour. */
  function PriceAt(pos: Position, risk: real, r: real): real {
    if pos.side == Long then pos.entry + Times(r, risk) else pos.entry - Times(r, risk)
  }

  lemma PriceAtMultiple(pos: Position, risk: real, r: real)
    requires risk > 0.0
    ensures RMultiple(pos, PriceAt(pos, risk, r), risk) == r
    ensures Gain(pos, PriceAt(pos, risk, r)) == Times(r, risk)
  {
    assert r * risk / risk == r;
  }

  /** A range small enough, or on the wrong side far enough, to trail beyond a given gain. */
  lemma SomeAtr(mult: real, gain: real) returns (atr: real)
    requires gain > 0.0 || mult < 0.0
    ensures atr > 0.0 && Times(mult, atr) < gain
  {
    if gain > 0.0 {
      if mult <= 0.0 {
        atr := 1.0;
      } else {
        atr := gain / mult / 2.0;
        assert mult * (gain / mult) == gain;
        MulSign(gain / mult, mult);
        assert mult * atr == mult * (gain / mult) / 2.0;
      }
    } else {
      atr := (gain - 1.0) / mult;
      assert mult * atr == gain - 1.0;
      MulSign(-mult, atr);
      MulSign(-atr, -mult);
    }
  }

  lemma TrailsBeyondEntry(cfg: Config, pos: Position, t: Tick, s: State)
    requires Managed(cfg, pos, t, s) && t.atr > 0.0 && Times(cfg.trailAtrMult, t.atr) < Gain(pos, t.price)
    requires cfg.trailActivateR <= RMultiple(pos, t.price, s.initialRisk) < cfg.breakevenR
    ensures Gain(pos, Next(cfg, pos, t, s).stop) > 0.0 && Next(cfg, pos, t, s).breakevenDone == s.breakevenDone
    ensures Next(cfg, pos, t, s).initialRisk == s.initialRisk
  {
  }

  lemma BreaksEvenAtEntry(cfg: Config, pos: Position, t: Tick, s: State)
    requires Managed(cfg, pos, t, s) && t.atr <= 0.0 && !s.breakevenDone
    requires RMultiple(pos, t.price, s.initialRisk) == cfg.breakevenR
    ensures Next(cfg, pos, t, s).stop == pos.entry
  {
  }

  /** A multiple at which trailing starts but break-even does not fire, and a range whose trail lies beyond
      the entry; the multiple as close to break-even as a given floor below that asks. */
  lemma EarlyTrail(cfg: Config, risk: real, floor: real) returns (r: real, atr: real)
    requires risk > 0.0 && !ThresholdsInOrder(cfg) && floor < cfg.breakevenR
    ensures cfg.trailActivateR <= r < cfg.breakevenR && floor < r && atr > 0.0
    ensures Times(cfg.trailAtrMult, atr) < Times(r, risk)
  {
    r := Max(cfg.trailActivateR, (floor + cfg.breakevenR) / 2.0);
    r := if cfg.breakevenR > 0.0 then Max(r, cfg.breakevenR / 2.0) else r;
    MulSign(r, risk);
    atr := SomeAtr(cfg.trailAtrMult, Times(r, risk));
  }

  /** The offending run, when break-even comes after trailing: the price gets far enough to
      trail beyond the entry but not to break even, then reaches break-even. Its two prices are
      the one at a multiple above the floor and the one that breaks even. */
  lemma LoosensWhenOutOfOrder(cfg: Config, pos: Position, s: State, floor: real)
      returns (ticks: seq<Tick>, t: Tick, r: real)
    requires Opened(pos, s) && !ThresholdsInOrder(cfg) && floor < cfg.breakevenR
    ensures !StepRatchets(cfg, pos, Run(cfg, pos, s, ticks), t)
    ensures floor < r < cfg.breakevenR && |ticks| == 1 && ticks[0].price == PriceAt(pos, s.initialRisk, r)
    ensures t.price == PriceAt(pos, s.initialRisk, cfg.breakevenR)
  {
    var atr;
    r, atr := EarlyTrail(cfg, s.initialRisk, floor);
    PriceAtMultiple(pos, s.initialRisk, r);
    var t0 := QuietTick(cfg, pos, s, PriceAt(pos, s.initialRisk, r), atr);
    TrailsBeyondEntry(cfg, pos, t0, s);
    ticks := [t0];
    OneTick(cfg, pos, s, t0);
    var s' := Run(cfg, pos, s, ticks);
    PriceAtMultiple(pos, s.initialRisk, cfg.breakevenR);
    t := QuietTick(cfg, pos, s', PriceAt(pos, s.initialRisk, cfg.breakevenR), 0.0);
    BreaksEvenAtEntry(cfg, pos, t, s');
  }

  lemma OneTick(cfg: Config, pos: Position, s: State, t: Tick)
    ensures Run(cfg, pos, s, [t]) == Next(cfg, pos, t, s)
  {
    assert [t][..0] == [];
  }

  /** The stop only ever moves toward the price, in every run over any prices and ranges, exactly
      when the thresholds are in order. */
  lemma RatchetsIff(cfg: Config, pos: Position, s: State)
    requires Opened(pos, s)
    ensures Ratchets(cfg, pos, s) <==> ThresholdsInOrder(cfg)
  {
    if ThresholdsInOrder(cfg) {
      forall ticks: seq<Tick>, t: Tick
        ensures StepRatchets(cfg, pos, Run(cfg, pos, s, ticks), t)
      {
        RunSided(cfg, pos, s, ticks);
        NextSided(cfg, pos, t, Run(cfg, pos, s, ticks));
      }
    } else {
      var ticks, t, _ := LoosensWhenOutOfOrder(cfg, pos, s, cfg.breakevenR - 1.0);
      assert !StepRatchets(cfg, pos, Run(cfg, pos, s, ticks), t);
    }
  }

  /** Between any two moments of a run, too. */
  lemma {:induction false} StopNeverLoosens(cfg: Config, pos: Position, s: State, ticks: seq<Tick>, j: nat)
    requires Opened(pos, s) && ThresholdsInOrder(cfg) && j <= |ticks|
    ensures NoLooser(pos, Run(cfg, pos, s, ticks[..j]).stop, Run(cfg, pos, s, ticks).stop)
    ensures Run(cfg, pos, s, ticks).breakevenDone ==> Gain(pos, Run(cfg, pos, s, ticks).stop) >= 0.0
  {
    RunSided(cfg, pos, s, ticks);
    if j == |ticks| {
      assert ticks[..j] == ticks;
    } else {
      var n := |ticks| - 1;
      assert ticks[..n][..j] == ticks[..j];
      StopNeverLoosens(cfg, pos, s, ticks[..n], j);
      RunSided(cfg, pos, s, ticks[..n]);
      NextSided(cfg, pos, ticks[n], Run(cfg, pos, s, ticks[..n]));
    }
  }

  // --------------------------------------------------------------------------
  // What the events tell
  // --------------------------------------------------------------------------

  function Fired(events: seq<Event>, kind: Kind): nat {
    if events == [] then 0
    else Fired(events[..|events| - 1], kind) + (if events[|events| - 1].kind == kind then 1 else 0)
  }

  lemma {:induction false} FiredConcat(a: seq<Event>, b: seq<Event>, kind: Kind)
    ensures Fired(a + b, kind) == Fired(a, kind) + Fired(b, kind)
  {
    if b == [] {
      assert a + b == a;
    } else {
      assert (a + b)[..|a + b| - 1] == a + b[..|b| - 1];
      FiredConcat(a, b[..|b| - 1], kind);
    }
  }

  /** The stop that somebody holds who follows the events only. */
  function Followed(stop: real, events: seq<Event>): real {
    if events == [] then stop
    else
      var last := events[|events| - 1];
      if last.newStop.Some? then last.newStop.value else Followed(stop, events[..|events| - 1])
  }

  lemma {:induction false} FollowedConcat(stop: real, a: seq<Event>, b: seq<Event>)
    ensures Followed(stop, a + b) == Followed(Followed(stop, a), b)
  {
    if b == [] {
      assert a + b == a;
    } else {
      assert (a + b)[..|a + b| - 1] == a + b[..|b| - 1];
      FollowedConcat(stop, a, b[..|b| - 1]);
    }
  }

  function Flag(b: bool): nat {
    if b then 1 else 0
  }

  lemma FollowedOne(stop: real, e: Event)
    ensures Followed(stop, [e]) == if e.newStop.Some? then e.newStop.value else stop
  {
    assert [e][..0] == [];
  }

  lemma FiredOne(e: Event, kind: Kind)
    ensures Fired([e], kind) == Flag(e.kind == kind)
  {
    assert [e][..0] == [];
  }

  lemma FollowedFour(stop: real, a: seq<Event>, b: seq<Event>, c: seq<Event>, d: seq<Event>)
    ensures Followed(stop, a + b + c + d) == Followed(Followed(Followed(Followed(stop, a), b), c), d)
  {
    FollowedConcat(stop, a, b);
    FollowedConcat(stop, a + b, c);
    FollowedConcat(stop, a + b + c, d);
  }

  lemma FiredFour(a: seq<Event>, b: seq<Event>, c: seq<Event>, d: seq<Event>, kind: Kind)
    ensures Fired(a + b + c + d, kind) == Fired(a, kind) + Fired(b, kind) + Fired(c, kind) + Fired(d, kind)
  {
    FiredConcat(a, b, kind);
    FiredConcat(a + b, c, kind);
    FiredConcat(a + b + c, d, kind);
  }

  lemma BreakEvenTells(cfg: Config, pos: Position, t: Tick, s: State)
    ensures var b := AfterBreakEven(cfg, pos, t, s);
            var events := BreakEvenEvents(pos, t, s, b);
            && Followed(s.stop, events) == b.stop
            && Flag(s.breakevenDone) + Fired(events, BreakEven) == Flag(b.breakevenDone)
            && Fired(events, PartialTp) == 0 && b.partialDone == s.partialDone
  {
    var e := Ev(pos, t, BreakEven).(newStop := Some(pos.entry));
    FollowedOne(s.stop, e);
    FiredOne(e, BreakEven);
    FiredOne(e, PartialTp);
  }

  lemma PartialTells(cfg: Config, pos: Position, t: Tick, s: State)
    ensures var p := AfterPartial(cfg, pos, t, s);
            var events := PartialEvents(cfg, pos, t, s, p);
            && Followed(s.stop, events) == p.stop
            && Flag(s.partialDone) + Fired(events, PartialTp) == Flag(p.partialDone)
            && Fired(events, BreakEven) == 0 && p.breakevenDone == s.breakevenDone
  {
    var e := Ev(pos, t, PartialTp).(closedQty := Some(Times(pos.qty, cfg.partialTpPct / PCT)));
    FollowedOne(s.stop, e);
    FiredOne(e, BreakEven);
    FiredOne(e, PartialTp);
  }

  lemma TrailTells(cfg: Config, pos: Position, t: Tick, s: State)
    ensures var n := AfterTrail(cfg, pos, t, s);
            var events := TrailEvents(pos, t, s, n);
            && Followed(s.stop, events) == n.stop
            && Fired(events, BreakEven) == 0 && n.breakevenDone == s.breakevenDone
            && Fired(events, PartialTp) == 0 && n.partialDone == s.partialDone
  {
    var e := Ev(pos, t, Trail).(newStop := Some(AfterTrail(cfg, pos, t, s).stop));
    FollowedOne(s.stop, e);
    FiredOne(e, BreakEven);
    FiredOne(e, PartialTp);
  }

  /** An event that moves no stop and is neither break-even nor a partial profit. */
  lemma OtherTells(stop: real, e: Event)
    requires e.newStop == None && e.kind != BreakEven && e.kind != PartialTp
    ensures Followed(stop, [e]) == stop && Fired([e], BreakEven) == 0 && Fired([e], PartialTp) == 0
  {
    FollowedOne(stop, e);
    FiredOne(e, BreakEven);
    FiredOne(e, PartialTp);
  }

  lemma LiquidityTells(cfg: Config, pos: Position, t: Tick, stop: real)
    ensures var events := LiquidityEvents(cfg, pos, t);
            Followed(stop, events) == stop && Fired(events, BreakEven) == 0 && Fired(events, PartialTp) == 0
  {
    if LiquidityGone(cfg, t) {
      OtherTells(stop, LiquidityEvents(cfg, pos, t)[0]);
    }
  }

  ghost predicate Told(s: State, events: seq<Event>, s': State) {
    && Followed(s.stop, events) == s'.stop
    && Flag(s.breakevenDone) + Fired(events, BreakEven) == Flag(s'.breakevenDone)
    && Flag(s.partialDone) + Fired(events, PartialTp) == Flag(s'.partialDone)
  }

  lemma ManagedTold(cfg: Config, pos: Position, t: Tick, s: State)
    requires Managed(cfg, pos, t, s)
    ensures Told(s, Events(cfg, pos, t, s), Next(cfg, pos, t, s))
  {
    var b := AfterBreakEven(cfg, pos, t, s);
    var p := AfterPartial(cfg, pos, t, b);
    var n := AfterTrail(cfg, pos, t, p);
    var be, pe := BreakEvenEvents(pos, t, s, b), PartialEvents(cfg, pos, t, b, p);
    var te, le := TrailEvents(pos, t, p, n), LiquidityEvents(cfg, pos, t);
    BreakEvenTells(cfg, pos, t, s);
    PartialTells(cfg, pos, t, b);
    TrailTells(cfg, pos, t, p);
    LiquidityTells(cfg, pos, t, n.stop);
    FollowedFour(s.stop, be, pe, te, le);
    FiredFour(be, pe, te, le, BreakEven);
    FiredFour(be, pe, te, le, PartialTp);
  }

  lemma EventsTold(cfg: Config, pos: Position, t: Tick, s: State)
    ensures Told(s, Events(cfg, pos, t, s), Next(cfg, pos, t, s))
  {
    if Managed(cfg, pos, t, s) {
      ManagedTold(cfg, pos, t, s);
    } else {
      OtherTells(s.stop, Events(cfg, pos, t, s)[0]);
    }
  }

  /** Following the events of a run gives the stop, and break-even and the partial profit each
      fire at most once. */
  lemma {:induction false} RunEventsTell(cfg: Config, pos: Position, s: State, ticks: seq<Tick>)
    requires Opened(pos, s)
    ensures var events := RunEvents(cfg, pos, s, ticks);
            var end := Run(cfg, pos, s, ticks);
            && Followed(s.stop, events) == end.stop
            && Fired(events, BreakEven) == Flag(end.breakevenDone) <= 1
            && Fired(events, PartialTp) == Flag(end.partialDone) <= 1
  {
    if ticks != [] {
      var n := |ticks| - 1;
      RunEventsTell(cfg, pos, s, ticks[..n]);
      var mid, before := Run(cfg, pos, s, ticks[..n]), RunEvents(cfg, pos, s, ticks[..n]);
      var now := Events(cfg, pos, ticks[n], mid);
      FollowedConcat(s.stop, before, now);
      FiredConcat(before, now, BreakEven);
      FiredConcat(before, now, PartialTp);
      EventsTold(cfg, pos, ticks[n], mid);
    }
  }

  // --------------------------------------------------------------------------
  // The stop from the history of ticks
  // --------------------------------------------------------------------------

  /** Some managed tick of the run was r or more risks in favour. */
  ghost predicate EverReached(cfg: Config, pos: Position, s: State, ticks: seq<Tick>, r: real) {
    exists i :: 0 <= i < |ticks| && ReachedAt(cfg, pos, s, ticks[i], r)
  }

  predicate ReachedAt(cfg: Config, pos: Position, s: State, t: Tick, r: real) {
    Managed(cfg, pos, t, s) && Reached(pos, t, s, r)
  }

  /** The i-th tick proposes x as a stop: the entry, on breaking even, or its own trail. */
  ghost predicate Offers(cfg: Config, pos: Position, s: State, ticks: seq<Tick>, i: nat, x: real)
    requires i < |ticks|
  {
    && Managed(cfg, pos, ticks[i], s)
    && (|| (Reached(pos, ticks[i], s, cfg.breakevenR) && x == pos.entry)
        || (EverReached(cfg, pos, s, ticks[..i + 1], cfg.trailActivateR) && ticks[i].atr > 0.0
            && x == TrailLevel(cfg, pos, ticks[i])))
  }

  lemma EverReachedNext(cfg: Config, pos: Position, s: State, ticks: seq<Tick>, r: real)
    requires ticks != []
    ensures EverReached(cfg, pos, s, ticks, r)
            <==> EverReached(cfg, pos, s, ticks[..|ticks| - 1], r) || ReachedAt(cfg, pos, s, ticks[|ticks| - 1], r)
  {
    var n := |ticks| - 1;
    if EverReached(cfg, pos, s, ticks[..n], r) {
      var i :| 0 <= i < n && ReachedAt(cfg, pos, s, ticks[..n][i], r);
      assert ticks[i] == ticks[..n][i];
    }
    if EverReached(cfg, pos, s, ticks, r) {
      var i :| 0 <= i <= n && ReachedAt(cfg, pos, s, ticks[i], r);
      if i < n {
        assert ticks[..n][i] == ticks[i];
      }
    }
  }

  /** Each flag records that its threshold has been reached. */
  lemma {:induction false} FlagsMean(cfg: Config, pos: Position, s: State, ticks: seq<Tick>)
    requires Opened(pos, s)
    ensures var end := Run(cfg, pos, s, ticks);
            && end.initialRisk == s.initialRisk && end.holdMinutes == s.holdMinutes
            && (end.breakevenDone <==> EverReached(cfg, pos, s, ticks, cfg.breakevenR))
            && (end.partialDone <==> EverReached(cfg, pos, s, ticks, cfg.partialTpR))
            && (end.trailActive <==> EverReached(cfg, pos, s, ticks, cfg.trailActivateR))
  {
    if ticks != [] {
      FlagsMean(cfg, pos, s, ticks[..|ticks| - 1]);
      EverReachedNext(cfg, pos, s, ticks, cfg.breakevenR);
      EverReachedNext(cfg, pos, s, ticks, cfg.partialTpR);
      EverReachedNext(cfg, pos, s, ticks, cfg.trailActivateR);
    }
  }

  lemma OffersPrefix(cfg: Config, pos: Position, s: State, ticks: seq<Tick>, i: nat, x: real)
    requires i < |ticks| - 1
    ensures Offers(cfg, pos, s, ticks, i, x) <==> Offers(cfg, pos, s, ticks[..|ticks| - 1], i, x)
  {
    assert ticks[..|ticks| - 1][..i + 1] == ticks[..i + 1];
  }

  ghost predicate Offered(cfg: Config, pos: Position, s: State, ticks: seq<Tick>, x: real) {
    exists i :: 0 <= i < |ticks| && Offers(cfg, pos, s, ticks, i, x)
  }

  lemma OfferedNext(cfg: Config, pos: Position, s: State, ticks: seq<Tick>, x: real)
    requires ticks != []
    ensures Offered(cfg, pos, s, ticks, x)
            <==> Offered(cfg, pos, s, ticks[..|ticks| - 1], x) || Offers(cfg, pos, s, ticks, |ticks| - 1, x)
  {
    var n := |ticks| - 1;
    if Offered(cfg, pos, s, ticks[..n], x) {
      var i :| 0 <= i < n && Offers(cfg, pos, s, ticks[..n], i, x);
      OffersPrefix(cfg, pos, s, ticks, i, x);
    }
    if Offered(cfg, pos, s, ticks, x) {
      var i :| 0 <= i <= n && Offers(cfg, pos, s, ticks, i, x);
      if i < n {
        OffersPrefix(cfg, pos, s, ticks, i, x);
      }
    }
  }

  /** One step moves the stop to the best of itself and what the tick offers. */
  lemma NextBest(cfg: Config, pos: Position, s: State, ticks: seq<Tick>, x: real)
    requires Opened(pos, s) && ThresholdsInOrder(cfg) && ticks != []
    ensures var n := |ticks| - 1;
            var mid, end := Run(cfg, pos, s, ticks[..n]), Run(cfg, pos, s, ticks);
            && (end.stop == mid.stop || Offers(cfg, pos, s, ticks, n, end.stop))
            && NoLooser(pos, mid.stop, end.stop)
            && (Offers(cfg, pos, s, ticks, n, x) ==> NoLooser(pos, x, end.stop))
  {
    var n := |ticks| - 1;
    assert ticks[..n + 1] == ticks;
    RunSided(cfg, pos, s, ticks[..n]);
    NextSided(cfg, pos, ticks[n], Run(cfg, pos, s, ticks[..n]));
    FlagsMean(cfg, pos, s, ticks[..n]);
    EverReachedNext(cfg, pos, s, ticks, cfg.trailActivateR);
  }

  /** The stop is the most protective of the first stop and everything any tick has offered. */
  lemma {:induction false} StopIsBestOffer(cfg: Config, pos: Position, s: State, ticks: seq<Tick>, x: real)
    requires Opened(pos, s) && ThresholdsInOrder(cfg)
    ensures var stop := Run(cfg, pos, s, ticks).stop;
            && (stop == s.stop || Offered(cfg, pos, s, ticks, stop))
            && (x == s.stop || Offered(cfg, pos, s, ticks, x) ==> NoLooser(pos, x, stop))
  {
    if ticks != [] {
      var n := |ticks| - 1;
      StopIsBestOffer(cfg, pos, s, ticks[..n], x);
      NextBest(cfg, pos, s, ticks, x);
      OfferedNext(cfg, pos, s, ticks, x);
      OfferedNext(cfg, pos, s, ticks, Run(cfg, pos, s, ticks).stop);
    }
  }

  // --------------------------------------------------------------------------
  // Longs and shorts
  // --------------------------------------------------------------------------

  function MirrorPosition(pos: Position): Position {
    pos.(side := if pos.side == Long then Short else Long, entry := -pos.entry, stop := -pos.stop)
  }

  function MirrorState(s: State): State {
    s.(stop := -s.stop)
  }

  function MirrorBias(d: Direction): Direction {
    match d
    case Bullish => Bearish
    case Bearish => Bullish
    case Neutral => Neutral
  }

  function MirrorTick(t: Tick): Tick {
    t.(price := -t.price,
       mu := if t.mu == None then None else Some(t.mu.value.(directionBias := MirrorBias(t.mu.value.directionBias))))
  }

  function MirrorTicks(ticks: seq<Tick>): seq<Tick> {
    if ticks == [] then [] else MirrorTicks(ticks[..|ticks| - 1]) + [MirrorTick(ticks[|ticks| - 1])]
  }

  function MirrorEvent(e: Event): Event {
    if e.newStop == None then e else e.(newStop := Some(-e.newStop.value))
  }

  function MirrorEvents(events: seq<Event>): seq<Event> {
    if events == [] then [] else MirrorEvents(events[..|events| - 1]) + [MirrorEvent(events[|events| - 1])]
  }

  lemma {:induction false} MirrorConcat(a: seq<Event>, b: seq<Event>)
    ensures MirrorEvents(a + b) == MirrorEvents(a) + MirrorEvents(b)
  {
    if b == [] {
      assert a + b == a;
    } else {
      assert (a + b)[..|a + b| - 1] == a + b[..|b| - 1];
      MirrorConcat(a, b[..|b| - 1]);
    }
  }

  lemma MirrorOne(e: Event)
    ensures MirrorEvents([e]) == [MirrorEvent(e)]
  {
    assert [e][..0] == [];
  }

  lemma MirrorExits(cfg: Config, pos: Position, t: Tick, s: State)
    ensures var pos', t', s' := MirrorPosition(pos), MirrorTick(t), MirrorState(s);
            && RMultiple(pos', t'.price, s'.initialRisk) == RMultiple(pos, t.price, s.initialRisk)
            && ThesisBroken(cfg, pos', t') == ThesisBroken(cfg, pos, t)
            && TimedOut(cfg, pos', t', s') == TimedOut(cfg, pos, t, s)
  {
  }

  lemma MirrorEventsNext(cfg: Config, pos: Position, t: Tick, s: State)
    ensures Events(cfg, MirrorPosition(pos), MirrorTick(t), MirrorState(s)) == MirrorEvents(Events(cfg, pos, t, s))
  {
    MirrorExits(cfg, pos, t, s);
    if Managed(cfg, pos, t, s) {
      MirrorManaged(cfg, pos, t, s);
    } else {
      MirrorOne(Events(cfg, pos, t, s)[0]);
    }
  }

  lemma MirrorBreakEven(pos: Position, t: Tick, s: State, b: State)
    ensures BreakEvenEvents(MirrorPosition(pos), MirrorTick(t), MirrorState(s), MirrorState(b))
            == MirrorEvents(BreakEvenEvents(pos, t, s, b))
  {
    MirrorOne(Ev(pos, t, BreakEven).(newStop := Some(pos.entry)));
  }

  lemma MirrorTrail(pos: Position, t: Tick, s: State, n: State)
    ensures TrailEvents(MirrorPosition(pos), MirrorTick(t), MirrorState(s), MirrorState(n))
            == MirrorEvents(TrailEvents(pos, t, s, n))
  {
    MirrorOne(Ev(pos, t, Trail).(newStop := Some(n.stop)));
  }

  lemma MirrorLiquidity(cfg: Config, pos: Position, t: Tick)
    ensures LiquidityEvents(cfg, MirrorPosition(pos), MirrorTick(t)) == MirrorEvents(LiquidityEvents(cfg, pos, t))
  {
    if LiquidityGone(cfg, t) {
      MirrorOne(LiquidityEvents(cfg, pos, t)[0]);
    }
  }

  lemma MirrorManaged(cfg: Config, pos: Position, t: Tick, s: State)
    requires Managed(cfg, pos, t, s)
    ensures Events(cfg, MirrorPosition(pos), MirrorTick(t), MirrorState(s)) == MirrorEvents(Events(cfg, pos, t, s))
  {
    MirrorExits(cfg, pos, t, s);
    var b := AfterBreakEven(cfg, pos, t, s);
    var p := AfterPartial(cfg, pos, t, b);
    var n := AfterTrail(cfg, pos, t, p);
    MirrorStages(cfg, pos, t, s);
    MirrorBreakEven(pos, t, s, b);
    MirrorTrail(pos, t, p, n);
    MirrorLiquidity(cfg, pos, t);
    var be, pe := BreakEvenEvents(pos, t, s, b), PartialEvents(cfg, pos, t, b, p);
    var te, le := TrailEvents(pos, t, p, n), LiquidityEvents(cfg, pos, t);
    MirrorConcat(be, pe);
    MirrorConcat(be + pe, te);
    MirrorConcat(be + pe + te, le);
  }

  lemma MirrorStages(cfg: Config, pos: Position, t: Tick, s: State)
    ensures var pos', t' := MirrorPosition(pos), MirrorTick(t);
            var b := AfterBreakEven(cfg, pos, t, s);
            var p := AfterPartial(cfg, pos, t, b);
            && AfterBreakEven(cfg, pos', t', MirrorState(s)) == MirrorState(b)
            && AfterPartial(cfg, pos', t', MirrorState(b)) == MirrorState(p)
            && AfterTrail(cfg, pos', t', MirrorState(p)) == MirrorState(AfterTrail(cfg, pos, t, p))
  {
    MirrorExits(cfg, pos, t, s);
  }

  lemma MirrorNext(cfg: Config, pos: Position, t: Tick, s: State)
    ensures Next(cfg, MirrorPosition(pos), MirrorTick(t), MirrorState(s)) == MirrorState(Next(cfg, pos, t, s))
  {
    MirrorExits(cfg, pos, t, s);
    MirrorStages(cfg, pos, t, s);
  }

  /** A short is a long in a mirrored market: same flags, same events, mirrored stops. */
  lemma {:induction false} MirrorRun(cfg: Config, pos: Position, s: State, ticks: seq<Tick>)
    ensures Run(cfg, MirrorPosition(pos), MirrorState(s), MirrorTicks(ticks)) == MirrorState(Run(cfg, pos, s, ticks))
    ensures RunEvents(cfg, MirrorPosition(pos), MirrorState(s), MirrorTicks(ticks))
            == MirrorEvents(RunEvents(cfg, pos, s, ticks))
  {
    if ticks != [] {
      var n := |ticks| - 1;
      MirrorRun(cfg, pos, s, ticks[..n]);
      var mirrored := MirrorTicks(ticks);
      assert mirrored[..|mirrored| - 1] == MirrorTicks(ticks[..n]);
      var mid := Run(cfg, pos, s, ticks[..n]);
      MirrorNext(cfg, pos, ticks[n], mid);
      MirrorEventsNext(cfg, pos, ticks[n], mid);
      MirrorConcat(RunEvents(cfg, pos, s, ticks[..n]), Events(cfg, pos, ticks[n], mid));
    }
  }
}
