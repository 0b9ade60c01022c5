/** The trade manager as the program runs it: a state object per position, rewritten on every tick
    (aimos/execution/trade_manager.py). */
module TradeManager {
  import opened Schemas
  import opened Management

  class ManagementState {
    const initialRisk: real
    const holdMinutes: int
    var currentStop: real
    var breakevenDone: bool
    var partialDone: bool
    var trailActive: bool

    constructor (initialRisk: real, currentStop: real, holdMinutes: int)
      ensures View() == State(initialRisk, currentStop, holdMinutes, false, false, false)
    {
      this.initialRisk, this.currentStop, this.holdMinutes := initialRisk, currentStop, holdMinutes;
      breakevenDone, partialDone, trailActive := false, false, false;
    }

    function View(): State
      reads this
    {
      State(initialRisk, currentStop, holdMinutes, breakevenDone, partialDone, trailActive)
    }
  }

  class TradeManager {
    const cfg: Config

    constructor (cfg: Config)
      ensures this.cfg == cfg
    {
      this.cfg := cfg;
    }

    method BreakEvenRule(pos: Position, t: Tick, r: real, state: ManagementState) returns (events: seq<Event>)
      requires r == RMultiple(pos, t.price, state.initialRisk)
      modifies state
      ensures state.View() == AfterBreakEven(cfg, pos, t, old(state.View()))
      ensures events == BreakEvenEvents(pos, t, old(state.View()), state.View())
    {
      events := [];
      if !state.breakevenDone && r >= cfg.breakevenR {
        state.currentStop := pos.entry;
        state.breakevenDone := true;
        events := events + [Ev(pos, t, BreakEven).(newStop := Some(pos.entry))];
      }
    }

    method PartialRule(pos: Position, t: Tick, r: real, state: ManagementState) returns (events: seq<Event>)
      requires r == RMultiple(pos, t.price, state.initialRisk)
      modifies state
      ensures state.View() == AfterPartial(cfg, pos, t, old(state.View()))
      ensures events == PartialEvents(cfg, pos, t, old(state.View()), state.View())
    {
      events := [];
      if !state.partialDone && r >= cfg.partialTpR {
        state.partialDone := true;
        events := events + [Ev(pos, t, PartialTp).(closedQty := Some(Times(pos.qty, cfg.partialTpPct / PCT)))];
      }
    }

    method TrailRule(pos: Position, t: Tick, r: real, state: ManagementState) returns (events: seq<Event>)
      requires r == RMultiple(pos, t.price, state.initialRisk)
      modifies state
      ensures state.View() == AfterTrail(cfg, pos, t, old(state.View()))
      ensures events == TrailEvents(pos, t, old(state.View()), state.View())
    {
      events := [];
      if r >= cfg.trailActivateR {
        state.trailActive := true;
      }
      if state.trailActive && t.atr > 0.0 {
        var newStop := Tighter(pos, state.currentStop, TrailLevel(cfg, pos, t));
        if newStop != state.currentStop {
          state.currentStop := newStop;
          events := events + [Ev(pos, t, Trail).(newStop := Some(newStop))];
        }
      }
    }

    /** Re-evaluate an open position. */
    method Step(pos: Position, t: Tick, state: ManagementState) returns (events: seq<Event>)
      modifies state
      ensures state.View() == Next(cfg, pos, t, old(state.View()))
      ensures events == Management.Events(cfg, pos, t, old(state.View()))
    {
      var r := RMultiple(pos, t.price, state.initialRisk);
      var thesis := ThesisBroken(cfg, pos, t);
      if thesis.Some? {
        return [Ev(pos, t, ThesisExit(thesis.value))];
      }
      if TimedOut(cfg, pos, t, state.View()) {
        return [Ev(pos, t, TimeStop(r))];
      }
      events := BreakEvenRule(pos, t, r, state);
      var partials := PartialRule(pos, t, r, state);
      var trails := TrailRule(pos, t, r, state);
      events := events + partials + trails + LiquidityEvents(cfg, pos, t);
    }
  }
}
