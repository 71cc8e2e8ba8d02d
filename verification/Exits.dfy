/**
 Per-position exit logic (bot/exits/engine.py) around the strategies' `manage`
 (bot/strategies/directional.py, credit_vertical.py, long_straddle.py).

 Times are seconds on a real line. `Market.greekExit` is the verdict of the desk's greek limits and
 `Market.daysToExpiry` the difference of IST dates; both are arbitrary inputs.
 */
module Exits {
  import opened Common

  datatype Trigger = Target | PremiumStop | UnderlyingStop | TrailBreakeven | ForceClose | DeltaBreach | GammaShock

  /** A leg as the engine shows it to the strategies; `side` may be missing. */
  datatype LegState = LegState(symbol: string, call: bool, mid: Option<real>, side: Option<Side>)

  datatype Position = Position(expiry: real, lots: int, entryPremium: Option<real>, entryCredit: Option<real>,
                               entryUnderlying: Option<real>, entryAtr: Option<real>, trailStop: Option<real>,
                               peakPnl: Option<real>, legs: seq<LegState>,
                               unwindCost: Option<real>, totalPremium: Option<real>)

  datatype Market = Market(now: real, mids: map<string, real>, spot: Option<real>,
                           greekExit: Option<Trigger>, daysToExpiry: int)

  datatype Strategy =
    | Directional(targetR: real, drawdown: real, atrStop: real, breakevenAtR: real, chandelier: real, forceHours: real)
    | CreditVertical(takeProfit: real, stopLoss: real, forceDays: int)
    | LongStraddle(gain: real, loss: real, forceHours: real)

  datatype Action = Close(reason: Option<Trigger>) | TrailStop(stop: Option<real>) | NoOp

  datatype Directive = CloseNow(trigger: Trigger) | UpdateStop(stop: real) | Nothing

  datatype Runtime = Runtime(position: Position, peakPnl: real, troughPnl: real, peakUnderlying: Option<real>,
                             troughUnderlying: Option<real>, lastStop: Option<real>, lastAt: Option<real>, ticks: nat)

  datatype Outcome = Outcome(rt: Runtime, directives: seq<Directive>)

  const STOP_STEP := 0.000001

  // ------------------------------------------------------------------ refreshing the position

  /** The mid the strategy will see for its first leg: the market's quote, else the position's own. */
  function SeenMid(p: Position, m: Market): Option<real> {
    if |p.legs| == 0 then None
    else if p.legs[0].symbol in m.mids then Some(m.mids[p.legs[0].symbol])
    else p.legs[0].mid
  }

  function Pnl(p: Position, m: Market): Option<real> {
    if |p.legs| > 0 && p.legs[0].symbol in m.mids && p.entryPremium.Some?
    then Some(Gain(m.mids[p.legs[0].symbol], p.entryPremium.value, p.lots))
    else None
  }

  function Gain(mid: real, entry: real, lots: int): real {
    (mid - entry) * lots as real
  }

  /** Every leg has a quote with a mid. */
  predicate AllQuoted(legs: seq<LegState>, m: Market) {
    forall i :: 0 <= i < |legs| ==> legs[i].symbol in m.mids
  }

  /** What closing would cost according to the legs' own `side` entries, "buy" when missing. */
  function SumCost(legs: seq<LegState>, m: Market): real
    requires AllQuoted(legs, m)
  {
    if |legs| == 0 then 0.0
    else
      var leg := legs[|legs| - 1];
      SumCost(legs[..|legs| - 1], m) + Signed(if leg.side == Some(Sell) then Buy else Sell, m.mids[leg.symbol])
  }

  function SumMids(legs: seq<LegState>, m: Market): real
    requires AllQuoted(legs, m)
  {
    if |legs| == 0 then 0.0 else SumMids(legs[..|legs| - 1], m) + m.mids[legs[|legs| - 1].symbol]
  }

  function RefreshDirectional(rt: Runtime, m: Market): Runtime {
    var p, pnl, mid := rt.position, Pnl(rt.position, m), SeenMid(rt.position, m);
    var peak := if pnl.Some? then Max(rt.peakPnl, pnl.value) else rt.peakPnl;
    var trough := if pnl.Some? then Min(rt.troughPnl, pnl.value) else rt.troughPnl;
    rt.(
    position := p.(legs := if |p.legs| == 0 then p.legs else p.legs[0 := p.legs[0].(mid := mid)],
                   peakPnl := if pnl.Some? then Some(peak) else p.peakPnl, trailStop := rt.lastStop),
    peakPnl := peak, troughPnl := trough,
    peakUnderlying := if m.spot.None? then rt.peakUnderlying
                      else if rt.peakUnderlying.None? then m.spot
                      else Some(Max(rt.peakUnderlying.value, m.spot.value)),
    troughUnderlying := if m.spot.None? then rt.troughUnderlying
                        else if rt.troughUnderlying.None? then m.spot
                        else Some(Min(rt.troughUnderlying.value, m.spot.value)))
  }

  function Refresh(cfg: Strategy, rt: Runtime, m: Market): Runtime {
    match cfg
    case Directional(_, _, _, _, _, _) => RefreshDirectional(rt, m)
    case CreditVertical(_, _, _) =>
      if !AllQuoted(rt.position.legs, m) then rt
      else rt.(position := rt.position.(unwindCost := Some(SumCost(rt.position.legs, m))))
    case LongStraddle(_, _, _) =>
      if !AllQuoted(rt.position.legs, m) then rt
      else rt.(position := rt.position.(totalPremium := Some(SumMids(rt.position.legs, m))))
  }

  // ------------------------------------------------------------------ the strategies' decisions

  predicate UnderlyingStopHit(cfg: Strategy, p: Position, m: Market, mid: real)
    requires cfg.Directional? && p.entryPremium.Some? && |p.legs| > 0
  {
    && p.entryUnderlying.Some? && p.entryAtr.Some? && m.spot.Some? && mid <= p.entryPremium.value
    && var rise := m.spot.value - p.entryUnderlying.value;
       var adverse := if p.legs[0].call then -rise else rise;
       adverse >= cfg.atrStop * p.entryAtr.value
  }

  function ManageDirectional(cfg: Strategy, p: Position, m: Market): seq<Action>
    requires cfg.Directional?
  {
    if p.expiry - m.now <= cfg.forceHours * 3600.0 then [Close(Some(ForceClose))]
    else if |p.legs| == 0 || p.entryPremium.None? || p.legs[0].mid.None? then [NoOp]
    else if m.greekExit.Some? then [Close(m.greekExit)]
    else
      var entry, mid := p.entryPremium.value, p.legs[0].mid.value;
      if mid >= (1.0 + cfg.targetR) * entry then [Close(Some(Target))]
      else if mid <= (1.0 - cfg.drawdown) * entry then [Close(Some(PremiumStop))]
      else if p.trailStop.Some? && mid <= p.trailStop.value then [Close(Some(TrailBreakeven))]
      else if UnderlyingStopHit(cfg, p, m, mid) then [Close(Some(UnderlyingStop))]
      else if p.peakPnl.Some? && p.trailStop.None?
              && p.peakPnl.value >= cfg.breakevenAtR * (entry * MaxInt(p.lots, 1) as real)
      then [TrailStop(Some(entry))]
      else [NoOp]
  }

  function ManageCredit(cfg: Strategy, p: Position, m: Market): seq<Action>
    requires cfg.CreditVertical?
  {
    if m.daysToExpiry <= cfg.forceDays then [Close(Some(ForceClose))]
    else if p.entryCredit.None? then [NoOp]
    else
      var credit := p.entryCredit.value;
      var cost := if p.unwindCost.Some? then p.unwindCost.value else 0.0;
      if credit - cost >= cfg.takeProfit * credit then [Close(Some(Target))]
      else if cost >= cfg.stopLoss * credit then [Close(Some(PremiumStop))]
      else [NoOp]
  }

  function ManageStraddle(cfg: Strategy, p: Position, m: Market): seq<Action>
    requires cfg.LongStraddle?
  {
    if p.expiry - m.now <= cfg.forceHours * 3600.0 then [Close(Some(ForceClose))]
    else if p.entryPremium.None? then [NoOp]
    else
      var current := if p.totalPremium.Some? then p.totalPremium.value else 0.0;
      if current <= 0.0 then [NoOp]
      else if current >= (1.0 + cfg.gain) * p.entryPremium.value then [Close(Some(Target))]
      else if current <= (1.0 - cfg.loss) * p.entryPremium.value then [Close(Some(PremiumStop))]
      else [NoOp]
  }

  function Manage(cfg: Strategy, p: Position, m: Market): seq<Action> {
    match cfg
    case Directional(_, _, _, _, _, _) => ManageDirectional(cfg, p, m)
    case CreditVertical(_, _, _) => ManageCredit(cfg, p, m)
    case LongStraddle(_, _, _) => ManageStraddle(cfg, p, m)
  }

  // ------------------------------------------------------------------ from actions to directives

  predicate IsCall(p: Position) {
    |p.legs| > 0 && p.legs[0].call
  }

  /** The stop to use: for a directional call at least the chandelier below the highest underlying,
      for a put at most the one above the lowest. */
  function WithChandelier(cfg: Strategy, rt: Runtime, candidate: real): real {
    var p := rt.position;
    if !cfg.Directional? || p.entryAtr.None? || rt.peakUnderlying.None? || |p.legs| == 0 then candidate
    else if p.legs[0].call then Max(candidate, rt.peakUnderlying.value - cfg.chandelier * p.entryAtr.value)
    else
      var low := if rt.troughUnderlying.Some? && rt.troughUnderlying.value != 0.0 then rt.troughUnderlying.value
                 else rt.peakUnderlying.value;
      Min(candidate, low + cfg.chandelier * p.entryAtr.value)
  }

  /** Stops move one way only: up for a call, down for a put. */
  predicate Onward(call: bool, last: real, stop: real) {
    if call then stop > last + STOP_STEP else stop < last - STOP_STEP
  }

  predicate ShouldEmit(throttle: real, rt: Runtime, stop: real, now: real) {
    rt.lastStop.None? ||
    (!(rt.lastAt.Some? && now - rt.lastAt.value < throttle) && Onward(IsCall(rt.position), rt.lastStop.value, stop))
  }

  function TranslateOne(cfg: Strategy, throttle: real, rt: Runtime, now: real, a: Action): Outcome {
    match a
    case Close(reason) => Outcome(rt, [CloseNow(if reason.Some? then reason.value else PremiumStop)])
    case NoOp => Outcome(rt, [Nothing])
    case TrailStop(stop) =>
      if stop.None? then Outcome(rt, [Nothing])
      else
        var s := WithChandelier(cfg, rt, stop.value);
        if ShouldEmit(throttle, rt, s, now) then Outcome(rt.(lastStop := Some(s), lastAt := Some(now)), [UpdateStop(s)])
        else Outcome(rt, [])
  }

  function Translate(cfg: Strategy, throttle: real, rt: Runtime, now: real, actions: seq<Action>): Outcome {
    if |actions| == 0 then Outcome(rt, [])
    else
      var before := Translate(cfg, throttle, rt, now, actions[..|actions| - 1]);
      var last := TranslateOne(cfg, throttle, before.rt, now, actions[|actions| - 1]);
      Outcome(last.rt, before.directives + last.directives)
  }

  /** `ExitEngine.step`. */
  function Step(cfg: Strategy, throttle: real, rt: Runtime, m: Market): Outcome {
    var seen := Refresh(cfg, rt.(ticks := rt.ticks + 1), m);
    Translate(cfg, throttle, seen, m.now, Manage(cfg, seen.position, m))
  }

  /** A runtime as the engine creates it. */
  function NewRuntime(p: Position): Runtime {
    Runtime(p, 0.0, 0.0, None, None, None, None, 0)
  }

  // ------------------------------------------------------------------ the runtime object

  class PositionRuntime {
    var position: Position
    var peakPnl: real
    var troughPnl: real
    var peakUnderlying: Option<real>
    var troughUnderlying: Option<real>
    var lastStop: Option<real>
    var lastAt: Option<real>
    var ticks: nat

    ghost function Value(): Runtime
      reads this
    {
      Runtime(position, peakPnl, troughPnl, peakUnderlying, troughUnderlying, lastStop, lastAt, ticks)
    }

    constructor (p: Position)
      ensures Value() == NewRuntime(p)
    {
      position, peakPnl, troughPnl, ticks := p, 0.0, 0.0, 0;
      peakUnderlying, troughUnderlying, lastStop, lastAt := None, None, None, None;
    }

    method RefreshTrend(m: Market)
      modifies this
      ensures Value() == RefreshDirectional(old(Value()), m)
    {
      if |position.legs| > 0 {
        var leg := position.legs[0];
        assert position.legs == position.legs[0 := leg];
        if leg.symbol in m.mids {
          var mid := m.mids[leg.symbol];
          position := position.(legs := position.legs[0 := leg.(mid := Some(mid))]);
          if position.entryPremium.Some? {
            var pnl := (mid - position.entryPremium.value) * position.lots as real;
            peakPnl := Max(peakPnl, pnl);
            troughPnl := Min(troughPnl, pnl);
            position := position.(peakPnl := Some(peakPnl));
          }
        }
      }
      if m.spot.Some? {
        peakUnderlying := if peakUnderlying.None? then m.spot else Some(Max(peakUnderlying.value, m.spot.value));
        troughUnderlying := if troughUnderlying.None? then m.spot else Some(Min(troughUnderlying.value, m.spot.value));
      }
      position := position.(trailStop := lastStop);
    }

    /** Adds up the legs, or gives up at the first leg without a quote. */
    method RefreshSpread(m: Market)
      modifies this
      ensures Value() == if AllQuoted(old(position).legs, m)
                         then old(Value()).(position :=
                                            old(position).(unwindCost := Some(SumCost(old(position).legs, m))))
                         else old(Value())
    {
      var legs, cost := position.legs, 0.0;
      for i := 0 to |legs|
        invariant AllQuoted(legs[..i], m) && cost == SumCost(legs[..i], m) && Value() == old(Value())
      {
        if legs[i].symbol !in m.mids {
          return;
        }
        assert legs[..i + 1][..i] == legs[..i];
        var side := if legs[i].side.Some? then legs[i].side.value else Buy;
        var mid := m.mids[legs[i].symbol];
        cost := cost + (if side == Sell then mid else -mid);
      }
      assert legs[..|legs|] == legs;
      position := position.(unwindCost := Some(cost));
    }

    method RefreshStraddle(m: Market)
      modifies this
      ensures Value() == if AllQuoted(old(position).legs, m)
                         then old(Value()).(position :=
                                            old(position).(totalPremium := Some(SumMids(old(position).legs, m))))
                         else old(Value())
    {
      var legs, total := position.legs, 0.0;
      for i := 0 to |legs|
        invariant AllQuoted(legs[..i], m) && total == SumMids(legs[..i], m) && Value() == old(Value())
      {
        if legs[i].symbol !in m.mids {
          return;
        }
        assert legs[..i + 1][..i] == legs[..i];
        total := total + m.mids[legs[i].symbol];
      }
      assert legs[..|legs|] == legs;
      position := position.(totalPremium := Some(total));
    }

    method TranslateActions(cfg: Strategy, throttle: real, now: real, actions: seq<Action>)
      returns (directives: seq<Directive>)
      modifies this
      ensures Outcome(Value(), directives) == Translate(cfg, throttle, old(Value()), now, actions)
    {
      directives := [];
      for i := 0 to |actions|
        invariant Outcome(Value(), directives) == Translate(cfg, throttle, old(Value()), now, actions[..i])
      {
        hide WithChandelier, ShouldEmit;
        assert actions[..i + 1][..i] == actions[..i];
        match actions[i] {
          case Close(reason) =>
            directives := directives + [CloseNow(if reason.Some? then reason.value else PremiumStop)];
          case NoOp => directives := directives + [Nothing];
          case TrailStop(stop) =>
            if stop.None? {
              directives := directives + [Nothing];
            } else {
              var rt := Runtime(position, peakPnl, troughPnl, peakUnderlying, troughUnderlying, lastStop, lastAt,
                                ticks);
              var s := WithChandelier(cfg, rt, stop.value);
              if ShouldEmit(throttle, rt, s, now) {
                lastStop, lastAt := Some(s), Some(now);
                directives := directives + [UpdateStop(s)];
              }
            }
        }
      }
      assert actions[..|actions|] == actions;
    }

    method Advance(cfg: Strategy, throttle: real, m: Market) returns (directives: seq<Directive>)
      modifies this
      ensures Outcome(Value(), directives) == Step(cfg, throttle, old(Value()), m)
    {
      hide Translate, Manage, RefreshDirectional, SumCost, SumMids, AllQuoted;
      ticks := ticks + 1;
      match cfg {
        case Directional(_, _, _, _, _, _) => RefreshTrend(m);
        case CreditVertical(_, _, _) => RefreshSpread(m);
        case LongStraddle(_, _, _) => RefreshStraddle(m);
      }
      var actions := Manage(cfg, position, m);
      directives := TranslateActions(cfg, throttle, m.now, actions);
    }
  }
}
