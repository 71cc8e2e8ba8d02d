/** Properties of the exit engine over whole lives of a position. */
module ExitProofs {
  import opened Common
  import opened Exits

  /** One tick's input: the position as the engine rebuilt it, and the market. */
  datatype Input = Input(position: Position, market: Market)

  datatype Emission = Emission(at: real, stop: real)

  /** The stop updates among the directives of a tick at `now`. */
  function Stops(directives: seq<Directive>, now: real): seq<Emission> {
    if |directives| == 0 then []
    else
      var d := directives[|directives| - 1];
      Stops(directives[..|directives| - 1], now) + if d.UpdateStop? then [Emission(now, d.stop)] else []
  }

  /** The runtime, and all stops emitted, after the first `k` ticks of one runtime object. */
  datatype Life = Life(rt: Runtime, emitted: seq<Emission>)

  function LifeAfter(cfg: Strategy, throttle: real, inputs: seq<Input>, k: nat): Life
    requires 0 < |inputs| && k <= |inputs|
  {
    if k == 0 then Life(NewRuntime(inputs[0].position), [])
    else
      var before := LifeAfter(cfg, throttle, inputs, k - 1);
      var o := StepAt(cfg, throttle, before.rt, inputs[k - 1]);
      Life(o.rt, before.emitted + Stops(o.directives, inputs[k - 1].market.now))
  }

  function StepAt(cfg: Strategy, throttle: real, rt: Runtime, i: Input): Outcome {
    Step(cfg, throttle, rt.(position := i.position), i.market)
  }

  lemma {:induction false} StopsAppend(ds: seq<Directive>, es: seq<Directive>, now: real)
    ensures Stops(ds + es, now) == Stops(ds, now) + Stops(es, now)
  {
    if |es| == 0 {
      assert ds + es == ds;
    } else {
      StopsAppend(ds, es[..|es| - 1], now);
      assert (ds + es)[..|ds + es| - 1] == ds + es[..|es| - 1];
    }
  }

  // ------------------------------------------------------------------ stops tighten and keep their distance

  ghost predicate Follows(call: bool, throttle: real, a: Emission, b: Emission) {
    b.at - a.at >= throttle && Onward(call, a.stop, b.stop)
  }

  ghost predicate Chain(call: bool, throttle: real, log: seq<Emission>) {
    forall i :: 0 < i < |log| ==> Follows(call, throttle, log[i - 1], log[i])
  }

  /** The runtime remembers the last emission. */
  ghost predicate Remembers(rt: Runtime, log: seq<Emission>) {
    if |log| == 0 then rt.lastStop.None?
    else rt.lastStop == Some(log[|log| - 1].stop) && rt.lastAt == Some(log[|log| - 1].at)
  }

  lemma ChainExtends(call: bool, throttle: real, log: seq<Emission>, e: Emission)
    requires Chain(call, throttle, log) && (|log| > 0 ==> Follows(call, throttle, log[|log| - 1], e))
    ensures Chain(call, throttle, log + [e])
  {
    hide Follows;
    var l := log + [e];
    forall i | 0 < i < |l| ensures Follows(call, throttle, l[i - 1], l[i]) {
      if i < |log| {
        assert Follows(call, throttle, log[i - 1], log[i]);
      }
    }
  }

  lemma OneKeepsChain(cfg: Strategy, throttle: real, rt: Runtime, now: real, a: Action, log: seq<Emission>)
    requires Remembers(rt, log) && Chain(IsCall(rt.position), throttle, log)
    ensures var o := TranslateOne(cfg, throttle, rt, now, a);
            && o.rt.position == rt.position
            && Remembers(o.rt, log + Stops(o.directives, now))
            && Chain(IsCall(rt.position), throttle, log + Stops(o.directives, now))
  {
    hide WithChandelier, IsCall, Chain, Onward;
    var o := TranslateOne(cfg, throttle, rt, now, a);
    if |o.directives| == 1 && o.directives[0].UpdateStop? {
      assert Stops(o.directives, now) == [Emission(now, o.directives[0].stop)];
      ChainExtends(IsCall(rt.position), throttle, log, Emission(now, o.directives[0].stop));
    } else {
      assert Stops(o.directives, now) == [];
      assert log + [] == log;
    }
  }

  /** Whatever actions a strategy returns, translating them keeps the chain. */
  lemma {:induction false} TranslateKeepsChain(cfg: Strategy, throttle: real, rt: Runtime, now: real,
                                               actions: seq<Action>, log: seq<Emission>)
    requires Remembers(rt, log) && Chain(IsCall(rt.position), throttle, log)
    ensures var o := Translate(cfg, throttle, rt, now, actions);
            && o.rt.position == rt.position
            && Remembers(o.rt, log + Stops(o.directives, now))
            && Chain(IsCall(rt.position), throttle, log + Stops(o.directives, now))
  {
    hide TranslateOne, Chain, Remembers, IsCall;
    if |actions| == 0 {
      assert log + Stops([], now) == log;
    } else {
      var init := actions[..|actions| - 1];
      TranslateKeepsChain(cfg, throttle, rt, now, init, log);
      var before := Translate(cfg, throttle, rt, now, init);
      var last := TranslateOne(cfg, throttle, before.rt, now, actions[|actions| - 1]);
      OneKeepsChain(cfg, throttle, before.rt, now, actions[|actions| - 1], log + Stops(before.directives, now));
      StopsAppend(before.directives, last.directives, now);
      assert log + Stops(before.directives, now) + Stops(last.directives, now)
          == log + Stops(before.directives + last.directives, now);
    }
  }

  lemma RefreshKeepsStop(cfg: Strategy, rt: Runtime, m: Market)
    ensures var r := Refresh(cfg, rt, m);
            r.lastStop == rt.lastStop && r.lastAt == rt.lastAt && IsCall(r.position) == IsCall(rt.position)
  {
  }

  /** One tick keeps the chain, whatever the strategy asks for. */
  lemma TickKeepsChain(cfg: Strategy, throttle: real, rt: Runtime, m: Market, actions: seq<Action>, log: seq<Emission>)
    requires Remembers(rt, log) && Chain(IsCall(rt.position), throttle, log)
    ensures var o := Translate(cfg, throttle, Refresh(cfg, rt, m), m.now, actions);
            && Remembers(o.rt, log + Stops(o.directives, m.now))
            && Chain(IsCall(rt.position), throttle, log + Stops(o.directives, m.now))
  {
    hide IsCall, Translate, Refresh, Chain;
    RefreshKeepsStop(cfg, rt, m);
    TranslateKeepsChain(cfg, throttle, Refresh(cfg, rt, m), m.now, actions, log);
  }

  lemma EmptyChain(call: bool, throttle: real)
    ensures Chain(call, throttle, [])
  {
  }

  lemma {:induction false} ChainIsTransitive(call: bool, throttle: real, log: seq<Emission>, i: nat, j: nat)
    requires throttle >= 0.0 && Chain(call, throttle, log) && i < j < |log|
    ensures Follows(call, throttle, log[i], log[j])
    decreases j
  {
    assert Follows(call, throttle, log[j - 1], log[j]);
    if i < j - 1 {
      ChainIsTransitive(call, throttle, log, i, j - 1);
    }
  }

  /** A tick of an arbitrary strategy: `actions` is what its `manage` returned. */
  datatype Request = Request(position: Position, market: Market, actions: seq<Action>)

  /** The life of a runtime under an arbitrary strategy. */
  function AnyLife(cfg: Strategy, throttle: real, requests: seq<Request>, k: nat): Life
    requires 0 < |requests| && k <= |requests|
  {
    if k == 0 then Life(NewRuntime(requests[0].position), [])
    else
      var before, r := AnyLife(cfg, throttle, requests, k - 1), requests[k - 1];
      var rt := before.rt.(position := r.position, ticks := before.rt.ticks + 1);
      var o := Translate(cfg, throttle, Refresh(cfg, rt, r.market), r.market.now, r.actions);
      Life(o.rt, before.emitted + Stops(o.directives, r.market.now))
  }

  lemma {:induction false} AnyLifeKeepsChain(cfg: Strategy, throttle: real, requests: seq<Request>, k: nat, call: bool)
    requires 0 < |requests| && k <= |requests|
    requires forall i :: 0 <= i < |requests| ==> IsCall(requests[i].position) == call
    ensures var l := AnyLife(cfg, throttle, requests, k);
            Remembers(l.rt, l.emitted) && Chain(call, throttle, l.emitted)
  {
    hide IsCall, Translate, Refresh, Chain;
    if k == 0 {
      EmptyChain(call, throttle);
    } else {
      AnyLifeKeepsChain(cfg, throttle, requests, k - 1, call);
      var before, r := AnyLife(cfg, throttle, requests, k - 1), requests[k - 1];
      var rt := before.rt.(position := r.position, ticks := before.rt.ticks + 1);
      TickKeepsChain(cfg, throttle, rt, r.market, r.actions, before.emitted);
    }
  }

  /** What the built-in strategy asks for at each tick of its life. */
  function Asked(cfg: Strategy, throttle: real, inputs: seq<Input>): seq<Request>
    requires 0 < |inputs|
  {
    seq(|inputs|, k requires 0 <= k < |inputs| => AskedAt(cfg, throttle, inputs, k))
  }

  function AskedAt(cfg: Strategy, throttle: real, inputs: seq<Input>, k: nat): Request
    requires k < |inputs|
  {
    var i, rt := inputs[k], LifeAfter(cfg, throttle, inputs, k).rt;
    var seen := Refresh(cfg, rt.(position := i.position, ticks := rt.ticks + 1), i.market);
    Request(i.position, i.market, Manage(cfg, seen.position, i.market))
  }

  /** The built-in strategies' lives are among the arbitrary ones. */
  lemma {:induction false} LifeIsAnyLife(cfg: Strategy, throttle: real, inputs: seq<Input>, k: nat)
    requires 0 < |inputs| && k <= |inputs|
    ensures LifeAfter(cfg, throttle, inputs, k) == AnyLife(cfg, throttle, Asked(cfg, throttle, inputs), k)
  {
    hide Manage, Refresh, Translate, Stops;
    if k > 0 {
      LifeIsAnyLife(cfg, throttle, inputs, k - 1);
      assert Asked(cfg, throttle, inputs)[k - 1] == AskedAt(cfg, throttle, inputs, k - 1);
    }
  }

  lemma LifeKeepsChain(cfg: Strategy, throttle: real, inputs: seq<Input>, k: nat, call: bool)
    requires 0 < |inputs| && k <= |inputs|
    requires forall i :: 0 <= i < |inputs| ==> IsCall(inputs[i].position) == call
    ensures var l := LifeAfter(cfg, throttle, inputs, k);
            Remembers(l.rt, l.emitted) && Chain(call, throttle, l.emitted)
  {
    hide LifeAfter, AnyLife, Remembers, Chain, IsCall;
    LifeIsAnyLife(cfg, throttle, inputs, k);
    AnyLifeKeepsChain(cfg, throttle, Asked(cfg, throttle, inputs), k, call);
  }

  /** Whatever a strategy's `manage` returns, tick by tick, any two stops emitted over the life of one
      runtime are at least the throttle apart and the later one is strictly higher for a call, strictly
      lower for a put, even if the clock jumps. */
  lemma StopsMoveOneWay(cfg: Strategy, throttle: real, requests: seq<Request>, k: nat, call: bool, i: nat, j: nat)
    requires 0 < |requests| && k <= |requests| && throttle >= 0.0
    requires forall n :: 0 <= n < |requests| ==> IsCall(requests[n].position) == call
    requires i < j < |AnyLife(cfg, throttle, requests, k).emitted|
    ensures var log := AnyLife(cfg, throttle, requests, k).emitted;
            log[j].at - log[i].at >= throttle && Onward(call, log[i].stop, log[j].stop)
  {
    hide AnyLife;
    AnyLifeKeepsChain(cfg, throttle, requests, k, call);
    ChainIsTransitive(call, throttle, AnyLife(cfg, throttle, requests, k).emitted, i, j);
  }

  /** A long option closes at mids at or below its stop. Hence a call's stops tighten: the later one closes
      at every mid at which the earlier one did, and at more. A put's stops loosen: the later one closes
      only at mids at which the earlier one did, and no longer at the earlier stop itself. */
  lemma PutStopsLoosen(cfg: Strategy, throttle: real, requests: seq<Request>, k: nat, call: bool, i: nat, j: nat)
    requires 0 < |requests| && k <= |requests| && throttle >= 0.0
    requires forall n :: 0 <= n < |requests| ==> IsCall(requests[n].position) == call
    requires i < j < |AnyLife(cfg, throttle, requests, k).emitted|
    ensures var earlier, later := AnyLife(cfg, throttle, requests, k).emitted[i].stop,
            AnyLife(cfg, throttle, requests, k).emitted[j].stop;
            && (call ==> (forall mid: real :: AtStop(mid, earlier) ==> AtStop(mid, later)) && !AtStop(later, earlier))
            && (!call ==> (forall mid: real :: AtStop(mid, later) ==> AtStop(mid, earlier)) && !AtStop(earlier, later))
  {
    hide AnyLife;
    StopsMoveOneWay(cfg, throttle, requests, k, call, i, j);
  }

  /** The trailing-stop test of `manage`. */
  predicate AtStop(mid: real, stop: real) {
    mid <= stop
  }

  const SPREAD := CreditVertical(0.5, 2.0, 2)
  const HELD := Position(1000.0, 1, None, None, None, None, None, None, [LegState("C", true, None, None)], None, None)

  function Quiet(now: real): Market {
    Market(now, map[], None, None, 5)
  }

  /** The trailing requests of a strategy that raises its stop from 1 to 2 after ten seconds, and asks for
      another rise one second later. */
  function Rising(): seq<Request> {
    [Request(HELD, Quiet(0.0), [TrailStop(Some(1.0))]), Request(HELD, Quiet(10.0), [TrailStop(Some(2.0))]),
     Request(HELD, Quiet(11.0), [TrailStop(Some(3.0))])]
  }

  /** Such lives exist: the first two stops go out, the third is held back by the throttle. */
  lemma TwoStops()
    ensures AnyLife(SPREAD, 5.0, Rising(), 3).emitted == [Emission(0.0, 1.0), Emission(10.0, 2.0)]
  {
    hide AnyLife, ShouldEmit, Translate, Refresh, Stops;
    RisingLife(0);
    var rt := NewRuntime(HELD);
    RisingStep(rt.(ticks := 1), 0.0, 1.0);
    FirstGoesOut(rt.(ticks := 1));
    var one := rt.(ticks := 1, lastStop := Some(1.0), lastAt := Some(0.0));
    assert AnyLife(SPREAD, 5.0, Rising(), 1) == Life(one, [Emission(0.0, 1.0)]);
    RisingLife(1);
    RisingStep(one.(ticks := 2), 10.0, 2.0);
    HigherGoesOut(one.(ticks := 2));
    var two := one.(ticks := 2, lastStop := Some(2.0), lastAt := Some(10.0));
    assert AnyLife(SPREAD, 5.0, Rising(), 2) == Life(two, [Emission(0.0, 1.0), Emission(10.0, 2.0)]);
    RisingLife(2);
    RisingStep(two.(ticks := 3), 11.0, 3.0);
    SoonIsHeldBack(two.(ticks := 3));
  }

  lemma FirstGoesOut(rt: Runtime)
    requires rt.lastStop.None?
    ensures ShouldEmit(5.0, rt, 1.0, 0.0)
  {
  }

  lemma HigherGoesOut(rt: Runtime)
    requires rt.position == HELD && rt.lastStop == Some(1.0) && rt.lastAt == Some(0.0)
    ensures ShouldEmit(5.0, rt, 2.0, 10.0)
  {
  }

  lemma SoonIsHeldBack(rt: Runtime)
    requires rt.lastStop == Some(2.0) && rt.lastAt == Some(10.0)
    ensures !ShouldEmit(5.0, rt, 3.0, 11.0)
  {
  }

  lemma RisingLife(k: nat)
    requires k < 3
    ensures var before, r := AnyLife(SPREAD, 5.0, Rising(), k), Rising()[k];
            var rt := before.rt.(position := HELD, ticks := before.rt.ticks + 1);
            var o := Translate(SPREAD, 5.0, Refresh(SPREAD, rt, r.market), r.market.now, r.actions);
            AnyLife(SPREAD, 5.0, Rising(), k + 1) == Life(o.rt, before.emitted + Stops(o.directives, r.market.now))
    ensures AnyLife(SPREAD, 5.0, Rising(), 0) == Life(NewRuntime(HELD), [])
  {
    hide Translate, Refresh, Stops;
  }

  lemma RisingStep(rt: Runtime, now: real, stop: real)
    requires rt.position == HELD
    ensures var o := Translate(SPREAD, 5.0, Refresh(SPREAD, rt, Quiet(now)), now, [TrailStop(Some(stop))]);
            if ShouldEmit(5.0, rt, stop, now)
            then o.rt == rt.(lastStop := Some(stop), lastAt := Some(now))
              && Stops(o.directives, now) == [Emission(now, stop)]
            else o.rt == rt && Stops(o.directives, now) == []
  {
    assert Refresh(SPREAD, rt, Quiet(now)) == rt by {
      assert HELD.legs[0].symbol !in Quiet(now).mids;
    }
    SingleAction(SPREAD, 5.0, rt, now, [TrailStop(Some(stop))]);
    StopsOfOne(UpdateStop(stop), now);
  }

  // ------------------------------------------------------------------ directional positions

  /** When a trailing request goes out: always if no stop is out yet; otherwise once the throttle has passed since
      the last one and if the stop moves on by more than a millionth, up for a call, down for anything else. */
  lemma EmittedIff(cfg: Strategy, throttle: real, rt: Runtime, now: real, stop: real)
    ensures var s := WithChandelier(cfg, rt, stop);
            var o := TranslateOne(cfg, throttle, rt, now, TrailStop(Some(stop)));
            var far := if IsCall(rt.position) then s - OrZero(rt.lastStop) > 0.000001
              else OrZero(rt.lastStop) - s > 0.000001;
            && (o.directives == [UpdateStop(s)] <==>
                  rt.lastStop.None? || ((rt.lastAt.None? || now - rt.lastAt.value >= throttle) && far))
            && (o.directives != [UpdateStop(s)] ==> o == Outcome(rt, []))
            && (o.directives == [UpdateStop(s)] ==> o.rt == rt.(lastStop := Some(s), lastAt := Some(now)))
  {
    hide WithChandelier;
  }

  /** Every strategy asks for one thing per tick, so a tick yields at most one directive. */
  lemma OneDirective(cfg: Strategy, throttle: real, rt: Runtime, m: Market)
    ensures |Step(cfg, throttle, rt, m).directives| <= 1
  {
    hide Refresh, WithChandelier, ShouldEmit;
    var seen := Refresh(cfg, rt.(ticks := rt.ticks + 1), m);
    OneAction(cfg, seen.position, m);
    SingleAction(cfg, throttle, seen, m.now, Manage(cfg, seen.position, m));
  }

  lemma OneAction(cfg: Strategy, p: Position, m: Market)
    ensures |Manage(cfg, p, m)| == 1
  {
  }

  lemma SingleAction(cfg: Strategy, throttle: real, rt: Runtime, now: real, actions: seq<Action>)
    requires |actions| == 1
    ensures Translate(cfg, throttle, rt, now, actions) == TranslateOne(cfg, throttle, rt, now, actions[0])
  {
    assert actions[..0] == [];
    assert Translate(cfg, throttle, rt, now, actions[..0]) == Outcome(rt, []);
    var last := TranslateOne(cfg, throttle, rt, now, actions[0]);
    assert [] + last.directives == last.directives;
  }

  lemma StepOfOne(cfg: Strategy, throttle: real, rt: Runtime, m: Market)
    requires cfg.Directional?
    ensures var seen := RefreshDirectional(rt.(ticks := rt.ticks + 1), m);
            && |ManageDirectional(cfg, seen.position, m)| == 1
            && Step(cfg, throttle, rt, m)
               == TranslateOne(cfg, throttle, seen, m.now, ManageDirectional(cfg, seen.position, m)[0])
  {
    hide RefreshDirectional, ManageDirectional, TranslateOne;
    var seen := RefreshDirectional(rt.(ticks := rt.ticks + 1), m);
    OneAction(cfg, seen.position, m);
    SingleAction(cfg, throttle, seen, m.now, ManageDirectional(cfg, seen.position, m));
  }

  /** A directional step with a stop in place never moves it. */
  lemma StopIsFinal(cfg: Strategy, throttle: real, rt: Runtime, m: Market)
    requires cfg.Directional? && rt.lastStop.Some?
    ensures var o := Step(cfg, throttle, rt, m); o.rt.lastStop == rt.lastStop && Stops(o.directives, m.now) == []
  {
    hide WithChandelier, ShouldEmit, UnderlyingStopHit, Step, Stops;
    StepOfOne(cfg, throttle, rt, m);
    var o := Step(cfg, throttle, rt, m);
    StopsOfOne(o.directives[0], m.now);
    assert o.directives == [o.directives[0]];
  }

  lemma AtMostOneStop(cfg: Strategy, throttle: real, rt: Runtime, m: Market)
    ensures |Stops(Step(cfg, throttle, rt, m).directives, m.now)| <= 1
  {
    hide Step;
    OneDirective(cfg, throttle, rt, m);
    StopsShort(Step(cfg, throttle, rt, m).directives, m.now);
  }

  lemma {:induction false} StopsShort(ds: seq<Directive>, now: real)
    ensures |Stops(ds, now)| <= |ds|
  {
    if |ds| > 0 {
      StopsShort(ds[..|ds| - 1], now);
    }
  }

  lemma Remembered(l: Life)
    requires Remembers(l.rt, l.emitted) && |l.emitted| == 1
    ensures l.rt.lastStop == Some(l.emitted[0].stop)
  {
  }

  /** In the whole life of a directional runtime at most one stop is emitted, and once emitted it is
      the one the runtime holds. */
  lemma {:induction false} OneStopEver(cfg: Strategy, throttle: real, inputs: seq<Input>, k: nat, call: bool)
    requires cfg.Directional? && 0 < |inputs| && k <= |inputs|
    requires forall i :: 0 <= i < |inputs| ==> IsCall(inputs[i].position) == call
    ensures var l := LifeAfter(cfg, throttle, inputs, k);
            |l.emitted| <= 1 && (|l.emitted| == 1 ==> l.rt.lastStop == Some(l.emitted[0].stop))
  {
    hide Step, Stops, Chain, IsCall, Remembers;
    if k > 0 {
      OneStopEver(cfg, throttle, inputs, k - 1, call);
      var before := LifeAfter(cfg, throttle, inputs, k - 1);
      var i := inputs[k - 1];
      var rt := before.rt.(position := i.position);
      LifeKeepsChain(cfg, throttle, inputs, k, call);
      var after := LifeAfter(cfg, throttle, inputs, k);
      if |after.emitted| == 1 {
        Remembered(after);
      }
      if |before.emitted| == 1 {
        StopIsFinal(cfg, throttle, rt, i.market);
      } else {
        AtMostOneStop(cfg, throttle, rt, i.market);
      }
    }
  }

  lemma StepPeaks(cfg: Strategy, throttle: real, rt: Runtime, m: Market)
    requires cfg.Directional?
    ensures var r, seen := Step(cfg, throttle, rt, m).rt, RefreshDirectional(rt.(ticks := rt.ticks + 1), m);
            r == seen.(lastStop := r.lastStop, lastAt := r.lastAt)
  {
    hide RefreshDirectional, ManageDirectional, Step, WithChandelier, ShouldEmit;
    StepOfOne(cfg, throttle, rt, m);
  }

  /** The input of tick `i` has a PnL. */
  predicate HasPnl(inputs: seq<Input>, i: nat) {
    i < |inputs| && Pnl(inputs[i].position, inputs[i].market).Some?
  }

  function PnlAt(inputs: seq<Input>, i: nat): real
    requires HasPnl(inputs, i)
  {
    Pnl(inputs[i].position, inputs[i].market).value
  }

  /** Over the life of a directional runtime its peak is the highest PnL seen, but at least 0, and its
      trough the lowest, but at most 0. */
  lemma {:induction false} PeaksAreExtremes(cfg: Strategy, throttle: real, inputs: seq<Input>, k: nat)
    requires cfg.Directional? && 0 < |inputs| && k <= |inputs|
    ensures var rt := LifeAfter(cfg, throttle, inputs, k).rt;
            && rt.troughPnl <= 0.0 <= rt.peakPnl
            && (forall i: nat :: i < k && HasPnl(inputs, i) ==> rt.troughPnl <= PnlAt(inputs, i) <= rt.peakPnl)
            && (rt.peakPnl == 0.0 || exists i: nat :: i < k && HasPnl(inputs, i) && PnlAt(inputs, i) == rt.peakPnl)
            && (rt.troughPnl == 0.0 || exists i: nat :: i < k && HasPnl(inputs, i) && PnlAt(inputs, i) == rt.troughPnl)
  {
    hide Step, Pnl, Stops;
    if k > 0 {
      PeaksAreExtremes(cfg, throttle, inputs, k - 1);
      var before := LifeAfter(cfg, throttle, inputs, k - 1).rt;
      StepPeaks(cfg, throttle, before.(position := inputs[k - 1].position), inputs[k - 1].market);
      var rt := LifeAfter(cfg, throttle, inputs, k).rt;
      if HasPnl(inputs, k - 1) {
        assert rt.peakPnl == Max(before.peakPnl, PnlAt(inputs, k - 1));
        assert rt.troughPnl == Min(before.troughPnl, PnlAt(inputs, k - 1));
      } else {
        assert rt.peakPnl == before.peakPnl && rt.troughPnl == before.troughPnl;
      }
    }
  }

  /** Tick `i` saw the underlying at `x`. */
  predicate SawSpot(inputs: seq<Input>, i: nat, x: real) {
    i < |inputs| && inputs[i].market.spot == Some(x)
  }

  /** The underlying's peak and trough are the highest and the lowest price seen, and unknown as long as none
      was. */
  lemma {:induction false} UnderlyingExtremes(cfg: Strategy, throttle: real, inputs: seq<Input>, k: nat)
    requires cfg.Directional? && 0 < |inputs| && k <= |inputs|
    ensures var rt := LifeAfter(cfg, throttle, inputs, k).rt;
            && (rt.peakUnderlying.Some? <==> rt.troughUnderlying.Some?)
            && (rt.peakUnderlying.Some? <==> exists i: nat, x :: i < k && SawSpot(inputs, i, x))
            && (rt.peakUnderlying.Some? ==>
                  && (exists i: nat :: i < k && SawSpot(inputs, i, rt.peakUnderlying.value))
                  && (exists i: nat :: i < k && SawSpot(inputs, i, rt.troughUnderlying.value))
                  && (forall i: nat, x :: i < k && SawSpot(inputs, i, x) ==>
                        rt.troughUnderlying.value <= x <= rt.peakUnderlying.value))
  {
    hide Step, Pnl, Stops;
    if k > 0 {
      UnderlyingExtremes(cfg, throttle, inputs, k - 1);
      var before := LifeAfter(cfg, throttle, inputs, k - 1).rt;
      StepPeaks(cfg, throttle, before.(position := inputs[k - 1].position), inputs[k - 1].market);
      var rt, spot := LifeAfter(cfg, throttle, inputs, k).rt, inputs[k - 1].market.spot;
      if spot.Some? {
        assert SawSpot(inputs, k - 1, spot.value);
      } else {
        assert rt.peakUnderlying == before.peakUnderlying && rt.troughUnderlying == before.troughUnderlying;
      }
    }
  }

  /** The step closes the position. */
  predicate Closes(o: Outcome) {
    |o.directives| == 1 && o.directives[0].CloseNow?
  }

  /** When a directional step with a usable quote, outside the forced-close window and with no greek
      breach, closes: target, premium stop, trailing stop or underlying stop. */
  lemma ClosesWhen(cfg: Strategy, throttle: real, rt: Runtime, m: Market)
    requires cfg.Directional? && rt.position.entryPremium.Some? && SeenMid(rt.position, m).Some?
    ensures var p, mid, entry := rt.position, SeenMid(rt.position, m).value, rt.position.entryPremium.value;
            Closes(Step(cfg, throttle, rt, m)) <==>
              || p.expiry - m.now <= cfg.forceHours * 3600.0
              || m.greekExit.Some?
              || mid >= (1.0 + cfg.targetR) * entry
              || mid <= (1.0 - cfg.drawdown) * entry
              || (rt.lastStop.Some? && mid <= rt.lastStop.value)
              || UnderlyingStopHit(cfg, p, m, mid)
  {
    hide WithChandelier, ShouldEmit, Step;
    StepOfOne(cfg, throttle, rt, m);
  }

  /** After its stop is out, every tick whose mid is known and at or below it closes the position. */
  lemma StopIsHonoured(cfg: Strategy, throttle: real, inputs: seq<Input>, k: nat, call: bool)
    requires cfg.Directional? && k < |inputs|
    requires forall i :: 0 <= i < |inputs| ==> IsCall(inputs[i].position) == call
    requires |LifeAfter(cfg, throttle, inputs, k).emitted| > 0
    requires var i := inputs[k];
             && i.position.entryPremium.Some? && SeenMid(i.position, i.market).Some?
             && SeenMid(i.position, i.market).value <= LifeAfter(cfg, throttle, inputs, k).emitted[0].stop
    ensures Closes(StepAt(cfg, throttle, LifeAfter(cfg, throttle, inputs, k).rt, inputs[k]))
  {
    hide LifeAfter, Step;
    OneStopEver(cfg, throttle, inputs, k, call);
    ClosesWhen(cfg, throttle, LifeAfter(cfg, throttle, inputs, k).rt.(position := inputs[k].position),
               inputs[k].market);
  }

  /** A new runtime ignores the stop persisted with its position: the refresh overwrites it with the
      runtime's own, which is none. So after a restart a quote, outside the forced-close window and without
      a greek breach or an adverse underlying, leaves the position open exactly when it lies between
      the premium stop and the target, at or below the persisted stop or not. */
  lemma PersistedStopIsForgotten(cfg: Strategy, throttle: real, p: Position, m: Market, stop: Option<real>)
    requires cfg.Directional? && p.entryPremium.Some? && SeenMid(p, m).Some?
    requires p.expiry - m.now > cfg.forceHours * 3600.0 && m.greekExit.None?
    requires !UnderlyingStopHit(cfg, p, m, SeenMid(p, m).value)
    ensures Step(cfg, throttle, NewRuntime(p), m) == Step(cfg, throttle, NewRuntime(p.(trailStop := stop)), m)
    ensures var mid, entry := SeenMid(p, m).value, p.entryPremium.value;
            !Closes(Step(cfg, throttle, NewRuntime(p), m)) <==>
              (1.0 - cfg.drawdown) * entry < mid < (1.0 + cfg.targetR) * entry
  {
    hide Step, UnderlyingStopHit;
    ClosesWhen(cfg, throttle, NewRuntime(p), m);
    SameStep(cfg, throttle, p, m, stop);
  }

  lemma SameStep(cfg: Strategy, throttle: real, p: Position, m: Market, stop: Option<real>)
    requires cfg.Directional?
    ensures Step(cfg, throttle, NewRuntime(p), m) == Step(cfg, throttle, NewRuntime(p.(trailStop := stop)), m)
  {
    hide Step, RefreshDirectional, ManageDirectional, TranslateOne;
    SameRefresh(NewRuntime(p).(ticks := 1), stop, m);
    StepOfOne(cfg, throttle, NewRuntime(p), m);
    StepOfOne(cfg, throttle, NewRuntime(p.(trailStop := stop)), m);
  }

  lemma SameRefresh(rt: Runtime, stop: Option<real>, m: Market)
    ensures RefreshDirectional(rt, m) == RefreshDirectional(rt.(position := rt.position.(trailStop := stop)), m)
  {
    SameFigures(rt.position, stop, m);
    hide Pnl, SeenMid;
  }

  lemma SameFigures(p: Position, stop: Option<real>, m: Market)
    ensures Pnl(p, m) == Pnl(p.(trailStop := stop), m) && SeenMid(p, m) == SeenMid(p.(trailStop := stop), m)
  {
    hide Gain;
  }

  // ------------------------------------------------------------------ the chandelier

  lemma NoStops(now: real)
    ensures Stops([], now) == []
  {
  }

  lemma StopsOfOne(d: Directive, now: real)
    ensures Stops([d], now) == if d.UpdateStop? then [Emission(now, d.stop)] else []
  {
    assert [d][..0] == [];
  }

  /** The stop a directional call gets: the entry premium, or the chandelier measured on the
      underlying if that is higher. */
  lemma CallStop(cfg: Strategy, throttle: real, rt: Runtime, m: Market, e: Emission)
    requires cfg.Directional? && IsCall(rt.position) && rt.position.entryPremium.Some?
    requires Stops(Step(cfg, throttle, rt, m).directives, m.now) == [e]
    ensures var r := Step(cfg, throttle, rt, m).rt;
            r.lastStop == Some(e.stop)
            && e.stop == if r.peakUnderlying.Some? && rt.position.entryAtr.Some?
                         then Max(rt.position.entryPremium.value,
                                  r.peakUnderlying.value - cfg.chandelier * rt.position.entryAtr.value)
                         else rt.position.entryPremium.value
  {
    hide UnderlyingStopHit, ShouldEmit, Step, Stops;
    StepOfOne(cfg, throttle, rt, m);
    var o := Step(cfg, throttle, rt, m);
    if |o.directives| == 0 {
      NoStops(m.now);
    } else {
      StopsOfOne(o.directives[0], m.now);
      assert o.directives == [o.directives[0]];
    }
  }

  /** The stop a directional put gets: the entry premium, or the chandelier above the lowest underlying if that
      is lower. */
  lemma PutStop(cfg: Strategy, throttle: real, rt: Runtime, m: Market, e: Emission)
    requires cfg.Directional? && |rt.position.legs| > 0 && !IsCall(rt.position) && rt.position.entryPremium.Some?
    requires Stops(Step(cfg, throttle, rt, m).directives, m.now) == [e]
    ensures var r, p := Step(cfg, throttle, rt, m).rt, rt.position;
            && r.lastStop == Some(e.stop)
            && (r.peakUnderlying.None? || p.entryAtr.None? ==> e.stop == p.entryPremium.value)
            && (r.peakUnderlying.Some? && p.entryAtr.Some? ==>
                  var low := if OrZero(r.troughUnderlying) != 0.0 then OrZero(r.troughUnderlying)
                    else r.peakUnderlying.value;
                  e.stop == Min(p.entryPremium.value, low + cfg.chandelier * p.entryAtr.value))
  {
    hide UnderlyingStopHit, ShouldEmit, Step, Stops;
    StepOfOne(cfg, throttle, rt, m);
    var o := Step(cfg, throttle, rt, m);
    if |o.directives| == 0 {
      NoStops(m.now);
    } else {
      StopsOfOne(o.directives[0], m.now);
      assert o.directives == [o.directives[0]];
    }
  }

  lemma Scaled(entry: real, d: real)
    requires entry > 0.0 && d > 0.0
    ensures (1.0 - d) * entry < entry < (1.0 + d) * entry
  {
    assert d * entry > 0.0;
  }

  ghost predicate Survives(cfg: Strategy, throttle: real, rt: Runtime, m: Market) {
    && SeenMid(rt.position, m).Some?
    && !Closes(Step(cfg, throttle, rt, m))
  }

  /** Once a call holds a stop at or above its entry, it can survive a tick with a known mid exactly when
      that stop lies below the target. */
  lemma SurvivalIff(cfg: Strategy, throttle: real, rt: Runtime)
    requires cfg.Directional? && cfg.targetR > 0.0 && 0.0 < cfg.drawdown < 1.0
    requires IsCall(rt.position) && rt.position.entryPremium.Some? && rt.position.entryPremium.value > 0.0
    requires rt.lastStop.Some? && rt.lastStop.value >= rt.position.entryPremium.value
    ensures (exists m :: Survives(cfg, throttle, rt, m)) <==>
            rt.lastStop.value < (1.0 + cfg.targetR) * rt.position.entryPremium.value
  {
    hide Step;
    var p, entry, stop := rt.position, rt.position.entryPremium.value, rt.lastStop.value;
    Scaled(entry, cfg.targetR);
    Scaled(entry, cfg.drawdown);
    var target := (1.0 + cfg.targetR) * entry;
    if stop < target {
      var mid := (stop + target) / 2.0;
      var m := Market(p.expiry - cfg.forceHours * 3600.0 - 1.0, map[p.legs[0].symbol := mid], None, None, 0);
      ClosesWhen(cfg, throttle, rt, m);
      assert Survives(cfg, throttle, rt, m);
    }
    forall m | Survives(cfg, throttle, rt, m) ensures stop < target {
      ClosesWhen(cfg, throttle, rt, m);
    }
  }

  /** The chandelier is measured in units of the underlying, the target in option premium. After a step
      that gave a call its stop, the call can outlive another quote exactly when the chandelier stayed
      below the target; otherwise it closes on its next quote, whatever that quote is. */
  lemma ChandelierForcesClose(cfg: Strategy, throttle: real, rt: Runtime, m: Market, e: Emission)
    requires cfg.Directional? && cfg.targetR > 0.0 && 0.0 < cfg.drawdown < 1.0
    requires IsCall(rt.position) && rt.position.entryPremium.Some? && rt.position.entryPremium.value > 0.0
    requires Stops(Step(cfg, throttle, rt, m).directives, m.now) == [e]
    ensures var p, r := rt.position, Step(cfg, throttle, rt, m).rt;
            (exists n :: Survives(cfg, throttle, r.(position := p), n)) <==>
            (p.entryAtr.Some? && r.peakUnderlying.Some? ==>
               r.peakUnderlying.value - cfg.chandelier * p.entryAtr.value < (1.0 + cfg.targetR) * p.entryPremium.value)
  {
    hide Step, Stops, Survives;
    CallStop(cfg, throttle, rt, m, e);
    Scaled(rt.position.entryPremium.value, cfg.targetR);
    SurvivalIff(cfg, throttle, Step(cfg, throttle, rt, m).rt.(position := rt.position));
  }

  const TREND := Directional(2.0, 0.5, 1.0, 1.0, 2.0, 2.0)
  const BITCOIN_CALL := Position(100000.0, 1, Some(100.0), None, Some(60000.0), Some(500.0), None, None,
                                 [LegState("C", true, None, None)], None, None)
  const DOUBLED := Market(0.0, map["C" := 200.0], Some(60000.0), None, 5)

  /** An ordinary call hits it: bought at 100 with the underlying at 60000 and an ATR of 500, it doubles,
      and its break-even stop comes out at 59000. No quote, however high, leaves it open. */
  lemma ChandelierExample(throttle: real)
    ensures var o := Step(TREND, throttle, NewRuntime(BITCOIN_CALL), DOUBLED);
            && o.directives == [UpdateStop(59000.0)]
            && forall n :: !Survives(TREND, throttle, o.rt.(position := BITCOIN_CALL), n)
  {
    var rt := NewRuntime(BITCOIN_CALL);
    StepOfOne(TREND, throttle, rt, DOUBLED);
    var o := Step(TREND, throttle, rt, DOUBLED);
    var seen := RefreshDirectional(rt.(ticks := 1), DOUBLED);
    assert seen.position.legs[0].mid == Some(200.0) && seen.peakPnl == 100.0 && seen.peakUnderlying == Some(60000.0);
    assert ManageDirectional(TREND, seen.position, DOUBLED) == [TrailStop(Some(100.0))];
    assert o.directives == [UpdateStop(59000.0)];
    StopsOfOne(UpdateStop(59000.0), 0.0);
    ChandelierForcesClose(TREND, throttle, rt, DOUBLED, Emission(0.0, 59000.0));
  }

  /** Why a directional step closes: the forced close first, then a greek breach, the target, the premium stop,
      the trailing stop and the underlying stop, in this order. */
  lemma ClosesAs(cfg: Strategy, throttle: real, rt: Runtime, m: Market)
    requires cfg.Directional? && rt.position.entryPremium.Some? && SeenMid(rt.position, m).Some?
    ensures var p, mid, entry := rt.position, SeenMid(rt.position, m).value, rt.position.entryPremium.value;
            var o := Step(cfg, throttle, rt, m);
            var forced := p.expiry - m.now <= cfg.forceHours * 3600.0;
            var breached := !forced && m.greekExit.Some?;
            var won := !forced && !breached && mid >= entry + cfg.targetR * entry;
            var lost := !forced && !breached && !won && mid <= entry - cfg.drawdown * entry;
            var stopped := !forced && !breached && !won && !lost && rt.lastStop.Some? && mid <= rt.lastStop.value;
            && (forced ==> o.directives == [CloseNow(ForceClose)])
            && (breached ==> o.directives == [CloseNow(m.greekExit.value)])
            && (won ==> o.directives == [CloseNow(Target)])
            && (lost ==> o.directives == [CloseNow(PremiumStop)])
            && (stopped ==> o.directives == [CloseNow(TrailBreakeven)])
            && (!forced && !breached && !won && !lost && !stopped && UnderlyingStopHit(cfg, p, m, mid) ==>
                  o.directives == [CloseNow(UnderlyingStop)])
  {
    hide WithChandelier, ShouldEmit, Step, UnderlyingStopHit;
    StepOfOne(cfg, throttle, rt, m);
    Spread(rt.position.entryPremium.value, cfg.targetR);
    Spread(rt.position.entryPremium.value, cfg.drawdown);
    SameUnderlyingStop(cfg, rt, m);
  }

  lemma SameUnderlyingStop(cfg: Strategy, rt: Runtime, m: Market)
    requires cfg.Directional? && rt.position.entryPremium.Some? && SeenMid(rt.position, m).Some?
    ensures var seen := RefreshDirectional(rt.(ticks := rt.ticks + 1), m).position;
            |seen.legs| > 0 && seen.entryPremium == rt.position.entryPremium
            && forall mid :: UnderlyingStopHit(cfg, seen, m, mid) == UnderlyingStopHit(cfg, rt.position, m, mid)
  {
  }

  /** The underlying stop: the option is not in profit and the underlying has moved against it, down for a
      call and up for a put, by at least the multiple of the ATR at entry. */
  lemma UnderlyingStopMeans(cfg: Strategy, p: Position, m: Market, mid: real)
    requires cfg.Directional? && p.entryPremium.Some? && |p.legs| > 0
    requires p.entryUnderlying.Some? && p.entryAtr.Some? && m.spot.Some?
    ensures var limit := cfg.atrStop * p.entryAtr.value;
            UnderlyingStopHit(cfg, p, m, mid) <==>
              && mid <= p.entryPremium.value
              && (p.legs[0].call ==> m.spot.value <= p.entryUnderlying.value - limit)
              && (!p.legs[0].call ==> m.spot.value >= p.entryUnderlying.value + limit)
  {
  }

  /** The best PnL a step goes by: the runtime's, updated with the quote; without a quote of this tick, the
      one that came with the position. */
  function BestPnl(rt: Runtime, m: Market): Option<real> {
    if Pnl(rt.position, m).Some? then Some(Max(rt.peakPnl, Pnl(rt.position, m).value)) else rt.position.peakPnl
  }

  /** When the break-even stop goes out: nothing closes the position, it holds no stop yet, and its best PnL so
      far has reached the multiple of what was paid for it. */
  lemma StopGoesOutWhen(cfg: Strategy, throttle: real, rt: Runtime, m: Market)
    requires cfg.Directional? && rt.position.entryPremium.Some? && SeenMid(rt.position, m).Some?
    ensures var o, best := Step(cfg, throttle, rt, m), BestPnl(rt, m);
            var paid := rt.position.entryPremium.value * MaxInt(rt.position.lots, 1) as real;
            (|o.directives| == 1 && o.directives[0].UpdateStop?) <==>
              !Closes(o) && rt.lastStop.None? && best.Some? && best.value >= cfg.breakevenAtR * paid
  {
    hide WithChandelier, Step, UnderlyingStopHit, Gain;
    StepOfOne(cfg, throttle, rt, m);
  }

  // ------------------------------------------------------------------ straddles

  /** The total premium a straddle step sees: the sum of the quotes, or what the position brought along. */
  function SeenTotal(p: Position, m: Market): Option<real> {
    if AllQuoted(p.legs, m) then Some(SumMids(p.legs, m)) else p.totalPremium
  }

  /** When a straddle closes, and why: in the force window; otherwise, with a known entry premium and a
      positive total, at or above the entry plus the gain as a target, at or below the entry less the loss
      as a stop. It never closes on a missing, zero or negative total. */
  lemma StraddleClosesWhen(cfg: Strategy, throttle: real, rt: Runtime, m: Market)
    requires cfg.LongStraddle?
    ensures var p, total, o := rt.position, SeenTotal(rt.position, m), Step(cfg, throttle, rt, m);
            var forced := p.expiry - m.now <= cfg.forceHours * 3600.0;
            var priced := !forced && p.entryPremium.Some? && total.Some? && total.value > 0.0;
            var won := priced && total.value >= p.entryPremium.value + cfg.gain * p.entryPremium.value;
            var lost := priced && !won && total.value <= p.entryPremium.value - cfg.loss * p.entryPremium.value;
            && (o.directives == [CloseNow(ForceClose)] <==> forced)
            && (o.directives == [CloseNow(Target)] <==> won)
            && (o.directives == [CloseNow(PremiumStop)] <==> lost)
            && (o.directives == [Nothing] <==> !forced && !won && !lost)
  {
    hide SumMids, Translate, TranslateOne;
    var seen := Refresh(cfg, rt.(ticks := rt.ticks + 1), m);
    if rt.position.entryPremium.Some? {
      Spread(rt.position.entryPremium.value, cfg.gain);
      Spread(rt.position.entryPremium.value, cfg.loss);
    }
    OneAction(cfg, seen.position, m);
    DirectiveOf(cfg, throttle, seen, m.now, Manage(cfg, seen.position, m));
  }

  /** A close with a reason and a no-op pass through. */
  lemma DirectiveOf(cfg: Strategy, throttle: real, rt: Runtime, now: real, actions: seq<Action>)
    requires |actions| == 1
    ensures actions[0].Close? && actions[0].reason.Some? ==>
              Translate(cfg, throttle, rt, now, actions).directives == [CloseNow(actions[0].reason.value)]
    ensures actions[0].NoOp? ==> Translate(cfg, throttle, rt, now, actions).directives == [Nothing]
  {
    hide Translate;
    SingleAction(cfg, throttle, rt, now, actions);
  }

  lemma Spread(entry: real, d: real)
    ensures (1.0 + d) * entry == entry + d * entry && (1.0 - d) * entry == entry - d * entry
  {
  }

  // ------------------------------------------------------------------ credit verticals

  /** When a spread closes, and why: in the force window; otherwise, with a known credit, as a target if the
      credit less the cost of closing is at least the wanted part of it, as a stop if that cost is at least
      the multiple of the credit. A cost that is not known counts as nothing. */
  lemma SpreadClosesWhen(cfg: Strategy, throttle: real, rt: Runtime, m: Market)
    requires cfg.CreditVertical?
    ensures var p, o := rt.position, Step(cfg, throttle, rt, m);
            var cost := if AllQuoted(p.legs, m) then SumCost(p.legs, m) else OrZero(p.unwindCost);
            var forced := m.daysToExpiry <= cfg.forceDays;
            var won := !forced && p.entryCredit.Some?
              && cost <= p.entryCredit.value - cfg.takeProfit * p.entryCredit.value;
            var lost := !forced && !won && p.entryCredit.Some? && cost >= cfg.stopLoss * p.entryCredit.value;
            && (o.directives == [CloseNow(ForceClose)] <==> forced)
            && (o.directives == [CloseNow(Target)] <==> won)
            && (o.directives == [CloseNow(PremiumStop)] <==> lost)
            && (o.directives == [Nothing] <==> !forced && !won && !lost)
  {
    hide SumCost, Translate, TranslateOne;
    var seen := Refresh(cfg, rt.(ticks := rt.ticks + 1), m);
    OneAction(cfg, seen.position, m);
    DirectiveOf(cfg, throttle, seen, m.now, Manage(cfg, seen.position, m));
  }

  /** The position as the engine rebuilds it from the trade: the legs' sides are not copied and no
      unwind cost is stored. */
  ghost predicate EngineBuilt(p: Position) {
    p.unwindCost.None? && forall i :: 0 <= i < |p.legs| ==> p.legs[i].side.None?
  }

  /** What closing really costs when leg `i` was opened on `sides[i]`. */
  function TrueCost(legs: seq<LegState>, sides: seq<Side>, m: Market): real
    requires AllQuoted(legs, m) && |sides| == |legs|
  {
    if |legs| == 0 then 0.0
    else
      var n := |legs| - 1;
      TrueCost(legs[..n], sides[..n], m) + Signed(Flip(sides[n]), m.mids[legs[n].symbol])
  }

  /** The mids of the legs that were sold. */
  function SoldMids(legs: seq<LegState>, sides: seq<Side>, m: Market): real
    requires AllQuoted(legs, m) && |sides| == |legs|
  {
    if |legs| == 0 then 0.0
    else
      var n := |legs| - 1;
      SoldMids(legs[..n], sides[..n], m) + if sides[n] == Sell then m.mids[legs[n].symbol] else 0.0
  }

  /** For the two legs of a vertical that is the sold mid less the bought one. */
  lemma TwoLegCost(legs: seq<LegState>, sides: seq<Side>, m: Market)
    requires |legs| == |sides| == 2 && AllQuoted(legs, m)
    ensures var a, b := m.mids[legs[0].symbol], m.mids[legs[1].symbol];
            && (sides == [Buy, Sell] ==> TrueCost(legs, sides, m) == b - a)
            && (sides == [Sell, Buy] ==> TrueCost(legs, sides, m) == a - b)
            && SumMids(legs, m) == a + b
  {
    assert legs[..1][..0] == [] && sides[..1][..0] == [];
    assert SumMids(legs[..1][..0], m) == 0.0 && TrueCost(legs[..1][..0], sides[..1][..0], m) == 0.0;
    assert legs[..1][0] == legs[0] && sides[..1][0] == sides[0];
    assert SumMids(legs[..1], m) == m.mids[legs[0].symbol];
  }

  /** Without sides every leg counts as bought: the computed cost misses the sold legs twice over, so
      it is the true one exactly when those are worth nothing. */
  lemma {:induction false} UnwindCostIff(legs: seq<LegState>, sides: seq<Side>, m: Market)
    requires AllQuoted(legs, m) && |sides| == |legs|
    requires forall i :: 0 <= i < |legs| ==> legs[i].side.None?
    ensures SumCost(legs, m) == TrueCost(legs, sides, m) - 2.0 * SoldMids(legs, sides, m)
    ensures SumCost(legs, m) == TrueCost(legs, sides, m) <==> SoldMids(legs, sides, m) == 0.0
  {
    if |legs| > 0 {
      var n := |legs| - 1;
      UnwindCostIff(legs[..n], sides[..n], m);
    }
  }

  /** With the sides in place the cost is the true one. */
  lemma {:induction false} SidedCostIsTrue(legs: seq<LegState>, sides: seq<Side>, m: Market)
    requires AllQuoted(legs, m) && |sides| == |legs|
    requires forall i :: 0 <= i < |legs| ==> legs[i].side == Some(sides[i])
    ensures SumCost(legs, m) == TrueCost(legs, sides, m)
  {
    if |legs| > 0 {
      var n := |legs| - 1;
      SidedCostIsTrue(legs[..n], sides[..n], m);
    }
  }

  lemma {:induction false} UnsidedCostIsNegative(legs: seq<LegState>, m: Market)
    requires AllQuoted(legs, m)
    requires forall i :: 0 <= i < |legs| ==> legs[i].side.None? && m.mids[legs[i].symbol] >= 0.0
    ensures SumCost(legs, m) <= 0.0
  {
    if |legs| > 0 {
      UnsidedCostIsNegative(legs[..|legs| - 1], m);
    }
  }

  /** Hence a spread held by the engine is closed on its first tick, whatever the market: as a forced
      close near expiry, otherwise as a target reached; its stop loss can never fire. */
  lemma SpreadClosesAtOnce(cfg: Strategy, throttle: real, rt: Runtime, m: Market)
    requires cfg.CreditVertical? && 0.0 < cfg.takeProfit < 1.0
    requires EngineBuilt(rt.position) && rt.position.entryCredit.Some? && rt.position.entryCredit.value > 0.0
    requires forall s :: s in m.mids ==> m.mids[s] >= 0.0
    ensures Step(cfg, throttle, rt, m).directives
            == [CloseNow(if m.daysToExpiry <= cfg.forceDays then ForceClose else Target)]
  {
    hide SumCost;
    var seen := Refresh(cfg, rt.(ticks := rt.ticks + 1), m);
    if AllQuoted(rt.position.legs, m) {
      UnsidedCostIsNegative(rt.position.legs, m);
    }
    MulMono(cfg.takeProfit, 1.0, rt.position.entryCredit.value);
    var reason := if m.daysToExpiry <= cfg.forceDays then ForceClose else Target;
    assert Manage(cfg, seen.position, m) == [Close(Some(reason))];
    hide Manage, Refresh;
    SingleAction(cfg, throttle, seen, m.now, [Close(Some(reason))]);
  }
}
