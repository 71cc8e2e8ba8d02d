/** When the gate approves and how much, in terms of NAV, anchors and limits (bot/risk/manager.py,
    bot/risk/caps.py, bot/desk/greek_sizing.py). */
module RiskGate {
  import opened Common
  import opened Risk

  // ------------------------------------------------------------------ caps without divisions

  /** NAV has lost at least the fraction `part` of a positive anchor. */
  predicate LostPart(now: real, anchor: real, part: real) {
    anchor > 0.0 && now <= anchor - part * anchor
  }

  lemma ChangeIff(now: real, anchor: real, part: real)
    requires part > 0.0
    ensures Change(now, anchor) <= -part <==> LostPart(now, anchor, part)
  {
    if anchor > 0.0 {
      var q := (now - anchor) / anchor;
      assert q * anchor == now - anchor;
      LeScale(q, -part, anchor);
      assert -part * anchor == -(part * anchor);
    }
  }

  /** The verdict of the caps: the breaker before the week before the day, each exactly when its part of its
      anchor is lost. Evaluating them raises exactly for a NAV of zero that never had a positive peak. */
  lemma CapsMean(caps: Caps, nav: Nav)
    requires caps.Valid()
    ensures var raises := nav.peak <= 0.0 && nav.now == 0.0;
            var broken := nav.tripped || LostPart(nav.now, nav.peak, caps.lifetime);
            var week := LostPart(nav.now, nav.openWeek, caps.weekly);
            var day := LostPart(nav.now, nav.openToday, caps.daily);
            && (EvaluateCaps(caps, nav) == None <==> raises)
            && (EvaluateCaps(caps, nav) == Some(CircuitBreaker) <==> !raises && broken)
            && (EvaluateCaps(caps, nav) == Some(WeeklyTripped) <==> !raises && !broken && week)
            && (EvaluateCaps(caps, nav) == Some(DailyTripped) <==> !raises && !broken && !week && day)
            && (EvaluateCaps(caps, nav) == Some(CapOk) <==> !raises && !broken && !week && !day)
  {
    ChangeIff(nav.now, nav.openWeek, caps.weekly);
    ChangeIff(nav.now, nav.openToday, caps.daily);
    if nav.peak > 0.0 {
      BreakerIff(caps, nav);
    }
    hide Change;
  }

  // ------------------------------------------------------------------ sizes that fit

  /** A greek limit leaves one lot always, and more only within it. */
  predicate WithinGreek(n: int, limit: Option<real>, perLot: real) {
    limit.Some? && limit.value > 0.0 && perLot > 0.0 ==> n == 1 || n as real * perLot <= limit.value
  }

  predicate WithinDesk(cfg: Config, desk: Desk, n: int) {
    cfg.deskEnabled ==> WithinGreek(n, cfg.maxVega, desk.vegaPerLot) && WithinGreek(n, cfg.maxGamma, desk.gammaPerLot)
  }

  /** The rupees one lot puts at risk: the declared maximum loss of a spread, the premium of a long position. A
      missing or non-positive figure is none. */
  function AtRisk(i: Intent): Option<real> {
    var figure := match i.strategy
      case CreditVertical => i.targetMaxLoss
      case Directional => i.targetPremium
      case LongStraddle => i.targetPremium;
    if figure.Some? && figure.value > 0.0 then figure else None
  }

  /** `n` lots are requested, allowed, affordable within the share of NAV and the premium cap, and within the
      desk's greek limits. */
  predicate Fits(cfg: Config, s: StrategyCfg, nav: real, i: Intent, desk: Desk, usdInr: real, n: int) {
    && 1 <= n <= i.requestedLots && n <= s.maxLots
    && AtRisk(i).Some?
    && n as real * AtRisk(i).value <= nav * Share(s)
    && (s.premiumCapUsd.Some? ==> n as real * AtRisk(i).value <= s.premiumCapUsd.value * usdInr)
    && WithinDesk(cfg, desk, n)
  }

  lemma FloorIff(x: real, p: real, n: int)
    requires p > 0.0
    ensures n as real * p <= x <==> n <= (x / p).Floor
  {
    var q := x / p;
    assert q * p == x;
    LeScale(n as real, q, p);
  }

  lemma GreekCapIsLargest(lots: int, limit: Option<real>, perLot: real, n: int)
    requires lots >= 1
    ensures var c := CapByGreek(lots, limit, perLot);
            && 1 <= c <= lots && WithinGreek(c, limit, perLot)
            && (1 <= n <= lots && WithinGreek(n, limit, perLot) ==> n <= c)
  {
    if limit.Some? && limit.value > 0.0 && perLot > 0.0 {
      FloorIff(limit.value, perLot, n);
      FloorIff(limit.value, perLot, CapByGreek(lots, limit, perLot));
    }
  }

  /** Lowering a size keeps it within a greek limit. */
  lemma SmallerStaysWithin(n: int, c: int, limit: Option<real>, perLot: real)
    requires 1 <= n <= c && WithinGreek(c, limit, perLot)
    ensures WithinGreek(n, limit, perLot)
  {
    if perLot > 0.0 {
      MulMono(n as real, c as real, perLot);
    }
  }

  lemma CapLotsIsLargest(cfg: Config, lots: int, desk: Desk, n: int)
    requires lots >= 1
    ensures var c := CapLots(cfg, lots, desk);
            && 1 <= c <= lots
            && WithinDesk(cfg, desk, c)
            && (1 <= n <= lots && WithinDesk(cfg, desk, n) ==> n <= c)
  {
    hide CapByGreek, WithinGreek;
    if cfg.deskEnabled {
      var v := CapByGreek(lots, cfg.maxVega, desk.vegaPerLot);
      GreekCapIsLargest(lots, cfg.maxVega, desk.vegaPerLot, n);
      GreekCapIsLargest(v, cfg.maxGamma, desk.gammaPerLot, n);
      SmallerStaysWithin(CapByGreek(v, cfg.maxGamma, desk.gammaPerLot), v, cfg.maxVega, desk.vegaPerLot);
    }
  }

  lemma BudgetIff(s: StrategyCfg, nav: real, usdInr: real, x: real)
    ensures x <= Budget(s, nav, usdInr) <==>
            x <= nav * Share(s)
              && (s.premiumCapUsd.Some? ==> x <= s.premiumCapUsd.value * usdInr)
  {
    assert nav * s.riskWeight * s.riskPerTrade == nav * (s.riskWeight * s.riskPerTrade);
  }

  /** Sizing approves exactly when one lot fits, and then for the largest size that does. A refusal sizes nothing:
      it is "zero lots" for a priced directional intent and "over budget" otherwise. */
  lemma SizedIsLargest(cfg: Config, s: StrategyCfg, nav: real, i: Intent, desk: Desk, usdInr: real, n: int)
    ensures var z := SizeIntent(cfg, s, nav, i, desk, usdInr);
            && (z.decision == Approved <==> Fits(cfg, s, nav, i, desk, usdInr, 1))
            && (z.decision == Approved ==>
                  && Fits(cfg, s, nav, i, desk, usdInr, z.lots)
                  && (Fits(cfg, s, nav, i, desk, usdInr, n) ==> n <= z.lots)
                  && z.risk == z.lots as real * AtRisk(i).value)
            && (z.decision != Approved ==>
                  z == Sizing(if i.strategy == Directional && AtRisk(i).Some? then ZeroLots
                              else BudgetExceeded, 0, 0.0))
  {
    hide Budget, CapLots, Share, WithinGreek;
    var perLot := PerLotRisk(i);
    OneIsWithin(cfg.maxVega, desk.vegaPerLot);
    OneIsWithin(cfg.maxGamma, desk.gammaPerLot);
    if perLot.Some? && perLot.value > 0.0 {
      var p, b := perLot.value, Budget(s, nav, usdInr);
      var sized := MinInt((b / p).Floor, MinInt(i.requestedLots, s.maxLots));
      AffordableIff(s, nav, usdInr, p, b, 1);
      AffordableIff(s, nav, usdInr, p, b, n);
      if sized >= 1 {
        CapLotsIsLargest(cfg, sized, desk, n);
        AffordableIff(s, nav, usdInr, p, b, CapLots(cfg, sized, desk));
      }
    }
  }

  lemma OneIsWithin(limit: Option<real>, perLot: real)
    ensures WithinGreek(1, limit, perLot)
  {
  }

  lemma AffordableIff(s: StrategyCfg, nav: real, usdInr: real, p: real, b: real, n: int)
    requires p > 0.0 && b == Budget(s, nav, usdInr)
    ensures n <= (b / p).Floor <==>
            n as real * p <= nav * Share(s)
              && (s.premiumCapUsd.Some? ==> n as real * p <= s.premiumCapUsd.value * usdInr)
  {
    hide Budget, Share;
    FloorIff(b, p, n);
    BudgetIff(s, nav, usdInr, n as real * p);
  }

  // ------------------------------------------------------------------ the gate

  /** Nothing but the size stands in the way of the intent. */
  predicate Admitted(cfg: Config, nav: Nav, acc: Accounting, i: Intent, windowOpen: bool, desk: Desk) {
    && windowOpen
    && !(nav.peak <= 0.0 && nav.now == 0.0)
    && !nav.tripped && !LostPart(nav.now, nav.peak, cfg.caps.lifetime)
    && !LostPart(nav.now, nav.openWeek, cfg.caps.weekly) && !LostPart(nav.now, nav.openToday, cfg.caps.daily)
    && i.strategy in cfg.strategies && cfg.strategies[i.strategy].enabled
    && (cfg.requireLive ==> cfg.strategies[i.strategy].enabledLive)
    && acc.total < cfg.maxTotal
    && (i.strategy in acc.byStrategy ==> acc.byStrategy[i.strategy] < cfg.maxPerStrategy)
    && (i.strategy !in acc.byStrategy ==> 0 < cfg.maxPerStrategy)
    && !(cfg.deskEnabled && desk.reject)
  }

  /** The gate approves exactly an admitted intent of which one lot fits, for the largest size that fits. */
  lemma ApprovedIff(cfg: Config, nav: Nav, acc: Accounting, i: Intent, windowOpen: bool, desk: Desk, usdInr: real,
                    n: int)
    requires cfg.caps.Valid()
    ensures var z := Gate(cfg, nav, acc, i, windowOpen, desk, usdInr);
            && (z.Some? && z.value.decision == Approved <==>
                  && Admitted(cfg, nav, acc, i, windowOpen, desk)
                  && Fits(cfg, cfg.strategies[i.strategy], nav.now, i, desk, usdInr, 1))
            && (z.Some? && z.value.decision == Approved ==>
                  && Fits(cfg, cfg.strategies[i.strategy], nav.now, i, desk, usdInr, z.value.lots)
                  && (Fits(cfg, cfg.strategies[i.strategy], nav.now, i, desk, usdInr, n) ==> n <= z.value.lots)
                  && z.value.risk == z.value.lots as real * AtRisk(i).value)
  {
    hide EvaluateCaps, LostPart, SizeIntent, Fits;
    CapsMean(cfg.caps, nav);
    if i.strategy in cfg.strategies {
      SizedIsLargest(cfg, cfg.strategies[i.strategy], nav.now, i, desk, usdInr, n);
    }
  }

  /** Refusals come in order: the window, the breaker, the week, the day, the strategy's switches, the two
      concurrency limits and the desk. Evaluating the caps raises exactly for a NAV of zero without a peak. */
  lemma RefusedFor(cfg: Config, nav: Nav, acc: Accounting, i: Intent, windowOpen: bool, desk: Desk, usdInr: real)
    requires cfg.caps.Valid()
    ensures var z := Gate(cfg, nav, acc, i, windowOpen, desk, usdInr);
            var raises := nav.peak <= 0.0 && nav.now == 0.0;
            var broken := nav.tripped || LostPart(nav.now, nav.peak, cfg.caps.lifetime);
            var week := LostPart(nav.now, nav.openWeek, cfg.caps.weekly);
            var day := LostPart(nav.now, nav.openToday, cfg.caps.daily);
            var clear := windowOpen && !raises && !broken && !week && !day;
            var on := i.strategy in cfg.strategies && cfg.strategies[i.strategy].enabled;
            var live := on && (cfg.requireLive ==> cfg.strategies[i.strategy].enabledLive);
            var room := acc.total < cfg.maxTotal;
            var own := (if i.strategy in acc.byStrategy then acc.byStrategy[i.strategy] else 0) < cfg.maxPerStrategy;
            && (!windowOpen ==> z == Some(Sizing(OutsideTradingWindow, 0, 0.0)))
            && (z == None <==> windowOpen && raises)
            && (windowOpen && !raises && broken ==> z == Some(Sizing(BreakerTripped, 0, 0.0)))
            && (windowOpen && !raises && !broken && week ==> z == Some(Sizing(WeeklyCap, 0, 0.0)))
            && (windowOpen && !raises && !broken && !week && day ==> z == Some(Sizing(DailyCap, 0, 0.0)))
            && (clear && !on ==> z == Some(Sizing(StrategyDisabled, 0, 0.0)))
            && (clear && on && !live ==> z == Some(Sizing(StrategyNotLive, 0, 0.0)))
            && (clear && live && !room ==> z == Some(Sizing(GlobalMaxConcurrent, 0, 0.0)))
            && (clear && live && room && !own ==> z == Some(Sizing(StrategyMaxConcurrent, 0, 0.0)))
            && (clear && live && room && own && cfg.deskEnabled && desk.reject ==>
                z == Some(Sizing(DeskRejected, 0, 0.0)))
  {
    hide EvaluateCaps, LostPart, SizeIntent;
    CapsMean(cfg.caps, nav);
  }
}
