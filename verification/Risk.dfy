/** Loss caps, concurrency limits and position sizing (bot/risk/caps.py, bot/risk/manager.py,
    bot/desk/greek_sizing.py). */
module Risk {
  import opened Common

  datatype StrategyId = Directional | CreditVertical | LongStraddle

  datatype Underlying = BTC | ETH

  // ------------------------------------------------------------------ caps

  /** Loss fractions; the configuration keeps each strictly between 0 and 1. */
  datatype Caps = Caps(daily: real, weekly: real, lifetime: real) {
    predicate Valid() {
      0.0 < daily < 1.0 && 0.0 < weekly < 1.0 && 0.0 < lifetime < 1.0
    }
  }

  datatype Nav = Nav(now: real, openToday: real, openWeek: real, peak: real, tripped: bool)

  datatype CapStatus = CapOk | DailyTripped | WeeklyTripped | CircuitBreaker

  function Change(now: real, open: real): real {
    if open > 0.0 then (now - open) / open else 0.0
  }

  /** None stands for the ZeroDivisionError of a NAV of zero that never had a peak. */
  function EvaluateCaps(caps: Caps, nav: Nav): Option<CapStatus> {
    var peak := if nav.peak <= 0.0 then nav.now else nav.peak;
    if peak == 0.0 then None
    else if nav.tripped || (nav.now - peak) / peak <= -caps.lifetime then Some(CircuitBreaker)
    else if Change(nav.now, nav.openWeek) <= -caps.weekly then Some(WeeklyTripped)
    else if Change(nav.now, nav.openToday) <= -caps.daily then Some(DailyTripped)
    else Some(CapOk)
  }

  /** The breaker condition without its division: a loss of at least `lifetime` of the peak. */
  predicate DeepLoss(caps: Caps, now: real, peak: real) {
    now <= peak - caps.lifetime * peak
  }

  lemma BreakerIff(caps: Caps, nav: Nav)
    requires nav.peak > 0.0
    ensures EvaluateCaps(caps, nav).Some?
    ensures EvaluateCaps(caps, nav) == Some(CircuitBreaker) <==> nav.tripped || DeepLoss(caps, nav.now, nav.peak)
  {
    var q := (nav.now - nav.peak) / nav.peak;
    assert q * nav.peak == nav.now - nav.peak;
    LeScale(q, -caps.lifetime, nav.peak);
    assert -caps.lifetime * nav.peak == -(caps.lifetime * nav.peak);
  }

  // ------------------------------------------------------------------ sizing

  datatype StrategyCfg = StrategyCfg(enabled: bool, enabledLive: bool, riskWeight: real, riskPerTrade: real,
                                     maxLots: int, premiumCapUsd: Option<real>)

  /** Risk limits; `requireLive` in live mode. Desk limits apply when the desk is enabled. */
  datatype Config = Config(caps: Caps, maxTotal: int, maxPerStrategy: int, strategies: map<StrategyId, StrategyCfg>,
                           requireLive: bool, deskEnabled: bool, maxVega: Option<real>, maxGamma: Option<real>)
  {
    predicate Valid() {
      && caps.Valid() && maxTotal >= 1 && maxPerStrategy >= 1
      && forall id :: id in strategies ==>
         0.0 < strategies[id].riskWeight <= 1.0 && 0.0 < strategies[id].riskPerTrade < 1.0
    }
  }

  datatype Intent = Intent(strategy: StrategyId, underlying: Underlying, requestedLots: int,
                           targetPremium: Option<real>, targetMaxLoss: Option<real>)

  datatype Accounting = Accounting(total: int, byStrategy: map<StrategyId, int>)

  datatype Decision =
    | Approved | OutsideTradingWindow | BreakerTripped | DailyCap | WeeklyCap
    | StrategyMaxConcurrent | GlobalMaxConcurrent | ZeroLots | BudgetExceeded
    | StrategyDisabled | StrategyNotLive | DeskRejected

  /** What the desk gates say of an intent, and its greeks per lot in rupees. */
  datatype Desk = Desk(reject: bool, vegaPerLot: real, gammaPerLot: real)

  datatype Sizing = Sizing(decision: Decision, lots: int, risk: real)

  function Budget(s: StrategyCfg, nav: real, usdInr: real): real {
    var b := nav * s.riskWeight * s.riskPerTrade;
    if s.premiumCapUsd.Some? then Min(b, s.premiumCapUsd.value * usdInr) else b
  }

  /** The rupees at risk per lot: the premium of a long position, the maximum loss of a spread. */
  function PerLotRisk(i: Intent): Option<real> {
    if i.strategy == CreditVertical then i.targetMaxLoss else i.targetPremium
  }

  function CapByGreek(lots: int, limit: Option<real>, perLot: real): int {
    if limit.Some? && limit.value > 0.0 && perLot > 0.0
    then MinInt(lots, MaxInt(1, (limit.value / perLot).Floor))
    else lots
  }

  function CapLots(cfg: Config, lots: int, desk: Desk): int {
    if !cfg.deskEnabled || lots < 1 then lots
    else CapByGreek(CapByGreek(lots, cfg.maxVega, desk.vegaPerLot), cfg.maxGamma, desk.gammaPerLot)
  }

  /** A greek cap never drops a trade, and leaves more than one lot only within the limit. */
  lemma GreekCapSound(lots: int, limit: Option<real>, perLot: real)
    requires lots >= 1
    ensures 1 <= CapByGreek(lots, limit, perLot) <= lots
    ensures limit.Some? && limit.value > 0.0 && perLot > 0.0 && CapByGreek(lots, limit, perLot) > 1 ==>
              CapByGreek(lots, limit, perLot) as real * perLot <= limit.value
  {
    if limit.Some? && limit.value > 0.0 && perLot > 0.0 {
      var q := limit.value / perLot;
      assert q * perLot == limit.value;
      var capped := CapByGreek(lots, limit, perLot);
      if capped > 1 {
        assert capped <= q.Floor;
        MulMono(capped as real, q, perLot);
      }
    }
  }

  function SizeIntent(cfg: Config, s: StrategyCfg, nav: real, i: Intent, desk: Desk, usdInr: real): Sizing {
    var perLot := PerLotRisk(i);
    if perLot.None? || perLot.value <= 0.0 then Sizing(BudgetExceeded, 0, 0.0)
    else
      var raw := (Budget(s, nav, usdInr) / perLot.value).Floor;
      var sized := MinInt(raw, MinInt(i.requestedLots, s.maxLots));
      if sized < 1 then Sizing(if i.strategy == Directional then ZeroLots else BudgetExceeded, 0, 0.0)
      else
        var lots := CapLots(cfg, sized, desk);
        if lots < 1 then Sizing(ZeroLots, 0, 0.0) else Sizing(Approved, lots, lots as real * perLot.value)
  }

  /** `RiskManager.gate`; None when evaluating the caps raises. */
  function Gate(cfg: Config, nav: Nav, acc: Accounting, i: Intent, windowOpen: bool, desk: Desk,
                usdInr: real): Option<Sizing> {
    if !windowOpen then Some(Sizing(OutsideTradingWindow, 0, 0.0))
    else
      var status := EvaluateCaps(cfg.caps, nav);
      if status.None? then None
      else if status.value == CircuitBreaker then Some(Sizing(BreakerTripped, 0, 0.0))
      else if status.value == WeeklyTripped then Some(Sizing(WeeklyCap, 0, 0.0))
      else if status.value == DailyTripped then Some(Sizing(DailyCap, 0, 0.0))
      else if i.strategy !in cfg.strategies || !cfg.strategies[i.strategy].enabled
      then Some(Sizing(StrategyDisabled, 0, 0.0))
      else if cfg.requireLive && !cfg.strategies[i.strategy].enabledLive then Some(Sizing(StrategyNotLive, 0, 0.0))
      else if acc.total >= cfg.maxTotal then Some(Sizing(GlobalMaxConcurrent, 0, 0.0))
      else if (if i.strategy in acc.byStrategy then acc.byStrategy[i.strategy] else 0) >= cfg.maxPerStrategy
      then Some(Sizing(StrategyMaxConcurrent, 0, 0.0))
      else if cfg.deskEnabled && desk.reject then Some(Sizing(DeskRejected, 0, 0.0))
      else Some(SizeIntent(cfg, cfg.strategies[i.strategy], nav.now, i, desk, usdInr))
  }

  /** The most a trade may put at risk: its strategy's share of the NAV. */
  function Share(s: StrategyCfg): real {
    s.riskWeight * s.riskPerTrade
  }

  lemma FloorTimes(budget: real, perLot: real, lots: int)
    requires perLot > 0.0 && 1 <= lots <= (budget / perLot).Floor
    ensures 0.0 < lots as real * perLot <= budget
  {
    var q := budget / perLot;
    assert q * perLot == budget;
    MulMono(lots as real, q, perLot);
    MulMono(1.0, lots as real, perLot);
  }

  lemma CapLotsBounded(cfg: Config, lots: int, desk: Desk)
    requires lots >= 1
    ensures 1 <= CapLots(cfg, lots, desk) <= lots
  {
    GreekCapSound(lots, cfg.maxVega, desk.vegaPerLot);
    GreekCapSound(CapByGreek(lots, cfg.maxVega, desk.vegaPerLot), cfg.maxGamma, desk.gammaPerLot);
  }

  /** Whatever the greeks and the caps on lots do, the approved risk is the lots times the per-lot
      risk and stays within the budget. */
  lemma SizedWithinBudget(cfg: Config, s: StrategyCfg, nav: real, i: Intent, desk: Desk, usdInr: real)
    requires SizeIntent(cfg, s, nav, i, desk, usdInr).decision == Approved
    ensures var z := SizeIntent(cfg, s, nav, i, desk, usdInr);
            && PerLotRisk(i).Some? && PerLotRisk(i).value > 0.0
            && z.lots >= 1 && z.risk == z.lots as real * PerLotRisk(i).value
            && 0.0 < z.risk <= Budget(s, nav, usdInr)
            && z.lots <= i.requestedLots && z.lots <= s.maxLots
  {
    hide Budget, CapLots;
    var z, p := SizeIntent(cfg, s, nav, i, desk, usdInr), PerLotRisk(i).value;
    var raw := (Budget(s, nav, usdInr) / p).Floor;
    var sized := MinInt(raw, MinInt(i.requestedLots, s.maxLots));
    CapLotsBounded(cfg, sized, desk);
    FloorTimes(Budget(s, nav, usdInr), p, z.lots);
  }

  lemma BudgetWithinShare(s: StrategyCfg, nav: real, usdInr: real)
    ensures Budget(s, nav, usdInr) <= nav * Share(s)
  {
    assert nav * s.riskWeight * s.riskPerTrade == nav * (s.riskWeight * s.riskPerTrade);
  }

  /** An approval means: window open, breaker not tripped, room for one more trade, and a risk that
      is positive and at most the strategy's share of the NAV. */
  lemma ApprovalMeans(cfg: Config, nav: Nav, acc: Accounting, i: Intent, windowOpen: bool, desk: Desk, usdInr: real)
    requires Gate(cfg, nav, acc, i, windowOpen, desk, usdInr).Some?
    requires Gate(cfg, nav, acc, i, windowOpen, desk, usdInr).value.decision == Approved
    ensures windowOpen && !nav.tripped
    ensures acc.total < cfg.maxTotal
    ensures (if i.strategy in acc.byStrategy then acc.byStrategy[i.strategy] else 0) < cfg.maxPerStrategy
    ensures i.strategy in cfg.strategies
    ensures var z := Gate(cfg, nav, acc, i, windowOpen, desk, usdInr).value;
            && z.lots >= 1 && 0.0 < z.risk <= nav.now * Share(cfg.strategies[i.strategy])
            && PerLotRisk(i).Some? && PerLotRisk(i).value > 0.0 && z.risk == z.lots as real * PerLotRisk(i).value
  {
    hide SizeIntent, Share, Budget, Change;
    var s := cfg.strategies[i.strategy];
    SizedWithinBudget(cfg, s, nav.now, i, desk, usdInr);
    BudgetWithinShare(s, nav.now, usdInr);
  }
}
