/** NAV, concurrency and approved risk over every run of the engine. */
module EngineAccounting {
  import opened Common
  import opened Risk
  import opened Engine
  import Premium
  import Router

  // ------------------------------------------------------------------ sums and counts under updates

  lemma {:induction false} SumUpdate(ts: seq<Trade>, k: nat, t: Trade)
    requires k < |ts|
    ensures SumRealised(ts[k := t]) == SumRealised(ts) - Booked(ts[k]) + Booked(t)
  {
    hide Booked;
    var n := |ts| - 1;
    if k == n {
      assert ts[k := t][..n] == ts[..n];
    } else {
      assert ts[k := t][..n] == ts[..n][k := t];
      SumUpdate(ts[..n], k, t);
    }
  }

  lemma {:induction false} CountUpdate(ts: seq<Trade>, k: nat, t: Trade, id: StrategyId)
    requires k < |ts| && ts[k].status == Open && t.status != Open
    ensures CountOpen(ts[k := t]) == CountOpen(ts) - 1
    ensures CountFor(ts[k := t], id) == CountFor(ts, id) - if ts[k].strategy == id then 1 else 0
  {
    var n := |ts| - 1;
    if k == n {
      assert ts[k := t][..n] == ts[..n];
    } else {
      assert ts[k := t][..n] == ts[..n][k := t];
      CountUpdate(ts[..n], k, t, id);
    }
  }

  lemma Append(ts: seq<Trade>, t: Trade, id: StrategyId)
    ensures SumRealised(ts + [t]) == SumRealised(ts) + Booked(t)
    ensures CountOpen(ts + [t]) == CountOpen(ts) + if t.status == Open then 1 else 0
    ensures CountFor(ts + [t], id) == CountFor(ts, id) + if t.status == Open && t.strategy == id then 1 else 0
  {
    assert (ts + [t])[..|ts|] == ts;
  }

  /** Closing without a PnL, as the reconciler does, leaves the booked total and lowers the counts. */
  lemma {:induction false} CloseSilently(ts: seq<Trade>, us: seq<Trade>, id: StrategyId)
    requires |us| == |ts|
    requires forall i :: 0 <= i < |ts| ==> us[i] == ts[i] || (ts[i].status == Open && us[i] == ts[i].(status := Closed))
    requires forall i :: 0 <= i < |ts| && ts[i].status == Open ==> ts[i].realised.None?
    ensures SumRealised(us) == SumRealised(ts)
    ensures CountOpen(us) <= CountOpen(ts) && CountFor(us, id) <= CountFor(ts, id)
  {
    if |ts| > 0 {
      CloseSilently(ts[..|ts| - 1], us[..|us| - 1], id);
    }
  }

  // ------------------------------------------------------------------ the invariant of the book

  ghost predicate TradeOk(cfg: Config, t: Trade) {
    t.status == Open ==>
      && t.realised.None?
      && t.strategy in cfg.strategies
      && 0.0 < t.risk <= t.navAtEntry * Share(cfg.strategies[t.strategy])
  }

  /** NAV is the base plus what closed trades booked; open trades are within the limits, and each
      carries a risk within its strategy's share of the NAV it was approved under. */
  ghost predicate BookOk(setup: Setup, s: State) {
    && s.nav.now == setup.baseNav + SumRealised(s.trades)
    && CountOpen(s.trades) <= setup.risk.maxTotal
    && (forall id :: CountFor(s.trades, id) <= setup.risk.maxPerStrategy)
    && (forall i :: 0 <= i < |s.trades| ==> TradeOk(setup.risk, s.trades[i]))
  }

  lemma ExitKeeps(setup: Setup, s: State, k: nat, reply: Reply, now: int)
    requires BookOk(setup, s) && k < |s.trades| && s.trades[k].status == Open
    ensures BookOk(setup, Exit(setup, s, k, reply, now))
  {
    hide CountOpen, CountFor, SumRealised, Premium.RealisedPnl, TradeOk;
    var r := Exit(setup, s, k, reply, now);
    var t := s.trades[k];
    OpenIsUnbooked(setup.risk, t);
    if reply.success {
      var u := ClosedTrade(t, reply.fills);
      assert r.trades == s.trades[k := u];
      SumUpdate(s.trades, k, u);
      CountUpdate(s.trades, k, u, Directional);
      forall id ensures CountFor(r.trades, id) <= setup.risk.maxPerStrategy {
        CountUpdate(s.trades, k, u, id);
      }
      ClosedIsOk(setup.risk, u);
    }
  }

  lemma OpenIsUnbooked(cfg: Config, t: Trade)
    requires TradeOk(cfg, t)
    ensures t.status == Open ==> t.realised.None? && Booked(t) == 0.0
  {
  }

  lemma ClosedIsOk(cfg: Config, t: Trade)
    requires t.status != Open
    ensures TradeOk(cfg, t)
  {
  }

  /** Exits touch only the trades they have reached. */
  lemma {:induction false} ExitsFrame(setup: Setup, s: State, t: Tick, k: nat, j: nat)
    requires k <= j < |s.trades|
    ensures Exits(setup, s, t, k).trades[j] == s.trades[j]
  {
    hide Premium.RealisedPnl;
    if k > 0 {
      ExitsFrame(setup, s, t, k - 1, j);
    }
  }

  lemma {:induction false} ExitsKeep(setup: Setup, s: State, t: Tick, k: nat)
    requires BookOk(setup, s) && k <= |s.trades|
    ensures BookOk(setup, Exits(setup, s, t, k))
  {
    hide BookOk, Exit;
    if k > 0 {
      ExitsKeep(setup, s, t, k - 1);
      ExitsFrame(setup, s, t, k - 1, k - 1);
      var p := Exits(setup, s, t, k - 1);
      if s.trades[k - 1].status == Open && s.trades[k - 1].id in t.exits {
        ExitKeeps(setup, p, k - 1, t.exits[s.trades[k - 1].id], t.now);
      }
    }
  }

  lemma EnterKeeps(setup: Setup, s: State, p: Proposal, z: Sizing, now: int)
    requires BookOk(setup, s)
    requires CountOpen(s.trades) < setup.risk.maxTotal
             && CountFor(s.trades, p.intent.strategy) < setup.risk.maxPerStrategy
    requires p.intent.strategy in setup.risk.strategies
    requires 0.0 < z.risk <= s.nav.now * Share(setup.risk.strategies[p.intent.strategy])
    ensures BookOk(setup, Enter(s, p, z, now))
  {
    hide CountOpen, CountFor, SumRealised, Premium.PerLot, Share;
    var r := Enter(s, p, z, now);
    var row := r.trades[|s.trades|];
    assert r.trades == s.trades + [row];
    Append(s.trades, row, Directional);
    forall id ensures CountFor(r.trades, id) <= setup.risk.maxPerStrategy {
      Append(s.trades, row, id);
    }
  }

  lemma ConsiderKeeps(setup: Setup, s: State, p: Proposal, t: Tick)
    requires BookOk(setup, s)
    ensures BookOk(setup, Consider(setup, s, p, t))
  {
    hide CountOpen, CountFor, SumRealised, Gate, Enter, Share;
    var acc := Snapshot(s.trades);
    var z := Gate(setup.risk, s.nav, acc, p.intent, t.windowOpen, p.desk, t.usdInr);
    if s.alive && z.Some? && z.value.decision == Approved {
      ApprovalMeans(setup.risk, s.nav, acc, p.intent, t.windowOpen, p.desk, t.usdInr);
      EnterKeeps(setup, s, p, z.value, t.now);
    }
  }

  lemma {:induction false} EntriesKeep(setup: Setup, s: State, ps: seq<Proposal>, t: Tick)
    requires BookOk(setup, s)
    ensures BookOk(setup, Entries(setup, s, ps, t))
  {
    hide BookOk, Consider;
    if |ps| > 0 {
      EntriesKeep(setup, s, ps[..|ps| - 1], t);
      ConsiderKeeps(setup, Entries(setup, s, ps[..|ps| - 1], t), ps[|ps| - 1], t);
    }
  }

  lemma TickKeeps(setup: Setup, s: State, t: Tick)
    requires BookOk(setup, s)
    ensures BookOk(setup, DoTick(setup, s, t))
  {
    hide CountOpen, CountFor, SumRealised, Exits, Entries, EvaluateCaps;
    var rolled := Roll(s, t);
    ExitsKeep(setup, rolled, t, |s.trades|);
    var exited := Exits(setup, rolled, t, |s.trades|);
    EntriesKeep(setup, exited, Dispatch(exited, t.proposals, t.now), t);
  }

  lemma RestartKeeps(setup: Setup, s: State, date: int, closed: set<int>)
    requires BookOk(setup, s)
    ensures BookOk(setup, Restart(setup, ReconcileClose(s, closed), date))
    ensures Restart(setup, ReconcileClose(s, closed), date).nav.now == s.nav.now
  {
    hide CountOpen, CountFor, SumRealised, LatestOf, Share;
    var us := ReconcileClose(s, closed).trades;
    forall i | 0 <= i < |s.trades| && s.trades[i].status == Open ensures s.trades[i].realised.None? {
      assert TradeOk(setup.risk, s.trades[i]);
    }
    CloseSilently(s.trades, us, Directional);
    forall id ensures CountFor(us, id) <= setup.risk.maxPerStrategy {
      CloseSilently(s.trades, us, id);
    }
    forall i | 0 <= i < |us| ensures TradeOk(setup.risk, us[i]) {
      assert TradeOk(setup.risk, s.trades[i]);
    }
  }

  lemma ApplyKeeps(setup: Setup, s: State, e: Event)
    requires BookOk(setup, s)
    ensures BookOk(setup, Apply(setup, s, e))
  {
    hide CountOpen, CountFor, SumRealised, DoTick, Restart, ReconcileClose, LatestOf;
    match e {
      case TickEvent(t) => TickKeeps(setup, s, t);
      case RollupStartEvent(date) =>
      case RollupCommitEvent =>
      case RestartEvent(date, closed) => RestartKeeps(setup, s, date, closed);
      case ResumeEvent =>
      case MarkerLostEvent =>
    }
  }

  /** The invariant of the book holds at every boundary of every run. */
  lemma {:induction false} BookAlwaysOk(setup: Setup, s: State, events: seq<Event>, k: nat)
    requires BookOk(setup, s) && k <= |events|
    ensures BookOk(setup, After(setup, s, events, k))
  {
    hide BookOk, Apply;
    if k > 0 {
      BookAlwaysOk(setup, s, events, k - 1);
      ApplyKeeps(setup, After(setup, s, events, k - 1), events[k - 1]);
    }
  }

  /** After any run, a restart, with or without reconciled trades, rebuilds exactly the NAV the
      process held, and that NAV is the base plus the PnL of the closed trades. */
  lemma RestartRebuildsNav(setup: Setup, s: State, events: seq<Event>, date: int, closed: set<int>)
    requires BookOk(setup, s)
    ensures var r := After(setup, s, events, |events|);
            && r.nav.now == setup.baseNav + SumRealised(r.trades)
            && Restart(setup, ReconcileClose(r, closed), date).nav.now == r.nav.now
  {
    hide After, Restart, ReconcileClose, SumRealised;
    BookAlwaysOk(setup, s, events, |events|);
    RestartKeeps(setup, After(setup, s, events, |events|), date, closed);
  }

  /** The base case: a first boot on an empty trades table. */
  lemma FirstBootOk(setup: Setup, s: State, date: int)
    requires setup.risk.Valid() && s.trades == []
    ensures BookOk(setup, Restart(setup, s, date)) && Restart(setup, s, date).nav.now == setup.baseNav
  {
  }

  // ------------------------------------------------------------------ rows that are over

  lemma {:induction false} ExitsSpare(setup: Setup, s: State, t: Tick, k: nat, i: nat)
    requires k <= |s.trades| && i < |s.trades| && s.trades[i].status != Open
    ensures Exits(setup, s, t, k).trades[i] == s.trades[i]
  {
    hide Premium.RealisedPnl;
    if k > 0 {
      ExitsSpare(setup, s, t, k - 1, i);
    }
  }

  lemma {:induction false} EntriesExtend(setup: Setup, s: State, ps: seq<Proposal>, t: Tick)
    ensures s.trades <= Entries(setup, s, ps, t).trades
  {
    hide Gate, Snapshot, Premium.PerLot, Router.NetPremium;
    if |ps| > 0 {
      EntriesExtend(setup, s, ps[..|ps| - 1], t);
    }
  }

  lemma EndedStep(setup: Setup, s: State, e: Event, i: nat)
    requires i < |s.trades| && s.trades[i].status != Open
    ensures i < |Apply(setup, s, e).trades| && Apply(setup, s, e).trades[i] == s.trades[i]
  {
    hide Exits, Entries, Dispatch, Boot, LatestOf;
    if e.TickEvent? && s.alive {
      var rolled := Roll(s, e.tick);
      var exited := Exits(setup, rolled, e.tick, |s.trades|);
      ExitsSpare(setup, rolled, e.tick, |s.trades|, i);
      EntriesExtend(setup, exited, Dispatch(exited, e.tick.proposals, e.tick.now), e.tick);
    }
  }

  /** A row that is not open is final: no tick, rollup, reconcile, resume or restart touches it again. An entry
      that failed is ERRORED, so whatever position its orders still hold or come to hold is never closed
      and never booked by the engine. */
  lemma {:induction false} EndedIsFinal(setup: Setup, s: State, events: seq<Event>, j: nat, k: nat, i: nat)
    requires j <= k <= |events| && i < |After(setup, s, events, j).trades|
    requires After(setup, s, events, j).trades[i].status != Open
    ensures i < |After(setup, s, events, k).trades|
    ensures After(setup, s, events, k).trades[i] == After(setup, s, events, j).trades[i]
  {
    hide Apply;
    if j < k {
      EndedIsFinal(setup, s, events, j, k - 1, i);
      EndedStep(setup, After(setup, s, events, k - 1), events[k - 1], i);
    }
  }

  /** A failed entry's row is ERRORED from its tick on and books nothing. */
  lemma FailedEntryIsErrored(s: State, p: Proposal, z: Sizing, now: int)
    requires !p.entry.success
    ensures var r := Enter(s, p, z, now);
            && |r.trades| == |s.trades| + 1 && r.trades[|s.trades|].status == Errored
            && SumRealised(r.trades) == SumRealised(s.trades)
  {
    var r := Enter(s, p, z, now);
    assert r.trades[..|s.trades|] == s.trades;
  }

  // ------------------------------------------------------------------ approved risk

  function OpenRisk(ts: seq<Trade>): real {
    if |ts| == 0 then 0.0
    else OpenRisk(ts[..|ts| - 1]) + if ts[|ts| - 1].status == Open then ts[|ts| - 1].risk else 0.0
  }

  function ShareOf(cfg: Config, id: StrategyId): real {
    if id in cfg.strategies then Share(cfg.strategies[id]) else 0.0
  }

  function TotalShare(cfg: Config): real {
    ShareOf(cfg, Directional) + ShareOf(cfg, CreditVertical) + ShareOf(cfg, LongStraddle)
  }

  /** Risk weighted by how many trades each strategy has open. */
  function Weighted(cfg: Config, ts: seq<Trade>): real {
    CountFor(ts, Directional) as real * ShareOf(cfg, Directional)
    + CountFor(ts, CreditVertical) as real * ShareOf(cfg, CreditVertical)
    + CountFor(ts, LongStraddle) as real * ShareOf(cfg, LongStraddle)
  }

  lemma WeightedStep(cfg: Config, ts: seq<Trade>)
    requires |ts| > 0
    ensures var n := |ts| - 1;
            Weighted(cfg, ts)
            == Weighted(cfg, ts[..n]) + if ts[n].status == Open then ShareOf(cfg, ts[n].strategy) else 0.0
  {
    hide ShareOf;
    var n := |ts| - 1;
    OneMore(CountFor(ts[..n], Directional) as real, ShareOf(cfg, Directional));
    OneMore(CountFor(ts[..n], CreditVertical) as real, ShareOf(cfg, CreditVertical));
    OneMore(CountFor(ts[..n], LongStraddle) as real, ShareOf(cfg, LongStraddle));
  }

  lemma {:induction false} RiskWithinWeighted(cfg: Config, ts: seq<Trade>, h: real)
    requires cfg.Valid() && h >= 0.0
    requires forall i :: 0 <= i < |ts| ==> TradeOk(cfg, ts[i])
    requires forall i :: 0 <= i < |ts| && ts[i].status == Open ==> ts[i].navAtEntry <= h
    ensures OpenRisk(ts) <= h * Weighted(cfg, ts)
  {
    hide Weighted, ShareOf;
    if |ts| == 0 {
      NoTradesNoWeight(cfg);
      assert ts == [];
    } else {
      var n := |ts| - 1;
      RiskWithinWeighted(cfg, ts[..n], h);
      WeightedStep(cfg, ts);
      assert TradeOk(cfg, ts[n]);
      if ts[n].status == Open {
        TradeWithinShare(cfg, ts[n], h);
        AddScaled(h, Weighted(cfg, ts[..n]), ShareOf(cfg, ts[n].strategy));
      }
    }
  }

  lemma NoTradesNoWeight(cfg: Config)
    ensures Weighted(cfg, []) == 0.0
  {
  }

  lemma AddScaled(h: real, a: real, b: real)
    ensures h * (a + b) == h * a + h * b
  {
  }

  lemma TradeWithinShare(cfg: Config, t: Trade, h: real)
    requires cfg.Valid() && TradeOk(cfg, t) && t.status == Open && t.navAtEntry <= h
    ensures t.risk <= h * ShareOf(cfg, t.strategy)
  {
    SharePositive(cfg, t.strategy);
    MulMono(t.navAtEntry, h, ShareOf(cfg, t.strategy));
  }

  lemma SharePositive(cfg: Config, id: StrategyId)
    requires cfg.Valid()
    ensures ShareOf(cfg, id) >= 0.0
  {
    if id in cfg.strategies {
      MulMono(0.0, cfg.strategies[id].riskWeight, cfg.strategies[id].riskPerTrade);
    }
  }

  lemma ThreeBounded(i: real, j: real, k: real, m: real, d: real, c: real, l: real)
    requires i <= m && j <= m && k <= m && d >= 0.0 && c >= 0.0 && l >= 0.0
    ensures i * d + j * c + k * l <= m * (d + c + l)
  {
    MulMono(i, m, d);
    MulMono(j, m, c);
    MulMono(k, m, l);
    assert m * (d + c + l) == m * d + m * c + m * l;
  }

  lemma WeightedBounded(cfg: Config, ts: seq<Trade>)
    requires cfg.Valid() && forall id :: CountFor(ts, id) <= cfg.maxPerStrategy
    ensures Weighted(cfg, ts) <= cfg.maxPerStrategy as real * TotalShare(cfg)
  {
    hide ShareOf, CountFor;
    SharePositive(cfg, Directional);
    SharePositive(cfg, CreditVertical);
    SharePositive(cfg, LongStraddle);
    ThreeBounded(CountFor(ts, Directional) as real, CountFor(ts, CreditVertical) as real,
                 CountFor(ts, LongStraddle) as real,
                 cfg.maxPerStrategy as real,
                 ShareOf(cfg, Directional), ShareOf(cfg, CreditVertical), ShareOf(cfg, LongStraddle));
  }

  /** In every reachable state the open trades stay within both concurrency limits, and the risk
      approved for them is at most the highest NAV any of them was entered under, times the
      per-strategy limit, times the strategies' combined share. */
  lemma ReachableRisk(setup: Setup, s: State, events: seq<Event>, k: nat, h: real)
    requires setup.risk.Valid() && BookOk(setup, s) && k <= |events| && h >= 0.0
    requires var ts := After(setup, s, events, k).trades;
             forall i :: 0 <= i < |ts| && ts[i].status == Open ==> ts[i].navAtEntry <= h
    ensures var ts := After(setup, s, events, k).trades;
            && CountOpen(ts) <= setup.risk.maxTotal
            && (forall id :: CountFor(ts, id) <= setup.risk.maxPerStrategy)
            && OpenRisk(ts) <= (setup.risk.maxPerStrategy as real * TotalShare(setup.risk)) * h
  {
    hide After, OpenRisk, Weighted, TotalShare, CountOpen, CountFor, TradeOk, SumRealised;
    BookAlwaysOk(setup, s, events, k);
    var ts := After(setup, s, events, k).trades;
    RiskWithinWeighted(setup.risk, ts, h);
    WeightedBounded(setup.risk, ts);
    MulMono(Weighted(setup.risk, ts), setup.risk.maxPerStrategy as real * TotalShare(setup.risk), h);
  }
}
