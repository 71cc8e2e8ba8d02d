/** The engine as a running process: the NAV tracker, the tables and the loop that updates them
    (bot/runtime/engine.py, bot/runtime/nav_state.py, bot/risk/caps.py). Each method is tied to the
    phase of module Engine it carries out. */
module EngineLoop {
  import opened Common
  import opened Risk
  import opened Engine
  import Router
  import Premium

  class NavTracker {
    var now: real
    var openToday: real
    var openWeek: real
    var peak: real
    var tripped: bool

    ghost function Value(): Nav
      reads this
    {
      Nav(now, openToday, openWeek, peak, tripped)
    }

    constructor (n: Nav)
      ensures Value() == n
    {
      now, openToday, openWeek, peak, tripped := n.now, n.openToday, n.openWeek, n.peak, n.tripped;
    }

    /** A new IST day starts with no daily loss, and with no weekly loss if the UTC date is a Monday; the
        breaker's verdict is the same as before. */
    method RollDay(utcWeekday: int)
      modifies this
      ensures forall caps: Caps :: caps.Valid() ==>
                && EvaluateCaps(caps, Value()) != Some(DailyTripped)
                && (utcWeekday == 0 ==> EvaluateCaps(caps, Value()) != Some(WeeklyTripped))
                && (EvaluateCaps(caps, Value()) == Some(CircuitBreaker) <==>
                    old(EvaluateCaps(caps, Value())) == Some(CircuitBreaker))
      ensures Value() == old(Value()).(openToday := old(now),
                                       openWeek := if utcWeekday == 0 then old(now) else old(openWeek))
    {
      openToday := now;
      if utcWeekday == 0 {
        openWeek := now;
      }
    }
  }

  class TradingEngine {
    const setup: Setup
    var trades: seq<Trade>
    var nav: NavTracker
    var history: map<int, NavRow>
    var marker: bool
    var cooldown: map<Underlying, int>
    var lastDate: Option<int>
    var alive: bool
    var rollup: Option<Captured>
    ghost var log: seq<Note>

    ghost function Contents(): State
      reads this, nav
    {
      State(trades, nav.Value(), history, marker, cooldown, lastDate, alive, log, rollup)
    }

    /** First start on existing tables: a restart of a process that left nothing else behind. */
    constructor (setup: Setup, trades: seq<Trade>, history: map<int, NavRow>, marker: bool, date: int)
      ensures fresh(nav) && this.setup == setup
      ensures forall n :: Contents() == Restart(setup, Tables(trades, n, history, marker), date)
    {
      this.setup, this.trades, this.history, this.marker := setup, trades, history, marker;
      cooldown, lastDate, alive, log, rollup := map[], None, true, [], None;
      var value := LoadNav(setup, trades, history, marker, date);
      nav := new NavTracker(value);
      new;
      forall n ensures Contents() == Restart(setup, Tables(trades, n, history, marker), date) {
        assert Boot(setup, Tables(trades, n, history, marker), date) == value;
      }
    }

    /** Tables and marker, with a NAV that no boot looks at. */
    static function Tables(trades: seq<Trade>, n: Nav, history: map<int, NavRow>, marker: bool): State {
      State(trades, n, history, marker, map[], None, true, [], None)
    }

    // ---------------------------------------------------------------- reading the tables

    static method SumClosed(trades: seq<Trade>) returns (total: real)
      ensures total == SumRealised(trades)
    {
      total := 0.0;
      for i := 0 to |trades|
        invariant total == SumRealised(trades[..i])
      {
        assert trades[..i + 1][..i] == trades[..i];
        if trades[i].status == Closed && trades[i].realised.Some? {
          total := total + trades[i].realised.value;
        }
      }
      assert trades[..|trades|] == trades;
    }

    static method LoadNav(setup: Setup, trades: seq<Trade>, history: map<int, NavRow>, marker: bool, date: int)
      returns (n: Nav)
      ensures forall s: State :: s.trades == trades && s.history == history && s.marker == marker ==>
              n == Boot(setup, s, date)
    {
      var realised := SumClosed(trades);
      var now := setup.baseNav + realised;
      var peak, breaker := now, false;
      if |history| > 0 {
        var latest := history[LatestOf(history.Keys)];
        peak, breaker := Max(peak, latest.peak), latest.tripped;
      }
      var openToday := now;
      if date in history {
        openToday := history[date].nav;
      } else if date - 1 in history {
        openToday := history[date - 1].nav;
      }
      var openWeek := openToday;
      if |history| > 0 && LatestOf(history.Keys) >= date - date % 7 {
        openWeek := history[LatestOf(history.Keys)].nav;
      }
      if |history| == 0 {
        assert history == map[];
      }
      n := Nav(now, openToday, openWeek, peak, breaker || marker);
    }

    method AccountingSnapshot() returns (acc: Accounting)
      ensures acc == Snapshot(trades)
    {
      var total := 0;
      var counts: map<StrategyId, int> := map[Directional := 0, CreditVertical := 0, LongStraddle := 0];
      for i := 0 to |trades|
        invariant Accounting(total, counts) == Snapshot(trades[..i])
      {
        assert trades[..i + 1][..i] == trades[..i];
        var t := trades[i];
        if t.status == Open {
          assert t.strategy == Directional || t.strategy == CreditVertical || t.strategy == LongStraddle;
          total, counts := total + 1, counts[t.strategy := counts[t.strategy] + 1];
        }
      }
      assert trades[..|trades|] == trades;
      acc := Accounting(total, counts);
    }

    // ---------------------------------------------------------------- the phases of a tick

    method MaybeRoll(t: Tick)
      modifies this, nav
      ensures nav == old(nav) && Contents() == Roll(old(Contents()), t)
    {
      if lastDate.Some? && t.date > lastDate.value {
        nav.RollDay(t.utcWeekday);
      }
      lastDate := Some(t.date);
    }

    method PersistExit(k: nat, reply: Reply, now: int)
      requires k < |trades|
      modifies this, nav
      ensures nav == old(nav) && Contents() == Exit(setup, old(Contents()), k, reply, now)
    {
      var t := trades[k];
      if reply.success {
        var cash := Premium.ExitCashflow(reply.fills);
        var realised := Premium.EntryCashflow(t.columns, t.lots) + cash;
        nav.now := nav.now + realised;
        trades := trades[k := t.(status := Closed, realised := Some(realised))];
      }
      if t.strategy == Directional {
        if setup.exitCooldown > 0 {
          cooldown := cooldown[t.underlying := now + setup.exitCooldown];
        }
        log := log + [Exited(t.underlying, now)];
      }
    }

    /** The trades are those that were open when the tick began. */
    method RunExits(t: Tick)
      modifies this, nav
      ensures nav == old(nav) && Contents() == Exits(setup, old(Contents()), t, |old(trades)|)
    {
      var rows := trades;
      for k := 0 to |rows|
        invariant nav == old(nav) && Contents() == Exits(setup, old(Contents()), t, k)
      {
        if rows[k].status == Open && rows[k].id in t.exits {
          PersistExit(k, t.exits[rows[k].id], t.now);
        }
      }
    }

    method EvaluateAll(ps: seq<Proposal>, now: int) returns (intents: seq<Proposal>)
      ensures intents == Dispatch(Contents(), ps, now)
    {
      intents := [];
      for i := 0 to |ps|
        invariant intents == Dispatch(Contents(), ps[..i], now)
      {
        assert ps[..i + 1][..i] == ps[..i];
        var p := ps[i].intent;
        var paused := p.strategy == Directional && p.underlying in cooldown && now < cooldown[p.underlying];
        if !paused {
          intents := intents + [ps[i]];
        }
      }
      assert ps[..|ps|] == ps;
    }

    /** The trade is stored OPEN before the executor is asked, and completed afterwards. */
    method PersistEntry(p: Proposal, z: Sizing, now: int) returns (entered: bool)
      modifies this
      ensures nav == old(nav) && entered == p.entry.success && Contents() == Enter(old(Contents()), p, z, now)
    {
      var id := |trades|;
      var i := p.intent;
      trades := trades + [Trade(id, i.strategy, i.underlying, z.lots, Open, Premium.Columns(None, None), None,
                                z.risk, nav.now)];
      entered := p.entry.success;
      if entered {
        var net := Router.TotalPremium(p.entry.fills);
        trades := trades[id := trades[id].(columns := Premium.PerLot(net, z.lots))];
      } else {
        trades := trades[id := trades[id].(status := Errored)];
        if i.strategy == Directional {
          cooldown := cooldown[i.underlying := now + ENTRY_FAILURE_COOLDOWN];
        }
      }
      if i.strategy == Directional {
        log := log + [Entered(i.underlying, now)];
      }
    }

    /** The accounting snapshot is taken once and again after every entry. */
    method RunEntries(ps: seq<Proposal>, t: Tick)
      modifies this
      ensures nav == old(nav) && Contents() == Entries(setup, old(Contents()), ps, t)
    {
      var acc := AccountingSnapshot();
      for i := 0 to |ps|
        invariant nav == old(nav) && acc == Snapshot(trades)
        invariant Contents() == Entries(setup, old(Contents()), ps[..i], t)
      {
        hide Gate, Snapshot, Enter;
        assert ps[..i + 1][..i] == ps[..i];
        if alive {
          var n := Nav(nav.now, nav.openToday, nav.openWeek, nav.peak, nav.tripped);
          var z := Gate(setup.risk, n, acc, ps[i].intent, t.windowOpen, ps[i].desk, t.usdInr);
          if z.None? {
            alive := false;
          } else if z.value.decision == Approved {
            var entered := PersistEntry(ps[i], z.value, t.now);
            acc := AccountingSnapshot();
          }
        }
      }
      assert ps[..|ps|] == ps;
    }

    method SyncBreaker(date: int)
      modifies this, nav
      ensures nav == old(nav) && Contents() == Sync(setup, old(Contents()), date)
    {
      if !alive || nav.tripped {
        return;
      }
      var status := EvaluateCaps(setup.risk.caps, Nav(nav.now, nav.openToday, nav.openWeek, nav.peak, nav.tripped));
      if status.None? {
        alive := false;
      } else if status.value == CircuitBreaker {
        if nav.now < 0.0 {
          alive := false;
        } else {
          var peak := if date in history then Max(history[date].peak, nav.peak) else nav.peak;
          history := history[date := NavRow(nav.now, peak, true)];
          nav.tripped := true;
          marker := true;
        }
      }
    }

    /** One iteration of the main loop. */
    method Tick(t: Tick)
      modifies this, nav
      ensures nav == old(nav) && Contents() == DoTick(setup, old(Contents()), t)
    {
      hide Exits, Entries, Dispatch, Sync;
      if !alive {
        return;
      }
      MaybeRoll(t);
      RunExits(t);
      var intents := EvaluateAll(t.proposals, t.now);
      RunEntries(intents, t);
      SyncBreaker(t.date);
      if alive {
        nav.peak := Max(nav.peak, nav.now);
      }
    }

    // ---------------------------------------------------------------- beside the loop

    /** The daily loop reads the tracker and hands the values to the aggregator. */
    method BeginRollup(date: int)
      modifies this
      ensures nav == old(nav) && Contents() == StartRollup(old(Contents()), date)
    {
      if rollup.None? {
        rollup := Some(Captured(date, NavRow(nav.now, Max(nav.peak, nav.now), nav.tripped)));
      }
    }

    /** The aggregator's last session writes them. */
    method FinishRollup()
      modifies this
      ensures nav == old(nav) && Contents() == CommitRollup(old(Contents()))
    {
      if rollup.Some? {
        if rollup.value.row.nav >= 0.0 {
          history := history[rollup.value.date := rollup.value.row];
        }
        rollup := None;
      }
    }

    method Reboot(date: int)
      modifies this
      ensures fresh(nav) && Contents() == Restart(setup, old(Contents()), date)
    {
      var value := LoadNav(setup, trades, history, marker, date);
      assert value == Boot(setup, Contents(), date);
      nav := new NavTracker(value);
      cooldown, lastDate, alive, rollup := map[], None, true, None;
    }
  }
}
