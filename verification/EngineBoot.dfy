/** What a new process makes of the tables, and what the caps then do (bot/runtime/nav_state.py,
    bot/runtime/engine.py). */
module EngineBoot {
  import opened Common
  import opened Risk
  import opened RiskGate
  import opened Engine
  import opened EngineBreaker
  import EngineAccounting

  // ------------------------------------------------------------------ the tracker of a new process

  /** The row with the latest date. */
  ghost predicate IsLatest(history: map<int, NavRow>, d: int) {
    d in history && forall x :: x in history ==> x <= d
  }

  /** NAV comes from the trades, the peak is the higher of NAV and the latest row's peak, today's anchor is
      today's row, else yesterday's, else NAV, and the week's anchor is the latest row's NAV if that row is of
      this week, else today's anchor. */
  lemma BootIs(setup: Setup, s: State, date: int)
    ensures var n := Restart(setup, s, date).nav;
            && n.now == setup.baseNav + SumRealised(s.trades)
            && n.peak >= n.now
            && (date in s.history ==> n.openToday == s.history[date].nav)
            && (date !in s.history && date - 1 in s.history ==> n.openToday == s.history[date - 1].nav)
            && (date !in s.history && date - 1 !in s.history ==> n.openToday == n.now)
            && (|s.history| == 0 ==> n.peak == n.now && n.openWeek == n.openToday && n.tripped == s.marker)
            && forall d :: IsLatest(s.history, d) ==>
                 && n.peak >= s.history[d].peak && (n.peak == n.now || n.peak == s.history[d].peak)
                 && (Monday(date) <= d ==> n.openWeek == s.history[d].nav)
                 && (d < Monday(date) ==> n.openWeek == n.openToday)
                 && n.tripped == (s.history[d].tripped || s.marker)
  {
    hide SumRealised;
    if |s.history| == 0 {
      assert s.history == map[];
    }
  }

  /** The Monday of the week of `date`; day 0 is a Monday. */
  function Monday(date: int): int {
    date - date % 7
  }

  /** A rollup that commits before the process ends hands its peak on: the next process starts from the highest
      NAV the old one had seen. */
  lemma RollupHandsOnPeak(setup: Setup, s: State, date: int, next: int, closed: set<int>)
    requires EngineAccounting.BookOk(setup, s) && s.rollup.None? && s.nav.now >= 0.0
    requires forall d :: d in s.history ==> d <= date
    ensures var r := Restart(setup, ReconcileClose(CommitRollup(StartRollup(s, date)), closed), next);
            && r.nav.peak == Max(s.nav.peak, s.nav.now) && r.nav.now == s.nav.now
            && (r.nav.tripped <==> s.nav.tripped || s.marker)
            && (next == date || next == date + 1 ==> r.nav.openToday == s.nav.now)
  {
    hide SumRealised;
    var t := CommitRollup(StartRollup(s, date));
    var row := NavRow(s.nav.now, Max(s.nav.peak, s.nav.now), s.nav.tripped);
    assert t.history == s.history[date := row] && t.trades == s.trades && t.nav == s.nav;
    assert EngineAccounting.BookOk(setup, t);
    EngineAccounting.RestartKeeps(setup, t, next, closed);
    var u := ReconcileClose(t, closed);
    assert IsLatest(u.history, date);
    BootIs(setup, u, next);
  }

  // ------------------------------------------------------------------ the breaker across a restart

  lemma DeeperStill(caps: Caps, now: real, peak: real, higher: real)
    requires caps.Valid() && peak <= higher && DeepLoss(caps, now, peak)
    ensures DeepLoss(caps, now, higher)
  {
    KeepsPart(caps.lifetime, peak, higher);
  }

  lemma KeepsPart(part: real, low: real, high: real)
    requires part <= 1.0 && low <= high
    ensures low - part * low <= high - part * high
  {
    MulMono(low, high, 1.0 - part);
    LessPart(part, low);
    LessPart(part, high);
  }

  lemma LessPart(part: real, x: real)
    ensures x * (1.0 - part) == x - part * x
  {
  }

  lemma {:induction false} HighIsHigh(setup: Setup, s: State, events: seq<Event>, k: nat)
    requires k <= |events|
    ensures High(setup, s, events, k) >= s.nav.peak
  {
    hide After;
    if k > 0 {
      HighIsHigh(setup, s, events, k - 1);
    }
  }

  /** The recorded peak counts in the next process: a tick there that ends the lifetime fraction below the
      latest row's peak has the breaker tripped, at that tick and from then on. */
  lemma TrippedAfterRestart(setup: Setup, s: State, date: int, d: int, events: seq<Event>, j: nat, k: nat)
    requires setup.risk.caps.Valid() && InProcess(events) && 0 < j <= k <= |events| && events[j - 1].TickEvent?
    requires IsLatest(s.history, d) && s.history[d].peak > 0.0
    requires After(setup, Restart(setup, s, date), events, k).alive
    requires DeepLoss(setup.risk.caps, After(setup, Restart(setup, s, date), events, j).nav.now, s.history[d].peak)
    ensures After(setup, Restart(setup, s, date), events, k).nav.tripped
  {
    hide After, Restart, DeepLoss, High;
    var r := Restart(setup, s, date);
    BootIs(setup, s, date);
    HighIsHigh(setup, r, events, j);
    DeeperStill(setup.risk.caps, After(setup, r, events, j).nav.now, s.history[d].peak, High(setup, r, events, j));
    TrippedIff(setup, r, events, k);
    assert Breach(setup, r, events, j);
  }

  // ------------------------------------------------------------------ the daily and the weekly cap

  /** The caps keep the tick from opening anything. */
  predicate Capped(caps: Caps, nav: Nav) {
    nav.tripped || LostPart(nav.now, nav.peak, caps.lifetime)
    || LostPart(nav.now, nav.openWeek, caps.weekly) || LostPart(nav.now, nav.openToday, caps.daily)
  }

  lemma ConsiderCapped(setup: Setup, s: State, p: Proposal, t: Tick)
    requires setup.risk.caps.Valid() && Capped(setup.risk.caps, s.nav)
    ensures Consider(setup, s, p, t).trades == s.trades && Consider(setup, s, p, t).nav == s.nav
  {
    hide Gate, Snapshot, LostPart, Fits;
    ApprovedIff(setup.risk, s.nav, Snapshot(s.trades), p.intent, t.windowOpen, p.desk, t.usdInr, 1);
  }

  lemma {:induction false} EntriesCapped(setup: Setup, s: State, ps: seq<Proposal>, t: Tick)
    requires setup.risk.caps.Valid() && Capped(setup.risk.caps, s.nav)
    ensures Entries(setup, s, ps, t).trades == s.trades && Entries(setup, s, ps, t).nav == s.nav
  {
    hide Consider, Capped;
    if |ps| > 0 {
      EntriesCapped(setup, s, ps[..|ps| - 1], t);
      ConsiderCapped(setup, Entries(setup, s, ps[..|ps| - 1], t), ps[|ps| - 1], t);
    }
  }

  /** A tick that ends with NAV down by the daily fraction from the day's anchor, by the weekly fraction from the
      week's or by the lifetime fraction from the peak it began with has opened no trade, and the anchors
      are those that its roll left. */
  lemma NoEntryUnderCaps(setup: Setup, s: State, t: Tick)
    requires setup.risk.caps.Valid() && s.alive
    requires var r := DoTick(setup, s, t).nav;
             LostPart(r.now, r.openToday, setup.risk.caps.daily) || LostPart(r.now, r.openWeek, setup.risk.caps.weekly)
             || LostPart(r.now, s.nav.peak, setup.risk.caps.lifetime)
    ensures NoneOpened(s, DoTick(setup, s, t))
    ensures DoTick(setup, s, t).nav.openToday == Roll(s, t).nav.openToday
    ensures DoTick(setup, s, t).nav.openWeek == Roll(s, t).nav.openWeek
  {
    hide Exits, Entries, EvaluateCaps, Dispatch, LostPart, Sync;
    var rolled := Roll(s, t);
    ExitsKeepBreaker(setup, rolled, t, |s.trades|);
    ExitsKeepAnchors(setup, rolled, t, |s.trades|);
    var exited := Exits(setup, rolled, t, |s.trades|);
    var ps := Dispatch(exited, t.proposals, t.now);
    EntriesKeepNav(setup, exited, ps, t);
    var entered := Entries(setup, exited, ps, t);
    SyncKeeps(setup, entered, t.date);
    EntriesCapped(setup, exited, ps, t);
  }

  lemma SyncKeeps(setup: Setup, s: State, date: int)
    ensures var r := Sync(setup, s, date);
            r.trades == s.trades && r.nav.now == s.nav.now && r.nav.openToday == s.nav.openToday
            && r.nav.openWeek == s.nav.openWeek && r.nav.peak == s.nav.peak
  {
    hide EvaluateCaps;
  }

  lemma {:induction false} ExitsKeepAnchors(setup: Setup, s: State, t: Tick, k: nat)
    requires k <= |s.trades|
    ensures var r := Exits(setup, s, t, k); r.nav.openToday == s.nav.openToday && r.nav.openWeek == s.nav.openWeek
  {
    if k > 0 {
      ExitsKeepAnchors(setup, s, t, k - 1);
    }
  }

  // ------------------------------------------------------------------ what a process forgets

  /** A rollup that starts and commits leaves the tables as before but for its row, and is over. */
  lemma RollupIs(s: State, date: int)
    requires s.rollup.None?
    ensures var r := CommitRollup(StartRollup(s, date));
            && r == s.(history := r.history) && r.rollup.None?
            && (s.nav.now < 0.0 ==> r.history == s.history)
            && (s.nav.now >= 0.0 ==>
                  r.history == s.history[date := NavRow(s.nav.now, Max(s.nav.peak, s.nav.now), s.nav.tripped)])
  {
  }

  /** While one rollup is under way no other starts, and nothing is stored. */
  lemma OneRollupAtATime(s: State, date: int, other: int)
    ensures StartRollup(StartRollup(s, date), other) == StartRollup(s, date)
    ensures StartRollup(s, date).history == s.history && StartRollup(s, date).nav == s.nav
  {
  }

  /** A new process is alive, has no cooldown, no date and no rollup, and keeps trades, history and marker. */
  lemma RestartForgets(setup: Setup, s: State, date: int)
    ensures var r := Restart(setup, s, date);
            && r.alive && r.cooldown == map[] && r.lastDate == None && r.rollup == None
            && r.trades == s.trades && r.history == s.history && r.marker == s.marker && r.log == s.log
  {
    hide Boot;
  }
}
