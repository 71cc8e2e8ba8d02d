/** The drawdown breaker over every run: exactly when it trips, and that it then stays tripped. */
module EngineBreaker {
  import opened Common
  import opened Risk
  import opened Engine
  import Premium

  // ------------------------------------------------------------------ what exits and entries leave alone

  lemma ExitKeepsBreaker(setup: Setup, s: State, k: nat, reply: Reply, now: int)
    requires k < |s.trades|
    ensures var r := Exit(setup, s, k, reply, now);
            && r.nav.peak == s.nav.peak && r.nav.tripped == s.nav.tripped
            && r.history == s.history && r.marker == s.marker && r.alive == s.alive && r.rollup == s.rollup
            && NoneOpened(s, r)
  {
    hide Premium.RealisedPnl, NoneOpened;
    var r, u := Exit(setup, s, k, reply, now), ClosedTrade(s.trades[k], reply.fills);
    assert r.trades == s.trades || r.trades == s.trades[k := u];
    ClosingOpensNone(s, r, k, u);
  }

  lemma ClosingOpensNone(s: State, r: State, k: nat, u: Trade)
    requires k < |s.trades| && u.status == Closed && (r.trades == s.trades || r.trades == s.trades[k := u])
    ensures NoneOpened(s, r)
  {
  }

  lemma {:induction false} ExitsKeepBreaker(setup: Setup, s: State, t: Tick, k: nat)
    requires k <= |s.trades|
    ensures var r := Exits(setup, s, t, k);
            && r.nav.peak == s.nav.peak && r.nav.tripped == s.nav.tripped
            && r.history == s.history && r.marker == s.marker && r.alive == s.alive && r.rollup == s.rollup
            && NoneOpened(s, r)
  {
    hide Exit;
    if k > 0 {
      ExitsKeepBreaker(setup, s, t, k - 1);
      if s.trades[k - 1].status == Open && s.trades[k - 1].id in t.exits {
        ExitKeepsBreaker(setup, Exits(setup, s, t, k - 1), k - 1, t.exits[s.trades[k - 1].id], t.now);
      }
    }
  }

  lemma CapsAnswer(caps: Caps, nav: Nav)
    requires nav.peak <= 0.0 && nav.now != 0.0
    ensures EvaluateCaps(caps, nav).Some?
  {
  }

  lemma ConsiderKeepsNav(setup: Setup, s: State, p: Proposal, t: Tick)
    ensures var r := Consider(setup, s, p, t);
            && r.nav == s.nav && r.history == s.history && r.marker == s.marker && (r.alive ==> s.alive)
            && r.rollup == s.rollup
            && (s.nav.tripped ==> NoneOpened(s, r))
            && (s.nav.peak > 0.0 || s.nav.now != 0.0 ==> r.alive == s.alive)
  {
    hide SizeIntent, EvaluateCaps, Snapshot;
    if s.nav.peak > 0.0 {
      BreakerIff(setup.risk.caps, s.nav);
    } else if s.nav.now != 0.0 {
      CapsAnswer(setup.risk.caps, s.nav);
    }
    var z := Gate(setup.risk, s.nav, Snapshot(s.trades), p.intent, t.windowOpen, p.desk, t.usdInr);
    if z.Some? && z.value.decision == Approved {
      ApprovalMeans(setup.risk, s.nav, Snapshot(s.trades), p.intent, t.windowOpen, p.desk, t.usdInr);
    }
  }

  lemma {:induction false} EntriesKeepNav(setup: Setup, s: State, ps: seq<Proposal>, t: Tick)
    ensures var r := Entries(setup, s, ps, t);
            && r.nav == s.nav && r.history == s.history && r.marker == s.marker && (r.alive ==> s.alive)
            && r.rollup == s.rollup
            && (s.nav.tripped ==> NoneOpened(s, r))
            && (s.nav.peak > 0.0 || s.nav.now != 0.0 ==> r.alive == s.alive)
  {
    hide Consider;
    if |ps| > 0 {
      EntriesKeepNav(setup, s, ps[..|ps| - 1], t);
      ConsiderKeepsNav(setup, Entries(setup, s, ps[..|ps| - 1], t), ps[|ps| - 1], t);
    }
  }

  /** No trade was added and none came (back) to life. */
  ghost predicate NoneOpened(s: State, r: State) {
    && |r.trades| == |s.trades|
    && forall i :: 0 <= i < |s.trades| && r.trades[i].status == Open ==> r.trades[i] == s.trades[i]
  }

  // ------------------------------------------------------------------ one tick

  /** Without a positive peak the caps measure the drawdown from the current NAV, that is nothing. */
  lemma NoPeakNoBreaker(caps: Caps, nav: Nav)
    requires caps.Valid() && nav.peak <= 0.0 && !nav.tripped
    ensures EvaluateCaps(caps, nav) != Some(CircuitBreaker)
    ensures EvaluateCaps(caps, nav).None? <==> nav.now == 0.0
  {
  }

  lemma SyncBreaker(setup: Setup, s: State, date: int)
    requires setup.risk.caps.Valid() && s.alive
    ensures var r := Sync(setup, s, date);
            && r.nav == s.nav.(tripped := r.nav.tripped) && r.trades == s.trades && r.rollup == s.rollup
            && (r.alive ==> (r.nav.tripped <==>
                             s.nav.tripped || (s.nav.peak > 0.0 && DeepLoss(setup.risk.caps, s.nav.now, s.nav.peak))))
            && (s.nav.peak > 0.0 ==> (r.alive <==> s.nav.tripped || s.nav.now >= 0.0))
            && (s.nav.peak <= 0.0 ==> (r.alive <==> s.nav.tripped || s.nav.now != 0.0))
            && (s.nav.tripped ==> r == s)
            && (if r.nav.tripped && !s.nav.tripped
                then r.marker && r.history == s.history[date := TripRow(s, date)]
                else r.marker == s.marker && r.history == s.history)
  {
    hide EvaluateCaps, DeepLoss;
    if s.nav.peak > 0.0 {
      BreakerIff(setup.risk.caps, s.nav);
      if s.nav.now < 0.0 {
        NegativeIsDeep(setup.risk.caps, s.nav.now, s.nav.peak);
      }
    } else if !s.nav.tripped {
      NoPeakNoBreaker(setup.risk.caps, s.nav);
    }
  }

  lemma NegativeIsDeep(caps: Caps, now: real, peak: real)
    requires caps.Valid() && now < 0.0 < peak
    ensures DeepLoss(caps, now, peak)
  {
    MulMono(caps.lifetime, 1.0, peak);
  }

  /** A tick in full, as far as the breaker is concerned. The NAV it judges is the one after the
      exits, the peak is the one from before the tick; with a positive peak the loop survives the
      tick exactly when it was tripped already or the NAV is not negative. */
  lemma TickBreaker(setup: Setup, s: State, t: Tick)
    requires setup.risk.caps.Valid() && s.alive
    ensures var r := DoTick(setup, s, t);
            && (r.alive ==> (r.nav.tripped <==>
                             s.nav.tripped || (s.nav.peak > 0.0 && DeepLoss(setup.risk.caps, r.nav.now, s.nav.peak))))
            && (r.alive ==> r.nav.peak == Max(s.nav.peak, r.nav.now))
            && (!r.alive ==> r.nav.peak == s.nav.peak)
            && r.rollup == s.rollup
            && (s.nav.peak > 0.0 ==> (r.alive <==> s.nav.tripped || r.nav.now >= 0.0))
            && (s.nav.peak <= 0.0 && !s.nav.tripped ==> (r.alive <==> r.nav.now != 0.0))
            && (s.nav.tripped ==> r.nav.tripped && r.marker == s.marker && r.history == s.history && NoneOpened(s, r))
            && (!s.nav.tripped && r.nav.tripped ==> r.marker && t.date in r.history && r.history[t.date].tripped
                                                    && r.history.Keys == s.history.Keys + {t.date}
                                                    && RowRecords(s, r, t.date))
  {
    hide Exits, Entries, EvaluateCaps, DeepLoss, Dispatch, Sync;
    var rolled := Roll(s, t);
    ExitsKeepBreaker(setup, rolled, t, |s.trades|);
    var exited := Exits(setup, rolled, t, |s.trades|);
    var ps := Dispatch(exited, t.proposals, t.now);
    EntriesKeepNav(setup, exited, ps, t);
    var entered := Entries(setup, exited, ps, t);
    if entered.alive {
      SyncBreaker(setup, entered, t.date);
    } else {
      DeadSync(setup, entered, t.date);
    }
  }

  /** The row a trip writes: the NAV that tripped, and the higher of the tracker's peak from before the tick and
      the peak the row already had. No other row changes. */
  ghost predicate RowRecords(s: State, r: State, date: int)
    requires date in r.history
  {
    && r.history[date].nav == r.nav.now
    && r.history[date].peak >= s.nav.peak
    && (date in s.history ==> r.history[date].peak >= s.history[date].peak)
    && (r.history[date].peak == s.nav.peak || (date in s.history && r.history[date].peak == s.history[date].peak))
    && forall d :: d in s.history && d != date ==> d in r.history && r.history[d] == s.history[d]
  }

  lemma DeadSync(setup: Setup, s: State, date: int)
    requires !s.alive
    ensures Sync(setup, s, date) == s
  {
  }

  // ------------------------------------------------------------------ whole runs of one process

  /** No restart: the run is that of one process. */
  ghost predicate InProcess(events: seq<Event>) {
    forall i :: 0 <= i < |events| ==> !events[i].RestartEvent?
  }

  /** The running maximum of the boot peak and the NAVs up to and including step `k`. */
  function High(setup: Setup, s: State, events: seq<Event>, k: nat): real
    requires k <= |events|
  {
    if k == 0 then s.nav.peak
    else if events[k - 1].TickEvent? then Max(High(setup, s, events, k - 1), After(setup, s, events, k).nav.now)
    else High(setup, s, events, k - 1)
  }

  /** Step `k` is a tick whose final NAV is at least the lifetime fraction below the running maximum. */
  ghost predicate Breach(setup: Setup, s: State, events: seq<Event>, k: nat)
    requires k <= |events|
  {
    && 0 < k && events[k - 1].TickEvent?
    && High(setup, s, events, k) > 0.0
    && DeepLoss(setup.risk.caps, After(setup, s, events, k).nav.now, High(setup, s, events, k))
  }

  /** The peak the breaker judges against is the one before the update, yet it judges as if the new
      NAV were already part of the maximum. */
  lemma PeakBeforeOrAfter(caps: Caps, now: real, peak: real)
    requires caps.Valid()
    ensures (peak > 0.0 && DeepLoss(caps, now, peak)) <==> (Max(peak, now) > 0.0 && DeepLoss(caps, now, Max(peak, now)))
  {
    if peak < now {
      if now > 0.0 {
        MulMono(0.0, caps.lifetime, now);
        assert caps.lifetime * now > 0.0;
      }
      if peak > 0.0 {
        MulMono(0.0, caps.lifetime, peak);
      }
    }
  }

  lemma {:induction false} DeadStaysDead(setup: Setup, s: State, events: seq<Event>, k: nat)
    requires InProcess(events) && k < |events| && !After(setup, s, events, k).alive
    ensures !After(setup, s, events, k + 1).alive
  {
    hide LatestOf;
  }

  lemma OnlyTicksMoveNav(setup: Setup, s: State, e: Event)
    requires !e.RestartEvent? && !e.TickEvent?
    ensures Apply(setup, s, e).nav == s.nav && Apply(setup, s, e).alive == s.alive
  {
  }

  /** In a process that has not crashed the breaker is tripped exactly when it booted tripped or some
      tick ended at least the lifetime fraction below the running maximum of boot peak and tick-end
      NAVs; and the tracker's peak is that maximum. */
  lemma {:induction false} TrippedIff(setup: Setup, s: State, events: seq<Event>, k: nat)
    requires setup.risk.caps.Valid() && InProcess(events) && k <= |events|
    requires After(setup, s, events, k).alive
    ensures After(setup, s, events, k).nav.peak == High(setup, s, events, k)
    ensures After(setup, s, events, k).nav.tripped <==>
            s.nav.tripped || exists j: nat :: j <= k && Breach(setup, s, events, j)
  {
    hide Apply, DeepLoss;
    if k > 0 {
      var p, r := After(setup, s, events, k - 1), After(setup, s, events, k);
      if !p.alive {
        DeadStaysDead(setup, s, events, k - 1);
        assert false;
      }
      TrippedIff(setup, s, events, k - 1);
      StepTripped(setup, s, events, k);
      assert r.nav.tripped <==> p.nav.tripped || Breach(setup, s, events, k);
    }
  }

  lemma StepTripped(setup: Setup, s: State, events: seq<Event>, k: nat)
    requires setup.risk.caps.Valid() && InProcess(events) && 0 < k <= |events|
    requires After(setup, s, events, k - 1).alive && After(setup, s, events, k).alive
    requires After(setup, s, events, k - 1).nav.peak == High(setup, s, events, k - 1)
    ensures After(setup, s, events, k).nav.peak == High(setup, s, events, k)
    ensures After(setup, s, events, k).nav.tripped <==>
            After(setup, s, events, k - 1).nav.tripped || Breach(setup, s, events, k)
  {
    hide DeepLoss, DoTick, LatestOf;
    var p, r := After(setup, s, events, k - 1), After(setup, s, events, k);
    if events[k - 1].TickEvent? {
      TickBreaker(setup, p, events[k - 1].tick);
      PeakBeforeOrAfter(setup.risk.caps, r.nav.now, p.nav.peak);
    } else {
      OnlyTicksMoveNav(setup, p, events[k - 1]);
    }
  }

  // ------------------------------------------------------------------ the latch

  /** A restart boots untripped exactly when the marker is gone and the latest row is clear. */
  lemma BootsUntrippedIff(setup: Setup, s: State, date: int)
    ensures !Restart(setup, s, date).nav.tripped <==>
              !s.marker && (|s.history| == 0 || !s.history[LatestOf(s.history.Keys)].tripped)
  {
  }

  ghost predicate Marked(s: State) {
    s.nav.tripped && s.marker
  }

  /** The latest row of the history says tripped, and neither it nor an unfinished rollup is later than
      `today`. */
  ghost predicate Recorded(s: State, today: int) {
    && s.nav.tripped && |s.history| > 0
    && (var d := LatestOf(s.history.Keys); d <= today && s.history[d].tripped)
    && (s.rollup.Some? ==> s.rollup.value.date <= today)
  }

  /** A rollup that read the flag before the trip has yet to commit, on the latest date or after it. */
  predicate Threatened(s: State) {
    && s.rollup.Some? && !s.rollup.value.row.tripped && s.rollup.value.row.nav >= 0.0
    && forall d :: d in s.history ==> d <= s.rollup.value.date
  }

  function DateOf(e: Event, today: int): int {
    match e
    case TickEvent(t) => t.date
    case RollupStartEvent(date) => date
    case RollupCommitEvent => today
    case RestartEvent(date, _) => date
    case ResumeEvent => today
    case MarkerLostEvent => today
  }

  /** Today's date after the first `k` events. */
  function Today(events: seq<Event>, today: int, k: nat): int
    requires k <= |events|
  {
    if k == 0 then today else DateOf(events[k - 1], Today(events, today, k - 1))
  }

  ghost predicate DatesMonotone(events: seq<Event>, today: int) {
    forall k: nat :: k < |events| ==> Today(events, today, k) <= Today(events, today, k + 1)
  }

  lemma MarkedStep(setup: Setup, s: State, e: Event)
    requires setup.risk.caps.Valid() && Marked(s) && !e.MarkerLostEvent?
    ensures Marked(Apply(setup, s, e)) && NoneOpened(s, Apply(setup, s, e))
  {
    hide DoTick, LatestOf, SumRealised;
    match e {
      case TickEvent(t) => if s.alive { TickBreaker(setup, s, t); } else { DeadTick(setup, s, t); }
      case RollupStartEvent(date) =>
      case RollupCommitEvent =>
      case RestartEvent(date, closed) =>
      case ResumeEvent =>
      case MarkerLostEvent =>
    }
  }

  lemma DeadTick(setup: Setup, s: State, t: Tick)
    requires !s.alive
    ensures DoTick(setup, s, t) == s
  {
  }

  lemma RecordedStep(setup: Setup, s: State, e: Event, today: int)
    requires setup.risk.caps.Valid() && Recorded(s, today) && !Threatened(s)
    requires !e.ResumeEvent? && today <= DateOf(e, today)
    ensures Recorded(Apply(setup, s, e), DateOf(e, today)) && !Threatened(Apply(setup, s, e))
    ensures NoneOpened(s, Apply(setup, s, e))
  {
    hide DoTick, SumRealised;
    match e {
      case TickEvent(t) => if s.alive { TickBreaker(setup, s, t); } else { DeadTick(setup, s, t); }
      case RollupStartEvent(date) =>
      case RollupCommitEvent =>
        if s.rollup.Some? {
          LatestWith(s.history, s.rollup.value.date, s.rollup.value.row);
        }
      case RestartEvent(date, closed) => BootsUntrippedIff(setup, ReconcileClose(s, closed), date);
      case ResumeEvent =>
      case MarkerLostEvent =>
    }
  }

  lemma LatestWith(history: map<int, NavRow>, date: int, row: NavRow)
    requires |history| > 0
    ensures |history[date := row]| > 0
    ensures LatestOf(history[date := row].Keys) == MaxInt(LatestOf(history.Keys), date)
  {
    var h := history[date := row];
    assert h.Keys == history.Keys + {date};
    assert date in h.Keys;
    assert |h| > 0 by {
      assert h != map[];
    }
  }

  /** A row written at or after every other date is the latest. */
  lemma LatestAfter(history: map<int, NavRow>, date: int, row: NavRow)
    requires forall d :: d in history ==> d <= date
    ensures |history[date := row]| > 0
    ensures LatestOf(history[date := row].Keys) == date
  {
    var h := history[date := row];
    assert date in h.Keys;
    assert |h| > 0 by {
      assert h != map[];
    }
  }

  /** A tick that trips records it in both places. */
  lemma TripIsRecorded(setup: Setup, s: State, t: Tick)
    requires setup.risk.caps.Valid() && !s.nav.tripped && DoTick(setup, s, t).nav.tripped
    ensures Marked(DoTick(setup, s, t))
    ensures t.date in DoTick(setup, s, t).history && RowRecords(s, DoTick(setup, s, t), t.date)
    ensures (forall d :: d in s.history ==> d <= t.date) && (s.rollup.Some? ==> s.rollup.value.date <= t.date) ==>
              Recorded(DoTick(setup, s, t), t.date)
  {
    hide DoTick, DeepLoss;
    if s.alive {
      TickBreaker(setup, s, t);
      var r := DoTick(setup, s, t);
      if forall d :: d in s.history ==> d <= t.date {
        LatestAfter(r.history, t.date, r.history[t.date]);
        assert r.history[t.date := r.history[t.date]] == r.history;
      }
    } else {
      DeadTick(setup, s, t);
      assert false;
    }
  }

  /** While the marker file stays, no sequence of ticks, rollups, resumes and restarts, whatever
      their dates, opens a trade or clears the breaker. */
  lemma {:induction false} MarkerLatches(setup: Setup, s: State, events: seq<Event>, j: nat, k: nat)
    requires setup.risk.caps.Valid() && j <= k <= |events| && Marked(After(setup, s, events, j))
    requires forall i :: j <= i < k ==> !events[i].MarkerLostEvent?
    ensures Marked(After(setup, s, events, k))
    ensures NoneOpened(After(setup, s, events, j), After(setup, s, events, k))
  {
    hide Apply, Marked;
    if j < k {
      MarkerLatches(setup, s, events, j, k - 1);
      MarkedStep(setup, After(setup, s, events, k - 1), events[k - 1]);
    }
  }

  /** The database alone latches too, unless a rollup from before the trip is still to commit: with dates
      that never go back and no resume, losing the marker then changes nothing. */
  lemma {:induction false} HistoryLatches(setup: Setup, s: State, events: seq<Event>, today: int, j: nat, k: nat)
    requires setup.risk.caps.Valid() && DatesMonotone(events, today) && j <= k <= |events|
    requires Recorded(After(setup, s, events, j), Today(events, today, j)) && !Threatened(After(setup, s, events, j))
    requires forall i :: j <= i < k ==> !events[i].ResumeEvent?
    ensures Recorded(After(setup, s, events, k), Today(events, today, k)) && !Threatened(After(setup, s, events, k))
    ensures NoneOpened(After(setup, s, events, j), After(setup, s, events, k))
  {
    hide Apply, Recorded, DateOf, Threatened;
    if j < k {
      HistoryLatches(setup, s, events, today, j, k - 1);
      assert Today(events, today, k - 1) <= Today(events, today, k - 1 + 1);
      RecordedStep(setup, After(setup, s, events, k - 1), events[k - 1], Today(events, today, k - 1));
    }
  }

  /** Every run without a resume and with dates that never go back keeps the trip on record. */
  ghost predicate StaysRecorded(setup: Setup, s: State, today: int) {
    forall events: seq<Event>, k: nat ::
      && k <= |events| && DatesMonotone(events, today)
      && (forall i :: 0 <= i < |events| ==> !events[i].ResumeEvent?)
      ==> Recorded(After(setup, s, events, k), Today(events, today, k))
  }

  /** The history keeps the trip through every run exactly when no rollup that read an untripped flag is
      still to commit on its date. */
  lemma HistoryLatchesIff(setup: Setup, s: State, today: int)
    requires setup.risk.caps.Valid() && Recorded(s, today)
    ensures StaysRecorded(setup, s, today) <==> !Threatened(s)
  {
    if Threatened(s) {
      StaleCommit(setup, s, today);
      var events := [RollupCommitEvent];
      var k: nat := 1;
      assert k <= |events| && DatesMonotone(events, today)
        && !Recorded(After(setup, s, events, k), Today(events, today, k));
    } else {
      forall events: seq<Event>, k: nat
        | k <= |events| && DatesMonotone(events, today) && forall i :: 0 <= i < |events| ==> !events[i].ResumeEvent?
        ensures Recorded(After(setup, s, events, k), Today(events, today, k))
      {
        HistoryLatches(setup, s, events, today, 0, k);
      }
    }
  }

  /** The commit of such a rollup wipes the trip from the record; with the marker gone the next boot is
      untripped. */
  lemma StaleCommit(setup: Setup, s: State, today: int)
    requires Recorded(s, today) && Threatened(s)
    ensures var events := [RollupCommitEvent];
            DatesMonotone(events, today) && !Recorded(After(setup, s, events, 1), Today(events, today, 1))
    ensures forall date :: !Restart(setup, CommitRollup(s).(marker := false), date).nav.tripped
  {
    var c := s.rollup.value;
    LatestWith(s.history, c.date, c.row);
    assert CommitRollup(s).history == s.history[c.date := c.row];
    assert After(setup, s, [RollupCommitEvent], 0) == s;
    assert After(setup, s, [RollupCommitEvent], 1) == CommitRollup(s);
    forall date ensures !Restart(setup, CommitRollup(s).(marker := false), date).nav.tripped {
      BootsUntrippedIff(setup, CommitRollup(s).(marker := false), date);
    }
  }

  /** Once some tick of a run trips the breaker, the rest of the run, restarts included, opens no trade
      and never has it clear, unless the marker is removed. */
  lemma TrippedForGood(setup: Setup, s: State, events: seq<Event>, j: nat, k: nat)
    requires setup.risk.caps.Valid() && j < k <= |events| && events[j].TickEvent?
    requires !After(setup, s, events, j).nav.tripped && After(setup, s, events, j + 1).nav.tripped
    requires forall i :: j < i < k ==> !events[i].MarkerLostEvent?
    ensures After(setup, s, events, k).nav.tripped
    ensures NoneOpened(After(setup, s, events, j + 1), After(setup, s, events, k))
  {
    hide DoTick;
    TripIsRecorded(setup, After(setup, s, events, j), events[j].tick);
    MarkerLatches(setup, s, events, j + 1, k);
  }

  /** Resuming does not lift the breaker: it clears the row and leaves the marker, so the next boot is
      tripped again. Lifting it takes the removal of the marker as well. */
  lemma ResumeAloneDoesNotClear(setup: Setup, s: State, date: int)
    requires s.marker
    ensures Restart(setup, Resume(s), date).nav.tripped
    ensures !Restart(setup, Resume(s).(marker := false), date).nav.tripped
  {
    if |s.history| > 0 {
      var d := LatestOf(s.history.Keys);
      assert Resume(s).history.Keys == s.history.Keys;
    }
  }

  // ------------------------------------------------------------------ a rollup that overtakes a trip

  const SMALL := Setup(Config(Caps(0.1, 0.2, 0.3), 1, 1, map[], false, false, None, None), 100.0, 0)
  const BET := Trade(0, LongStraddle, BTC, 1, Open, Premium.Columns(Some(50.0), None), None, 50.0, 100.0)
  const RUNNING := State([BET], Nav(100.0, 100.0, 100.0, 100.0, false), map[], false, map[], None, true, [], None)

  /** The trade is closed for nothing. */
  const BAD_TICK := Tick(0, 7, 0, false, 1.0, map[0 := Reply(true, [])], [])

  /** The rollup of day 7 starts, the tick loses half the NAV and trips, the rollup commits; then the
      marker is lost and the process restarts. */
  const OVERTAKEN := [RollupStartEvent(7), TickEvent(BAD_TICK), RollupCommitEvent, MarkerLostEvent, RestartEvent(8, {})]

  lemma BadTickLoses(s: State)
    requires s == StartRollup(RUNNING, 7)
    ensures var r := DoTick(SMALL, s, BAD_TICK);
            r.alive && r.nav.now == 50.0 && r.nav.tripped && r.history.Keys == {7} && r.rollup == s.rollup
  {
    var rolled := Roll(s, BAD_TICK);
    assert Exits(SMALL, rolled, BAD_TICK, 0) == rolled;
    assert Premium.RealisedPnl(BET.columns, 1, []) == -50.0;
    var exited := Exits(SMALL, rolled, BAD_TICK, 1);
    assert exited.nav.now == 50.0;
    assert Dispatch(exited, [], 0) == [];
    assert Entries(SMALL, exited, [], BAD_TICK) == exited;
    TickBreaker(SMALL, s, BAD_TICK);
    assert DoTick(SMALL, s, BAD_TICK).nav.now == 50.0;
  }

  /** The trip is on record after the second event and gone after the third; the last process boots
      untripped and may trade again. */
  lemma RollupOvertakesTrip()
    ensures Recorded(After(SMALL, RUNNING, OVERTAKEN, 2), 7) && Threatened(After(SMALL, RUNNING, OVERTAKEN, 2))
    ensures After(SMALL, RUNNING, OVERTAKEN, 2).nav.tripped && !After(SMALL, RUNNING, OVERTAKEN, 5).nav.tripped
  {
    hide DoTick, Restart;
    var one := StartRollup(RUNNING, 7);
    BadTickLoses(one);
    TripIsRecorded(SMALL, one, BAD_TICK);
    var two := DoTick(SMALL, one, BAD_TICK);
    assert After(SMALL, RUNNING, OVERTAKEN, 0) == RUNNING;
    assert After(SMALL, RUNNING, OVERTAKEN, 1) == one;
    assert After(SMALL, RUNNING, OVERTAKEN, 2) == two;
    StaleCommit(SMALL, two, 7);
    var four := CommitRollup(two).(marker := false);
    assert After(SMALL, RUNNING, OVERTAKEN, 3) == CommitRollup(two);
    assert After(SMALL, RUNNING, OVERTAKEN, 4) == four;
    assert ReconcileClose(four, {}) == four;
    assert After(SMALL, RUNNING, OVERTAKEN, 5) == Restart(SMALL, four, 8);
  }
}
