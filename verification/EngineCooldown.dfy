/** Re-entry after a directional exit (bot/strategies/base.py, bot/strategies/directional.py). */
module EngineCooldown {
  import opened Risk
  import opened Engine
  import Premium
  import Router

  /** An exit and a later entry of the same underlying are at least the cooldown apart. */
  ghost predicate Spaced(log: seq<Note>, cd: int) {
    forall i, j :: 0 <= i < j < |log| ==> Apart(log[i], log[j], cd)
  }

  ghost predicate Apart(exit: Note, entry: Note, cd: int) {
    exit.Exited? && entry.Entered? && exit.underlying == entry.underlying ==> exit.at + cd <= entry.at
  }

  /** The cooldown of an underlying covers every exit seen so far, none of them later than `now`. */
  ghost predicate Covered(s: State, cd: int, now: int) {
    forall i :: 0 <= i < |s.log| ==> CoveredNote(s.log[i], s.cooldown, cd, now)
  }

  ghost predicate CoveredNote(n: Note, cooldown: map<Underlying, int>, cd: int, now: int) {
    n.Exited? ==>
      && n.at <= now
      && (cd > 0 ==> n.underlying in cooldown && n.at + cd <= cooldown[n.underlying])
  }

  ghost predicate CoolOk(s: State, cd: int, now: int) {
    Spaced(s.log, cd) && Covered(s, cd, now)
  }

  lemma CoveredLater(s: State, cd: int, now: int, later: int)
    requires CoolOk(s, cd, now) && now <= later
    ensures CoolOk(s, cd, later)
  {
    forall i | 0 <= i < |s.log| ensures CoveredNote(s.log[i], s.cooldown, cd, later) {
      assert CoveredNote(s.log[i], s.cooldown, cd, now);
    }
  }

  lemma ExitCools(setup: Setup, s: State, k: nat, reply: Reply, now: int)
    requires k < |s.trades| && CoolOk(s, setup.exitCooldown, now)
    ensures CoolOk(Exit(setup, s, k, reply, now), setup.exitCooldown, now)
  {
    hide Premium.RealisedPnl;
    var cd := setup.exitCooldown;
    var r := Exit(setup, s, k, reply, now);
    if s.trades[k].strategy == Directional {
      forall i | 0 <= i < |r.log| ensures CoveredNote(r.log[i], r.cooldown, cd, now) {
        if i < |s.log| {
          assert CoveredNote(s.log[i], s.cooldown, cd, now);
        }
      }
      forall i, j | 0 <= i < j < |r.log| ensures Apart(r.log[i], r.log[j], cd) {
        if j < |s.log| {
          assert Apart(s.log[i], s.log[j], cd);
        }
      }
    }
  }

  lemma {:induction false} ExitsCool(setup: Setup, s: State, t: Tick, k: nat)
    requires k <= |s.trades| && CoolOk(s, setup.exitCooldown, t.now)
    ensures CoolOk(Exits(setup, s, t, k), setup.exitCooldown, t.now)
  {
    hide Exit, CoolOk;
    if k > 0 {
      ExitsCool(setup, s, t, k - 1);
      if s.trades[k - 1].status == Open && s.trades[k - 1].id in t.exits {
        ExitCools(setup, Exits(setup, s, t, k - 1), k - 1, t.exits[s.trades[k - 1].id], t.now);
      }
    }
  }

  /** Every exit of `u` has cooled down by `now`. */
  ghost predicate Cool(log: seq<Note>, u: Underlying, cd: int, now: int) {
    forall i :: 0 <= i < |log| ==> Apart(log[i], Entered(u, now), cd)
  }

  ghost predicate AllCool(log: seq<Note>, ps: seq<Proposal>, cd: int, now: int) {
    forall j :: 0 <= j < |ps| ==> ProposalCool(log, ps[j], cd, now)
  }

  ghost predicate ProposalCool(log: seq<Note>, p: Proposal, cd: int, now: int) {
    p.intent.strategy == Directional ==> Cool(log, p.intent.underlying, cd, now)
  }

  lemma DispatchedIsCool(s: State, p: Proposal, cd: int, now: int)
    requires Covered(s, cd, now) && Dispatched(s, p, now)
    ensures ProposalCool(s.log, p, cd, now)
  {
    if p.intent.strategy == Directional {
      forall i | 0 <= i < |s.log| ensures Apart(s.log[i], Entered(p.intent.underlying, now), cd) {
        assert CoveredNote(s.log[i], s.cooldown, cd, now);
      }
    }
  }

  lemma {:induction false} DispatchIsCool(s: State, ps: seq<Proposal>, cd: int, now: int)
    requires Covered(s, cd, now)
    ensures AllCool(s.log, Dispatch(s, ps, now), cd, now)
  {
    hide Dispatched, ProposalCool;
    if |ps| > 0 {
      DispatchIsCool(s, ps[..|ps| - 1], cd, now);
      if Dispatched(s, ps[|ps| - 1], now) {
        DispatchedIsCool(s, ps[|ps| - 1], cd, now);
      }
    }
  }

  /** Entering a cool proposal keeps the invariant, although a failed entry overwrites the cooldown;
      and what was cool stays cool, since entries add no exits. */
  lemma EnterStaysCool(s: State, p: Proposal, z: Sizing, cd: int, now: int)
    requires CoolOk(s, cd, now) && ProposalCool(s.log, p, cd, now)
    ensures CoolOk(Enter(s, p, z, now), cd, now)
  {
    hide Premium.PerLot;
    var r := Enter(s, p, z, now);
    if p.intent.strategy == Directional {
      forall i | 0 <= i < |r.log| ensures CoveredNote(r.log[i], r.cooldown, cd, now) {
        if i < |s.log| {
          assert CoveredNote(s.log[i], s.cooldown, cd, now);
          assert Apart(s.log[i], Entered(p.intent.underlying, now), cd);
        }
      }
      forall i, j | 0 <= i < j < |r.log| ensures Apart(r.log[i], r.log[j], cd) {
        if j < |s.log| {
          assert Apart(s.log[i], s.log[j], cd);
        } else {
          assert Apart(s.log[i], Entered(p.intent.underlying, now), cd);
        }
      }
    }
  }

  lemma CoolAfterEnter(s: State, p: Proposal, z: Sizing, q: Proposal, cd: int, now: int)
    requires ProposalCool(s.log, q, cd, now)
    ensures ProposalCool(Enter(s, p, z, now).log, q, cd, now)
  {
    hide Premium.PerLot;
    var log := Enter(s, p, z, now).log;
    if q.intent.strategy == Directional {
      forall i | 0 <= i < |log| ensures Apart(log[i], Entered(q.intent.underlying, now), cd) {
        if i < |s.log| {
          assert Apart(s.log[i], Entered(q.intent.underlying, now), cd);
        }
      }
    }
  }

  lemma ConsiderStaysCool(setup: Setup, s: State, p: Proposal, t: Tick)
    requires CoolOk(s, setup.exitCooldown, t.now) && ProposalCool(s.log, p, setup.exitCooldown, t.now)
    ensures CoolOk(Consider(setup, s, p, t), setup.exitCooldown, t.now)
    ensures forall q :: ProposalCool(s.log, q, setup.exitCooldown, t.now)
              ==> ProposalCool(Consider(setup, s, p, t).log, q, setup.exitCooldown, t.now)
  {
    hide Gate, Enter, ProposalCool, Snapshot;
    var cd := setup.exitCooldown;
    var z := Gate(setup.risk, s.nav, Snapshot(s.trades), p.intent, t.windowOpen, p.desk, t.usdInr);
    if s.alive && z.Some? && z.value.decision == Approved {
      EnterStaysCool(s, p, z.value, cd, t.now);
      forall q | ProposalCool(s.log, q, cd, t.now) ensures ProposalCool(Enter(s, p, z.value, t.now).log, q, cd, t.now) {
        CoolAfterEnter(s, p, z.value, q, cd, t.now);
      }
    }
  }

  lemma {:induction false} EntriesStayCool(setup: Setup, s: State, ps: seq<Proposal>, t: Tick)
    requires CoolOk(s, setup.exitCooldown, t.now) && AllCool(s.log, ps, setup.exitCooldown, t.now)
    ensures CoolOk(Entries(setup, s, ps, t), setup.exitCooldown, t.now)
    ensures forall q :: ProposalCool(s.log, q, setup.exitCooldown, t.now)
              ==> ProposalCool(Entries(setup, s, ps, t).log, q, setup.exitCooldown, t.now)
  {
    hide Consider, CoolOk, ProposalCool;
    if |ps| > 0 {
      EntriesStayCool(setup, s, ps[..|ps| - 1], t);
      ConsiderStaysCool(setup, Entries(setup, s, ps[..|ps| - 1], t), ps[|ps| - 1], t);
    }
  }

  lemma TickStaysCool(setup: Setup, s: State, t: Tick, now: int)
    requires CoolOk(s, setup.exitCooldown, now) && now <= t.now
    ensures CoolOk(DoTick(setup, s, t), setup.exitCooldown, t.now)
  {
    hide Exits, Entries, Dispatch, EvaluateCaps;
    var cd := setup.exitCooldown;
    CoveredLater(s, cd, now, t.now);
    var rolled := Roll(s, t);
    ExitsCool(setup, rolled, t, |s.trades|);
    var exited := Exits(setup, rolled, t, |s.trades|);
    DispatchIsCool(exited, t.proposals, cd, t.now);
    EntriesStayCool(setup, exited, Dispatch(exited, t.proposals, t.now), t);
  }

  // ------------------------------------------------------------------ whole runs of one process

  function ClockOf(e: Event, now: int): int {
    if e.TickEvent? then e.tick.now else now
  }

  /** The clock after the first `k` events. */
  function Clock(events: seq<Event>, now: int, k: nat): int
    requires k <= |events|
  {
    if k == 0 then now else ClockOf(events[k - 1], Clock(events, now, k - 1))
  }

  ghost predicate ClockMonotone(events: seq<Event>, now: int) {
    forall k: nat :: k < |events| ==> Clock(events, now, k) <= Clock(events, now, k + 1)
  }

  lemma ApplyStaysCool(setup: Setup, s: State, e: Event, now: int)
    requires CoolOk(s, setup.exitCooldown, now) && !e.RestartEvent? && now <= ClockOf(e, now)
    ensures CoolOk(Apply(setup, s, e), setup.exitCooldown, ClockOf(e, now))
  {
    hide DoTick, LatestOf;
    if e.TickEvent? {
      TickStaysCool(setup, s, e.tick, now);
    }
  }

  lemma {:induction false} RunStaysCool(setup: Setup, s: State, events: seq<Event>, now: int, k: nat)
    requires s.log == [] && ClockMonotone(events, now) && k <= |events|
    requires forall i :: 0 <= i < |events| ==> !events[i].RestartEvent?
    ensures CoolOk(After(setup, s, events, k), setup.exitCooldown, Clock(events, now, k))
  {
    hide Apply, CoolOk, ClockOf;
    if k == 0 {
      Quiet(s, setup.exitCooldown, now);
    } else {
      RunStaysCool(setup, s, events, now, k - 1);
      assert Clock(events, now, k - 1) <= Clock(events, now, k - 1 + 1);
      ApplyStaysCool(setup, After(setup, s, events, k - 1), events[k - 1], Clock(events, now, k - 1));
    }
  }

  lemma Quiet(s: State, cd: int, now: int)
    requires s.log == []
    ensures CoolOk(s, cd, now)
  {
  }

  /** In one process with a clock that never goes back, no directional entry on an underlying is even
      attempted before the cooldown of every earlier directional exit on it has passed: neither another
      exit nor the shorter pause after a failed entry cuts a running cooldown. */
  lemma NoReentryBeforeCooldown(setup: Setup, s: State, events: seq<Event>, now: int, k: nat, i: nat, j: nat)
    requires s.log == [] && ClockMonotone(events, now) && k <= |events|
    requires forall i :: 0 <= i < |events| ==> !events[i].RestartEvent?
    requires i < j < |After(setup, s, events, k).log|
    requires var log := After(setup, s, events, k).log;
             log[i].Exited? && log[j].Entered? && log[i].underlying == log[j].underlying
    ensures var log := After(setup, s, events, k).log;
            log[i].at + setup.exitCooldown <= log[j].at
  {
    hide After;
    RunStaysCool(setup, s, events, now, k);
    assert Apart(After(setup, s, events, k).log[i], After(setup, s, events, k).log[j], setup.exitCooldown);
  }

  // ------------------------------------------------------------------ the same in terms of trades

  /** The note stands in the log at or after `lo` and before `hi`. */
  ghost predicate NotedIn(log: seq<Note>, lo: nat, hi: nat, note: Note) {
    exists p: nat :: lo <= p < hi && p < |log| && log[p] == note
  }

  lemma NotedGrows(log: seq<Note>, longer: seq<Note>, lo: nat, hi: nat, note: Note)
    requires NotedIn(log, lo, hi, note) && log <= longer
    ensures NotedIn(longer, lo, hi, note)
  {
    var p: nat :| lo <= p < hi && p < |log| && log[p] == note;
    assert longer[p] == note;
  }

  /** A directional trade that was open and is closed. */
  ghost predicate JustClosed(s: State, r: State, a: nat) {
    && a < |s.trades| && a < |r.trades| && s.trades[a].strategy == Directional
    && s.trades[a].status == Open && r.trades[a].status == Closed
  }

  /** A directional trade that was not there. */
  ghost predicate JustOpened(s: State, r: State, b: nat) {
    |s.trades| <= b < |r.trades| && r.trades[b].strategy == Directional
  }

  lemma ExitNotes(setup: Setup, s: State, k: nat, reply: Reply, now: int)
    requires k < |s.trades|
    ensures var r := Exit(setup, s, k, reply, now);
            && s.log <= r.log
            && (s.trades[k].strategy == Directional ==>
                NotedIn(r.log, |s.log|, |r.log|, Exited(s.trades[k].underlying, now)))
            && (forall a :: 0 <= a < |s.trades| && a != k ==> r.trades[a] == s.trades[a])
            && r.trades[k].strategy == s.trades[k].strategy && r.trades[k].underlying == s.trades[k].underlying
  {
    hide Premium.RealisedPnl;
    var r := Exit(setup, s, k, reply, now);
    if s.trades[k].strategy == Directional {
      assert r.log[|s.log|] == Exited(s.trades[k].underlying, now);
    }
  }

  lemma {:induction false} ExitsNote(setup: Setup, s: State, t: Tick, k: nat, a: nat)
    requires k <= |s.trades| && a < |s.trades|
    ensures var r := Exits(setup, s, t, k);
            && s.log <= r.log
            && (a >= k ==> r.trades[a] == s.trades[a])
            && (JustClosed(s, r, a) ==> NotedIn(r.log, |s.log|, |r.log|, Exited(s.trades[a].underlying, t.now)))
            && r.trades[a].strategy == s.trades[a].strategy && r.trades[a].underlying == s.trades[a].underlying
  {
    hide Exit, NotedIn;
    if k > 0 {
      ExitsNote(setup, s, t, k - 1, a);
      ExitsNote(setup, s, t, k - 1, k - 1);
      var p := Exits(setup, s, t, k - 1);
      if s.trades[k - 1].status == Open && s.trades[k - 1].id in t.exits {
        ExitNotes(setup, p, k - 1, t.exits[s.trades[k - 1].id], t.now);
        var r := Exits(setup, s, t, k);
        if JustClosed(s, p, a) {
          NotedGrows(p.log, r.log, |s.log|, |p.log|, Exited(s.trades[a].underlying, t.now));
          NotedWidens(r.log, |s.log|, |p.log|, |s.log|, |r.log|, Exited(s.trades[a].underlying, t.now));
        } else if a == k - 1 && s.trades[a].strategy == Directional {
          NotedWidens(r.log, |p.log|, |r.log|, |s.log|, |r.log|, Exited(s.trades[a].underlying, t.now));
        }
      }
    }
  }

  lemma NotedWidens(log: seq<Note>, lo: nat, hi: nat, lo': nat, hi': nat, note: Note)
    requires NotedIn(log, lo, hi, note) && lo' <= lo && hi <= hi'
    ensures NotedIn(log, lo', hi', note)
  {
  }

  /** Only entries add trades, and each directional one leaves its note. */
  ghost predicate EntriesNoted(s: State, r: State, now: int) {
    && s.log <= r.log && s.trades <= r.trades
    && forall b: nat :: JustOpened(s, r, b) ==> NotedIn(r.log, |s.log|, |r.log|, Entered(r.trades[b].underlying, now))
  }

  lemma ConsiderNotes(setup: Setup, s: State, p: Proposal, t: Tick)
    ensures EntriesNoted(s, Consider(setup, s, p, t), t.now)
  {
    hide Gate, Snapshot, Premium.PerLot, Router.NetPremium;
    var r := Consider(setup, s, p, t);
    if |r.trades| > |s.trades| && p.intent.strategy == Directional {
      assert r.log[|s.log|] == Entered(p.intent.underlying, t.now);
    }
  }

  lemma NotedChain(s: State, m: State, r: State, now: int)
    requires EntriesNoted(s, m, now) && EntriesNoted(m, r, now)
    ensures EntriesNoted(s, r, now)
  {
    hide NotedIn;
    forall b: nat | JustOpened(s, r, b) ensures NotedIn(r.log, |s.log|, |r.log|, Entered(r.trades[b].underlying, now)) {
      if b < |m.trades| {
        assert JustOpened(s, m, b);
        NotedGrows(m.log, r.log, |s.log|, |m.log|, Entered(m.trades[b].underlying, now));
        NotedWidens(r.log, |s.log|, |m.log|, |s.log|, |r.log|, Entered(r.trades[b].underlying, now));
      } else {
        assert JustOpened(m, r, b);
        NotedWidens(r.log, |m.log|, |r.log|, |s.log|, |r.log|, Entered(r.trades[b].underlying, now));
      }
    }
  }

  lemma {:induction false} EntriesNote(setup: Setup, s: State, ps: seq<Proposal>, t: Tick)
    ensures EntriesNoted(s, Entries(setup, s, ps, t), t.now)
  {
    hide Consider;
    if |ps| > 0 {
      var m := Entries(setup, s, ps[..|ps| - 1], t);
      EntriesNote(setup, s, ps[..|ps| - 1], t);
      ConsiderNotes(setup, m, ps[|ps| - 1], t);
      NotedChain(s, m, Entries(setup, s, ps, t), t.now);
    }
  }

  /** In a tick the notes of its closes come before the notes of its entries. */
  lemma TickNotes(setup: Setup, s: State, t: Tick, a: nat, b: nat) returns (mid: nat)
    ensures var r := DoTick(setup, s, t);
            && s.log <= r.log && |s.log| <= mid <= |r.log|
            && (JustClosed(s, r, a) ==> NotedIn(r.log, |s.log|, mid, Exited(s.trades[a].underlying, t.now)))
            && (JustOpened(s, r, b) ==> NotedIn(r.log, mid, |r.log|, Entered(r.trades[b].underlying, t.now)))
  {
    hide Exits, Entries, Dispatch, NotedIn, EvaluateCaps;
    mid := |s.log|;
    if s.alive {
      var rolled := Roll(s, t);
      var exited := Exits(setup, rolled, t, |s.trades|);
      var ps := Dispatch(exited, t.proposals, t.now);
      var entered := Entries(setup, exited, ps, t);
      EntriesNote(setup, exited, ps, t);
      if |s.trades| == 0 {
        assert exited == rolled by {
          NoExits(setup, rolled, t);
        }
      } else {
        ExitsNote(setup, rolled, t, |s.trades|, if a < |s.trades| then a else 0);
      }
      mid := |exited.log|;
      var r := DoTick(setup, s, t);
      assert r.log == entered.log && r.trades == entered.trades;
      if JustClosed(s, r, a) {
        assert r.trades[a] == exited.trades[a];
        NotedGrows(exited.log, r.log, |s.log|, mid, Exited(s.trades[a].underlying, t.now));
      }
      if JustOpened(s, r, b) {
        assert JustOpened(exited, entered, b);
      }
    }
  }

  lemma NoExits(setup: Setup, s: State, t: Tick)
    ensures Exits(setup, s, t, 0) == s
  {
  }

  lemma ApplyKeepsLog(setup: Setup, s: State, e: Event)
    ensures s.log <= Apply(setup, s, e).log
  {
    hide DoTick, LatestOf, Boot, NotedIn;
    if e.TickEvent? {
      var mid := TickNotes(setup, s, e.tick, 0, 0);
    }
  }

  lemma {:induction false} LogGrows(setup: Setup, s: State, events: seq<Event>, i: nat, j: nat)
    requires i <= j <= |events|
    ensures After(setup, s, events, i).log <= After(setup, s, events, j).log
  {
    hide Apply;
    if i < j {
      LogGrows(setup, s, events, i, j - 1);
      ApplyKeepsLog(setup, After(setup, s, events, j - 1), events[j - 1]);
    }
  }

  /** After a directional trade on an underlying is closed by a tick of a process, no tick of that
      process, the same one included, opens another one on it before the cooldown has passed. */
  lemma NoTradeBeforeCooldown(setup: Setup, s: State, events: seq<Event>, now: int, i: nat, j: nat, a: nat, b: nat)
    requires s.log == [] && ClockMonotone(events, now) && forall k :: 0 <= k < |events| ==> !events[k].RestartEvent?
    requires i <= j < |events| && events[i].TickEvent? && events[j].TickEvent?
    requires JustClosed(After(setup, s, events, i), After(setup, s, events, i + 1), a)
    requires JustOpened(After(setup, s, events, j), After(setup, s, events, j + 1), b)
    requires After(setup, s, events, i).trades[a].underlying == After(setup, s, events, j + 1).trades[b].underlying
    ensures events[i].tick.now + setup.exitCooldown <= events[j].tick.now
  {
    hide After, NotedIn;
    var u := After(setup, s, events, i).trades[a].underlying;
    var last := After(setup, s, events, j + 1).log;
    var exit, entry := Exited(u, events[i].tick.now), Entered(u, events[j].tick.now);
    var lo := |After(setup, s, events, i).log|;
    var m := NotesAt(setup, s, events, i, a, b);
    var n := m;
    if i < j {
      n := NotesAt(setup, s, events, j, a, b);
      LogGrows(setup, s, events, i + 1, j);
      LogGrows(setup, s, events, i + 1, j + 1);
      NotedGrows(After(setup, s, events, i + 1).log, last, lo, m, exit);
    }
    var p, q := InOrder(last, lo, m, n, exit, entry);
    NoReentryBeforeCooldown(setup, s, events, now, j + 1, p, q);
  }

  lemma NotesAt(setup: Setup, s: State, events: seq<Event>, k: nat, a: nat, b: nat) returns (mid: nat)
    requires k < |events| && events[k].TickEvent?
    ensures var p, r := After(setup, s, events, k), After(setup, s, events, k + 1);
            && p.log <= r.log && |p.log| <= mid <= |r.log|
            && (JustClosed(p, r, a) ==>
                NotedIn(r.log, |p.log|, mid, Exited(p.trades[a].underlying, events[k].tick.now)))
            && (JustOpened(p, r, b) ==>
                NotedIn(r.log, mid, |r.log|, Entered(r.trades[b].underlying, events[k].tick.now)))
  {
    hide DoTick, NotedIn;
    mid := TickNotes(setup, After(setup, s, events, k), events[k].tick, a, b);
  }

  lemma InOrder(log: seq<Note>, lo: nat, m: nat, n: nat, first: Note, second: Note) returns (p: nat, q: nat)
    requires NotedIn(log, lo, m, first) && NotedIn(log, n, |log|, second) && m <= n
    ensures p < q < |log| && log[p] == first && log[q] == second
  {
    p :| lo <= p < m && p < |log| && log[p] == first;
    q :| n <= q < |log| && q < |log| && log[q] == second;
  }

  lemma {:induction false} NothingCoolsDown(s: State, ps: seq<Proposal>, now: int)
    requires s.cooldown == map[]
    ensures Dispatch(s, ps, now) == ps
  {
    if |ps| > 0 {
      NothingCoolsDown(s, ps[..|ps| - 1], now);
      assert Dispatched(s, ps[|ps| - 1], now);
    }
  }

  /** A restart forgets every cooldown: whatever is proposed right after it goes to the gate. */
  lemma RestartForgetsCooldowns(setup: Setup, s: State, date: int, ps: seq<Proposal>, now: int)
    ensures Dispatch(Restart(setup, s, date), ps, now) == ps
  {
    hide Boot, Dispatch;
    NothingCoolsDown(Restart(setup, s, date), ps, now);
  }

  /** A proposal goes to the gate unless it is a directional one on an underlying whose cooldown ends later than
      now. */
  lemma {:induction false} DispatchedIff(s: State, ps: seq<Proposal>, now: int, p: Proposal)
    ensures p in Dispatch(s, ps, now) <==>
            p in ps && !(p.intent.strategy == Directional && p.intent.underlying in s.cooldown
                         && now < s.cooldown[p.intent.underlying])
  {
    if |ps| > 0 {
      DispatchedIff(s, ps[..|ps| - 1], now, p);
      assert ps == ps[..|ps| - 1] + [ps[|ps| - 1]];
    }
  }

  /** The cooldown of an exit ends exactly when it should: until then nothing directional on the underlying goes
      to the gate, and from then on everything does. */
  lemma CooldownEnds(setup: Setup, s: State, k: nat, reply: Reply, now: int, ps: seq<Proposal>, later: int, p: Proposal)
    requires k < |s.trades| && s.trades[k].strategy == Directional && setup.exitCooldown > 0
    requires p in ps && p.intent.strategy == Directional && p.intent.underlying == s.trades[k].underlying
    ensures p in Dispatch(Exit(setup, s, k, reply, now), ps, later) <==> later >= now + setup.exitCooldown
  {
    hide Premium.RealisedPnl;
    DispatchedIff(Exit(setup, s, k, reply, now), ps, later, p);
  }

  /** So does the pause after a failed entry, of five minutes. */
  lemma FailurePauses(s: State, p: Proposal, z: Sizing, now: int, ps: seq<Proposal>, later: int, q: Proposal)
    requires !p.entry.success && p.intent.strategy == Directional
    requires q in ps && q.intent.strategy == Directional && q.intent.underlying == p.intent.underlying
    ensures q in Dispatch(Enter(s, p, z, now), ps, later) <==> later >= now + 5 * 60
  {
    hide Premium.PerLot, Router.NetPremium;
    DispatchedIff(Enter(s, p, z, now), ps, later, q);
  }
}
