/**
 The tick loop (bot/runtime/engine.py) with the NAV state it keeps (bot/runtime/nav_state.py,
 bot/risk/caps.py): exits, dispatch, gate and entries, breaker sync, peak update; beside it the
 daily rollup, the reconciler's closing of canceled trades, the operator's resume and restarts.

 Quotes, the clock, the strategies' proposals and the executor's replies come in as arbitrary
 inputs. Times are epoch seconds, dates are day numbers of the IST calendar (day 0 a Monday).
 A crash of the loop (an uncaught exception) leaves `alive` false until the next restart.
 */
module Engine {
  import opened Common
  import Router
  import opened Risk
  import Premium

  datatype Status = Open | Closed | Errored

  /** A row of `trades`. `risk` and `navAtEntry` record the approval that opened it. */
  datatype Trade = Trade(id: int, strategy: StrategyId, underlying: Underlying, lots: int, status: Status,
                         columns: Premium.Columns, realised: Option<real>, risk: real, navAtEntry: real)

  /** A row of `nav_history`. */
  datatype NavRow = NavRow(nav: real, peak: real, tripped: bool)

  /** What a daily rollup has read from the tracker and not yet committed. */
  datatype Captured = Captured(date: int, row: NavRow)

  /** Directional exits and entries in the order in which they were carried out. */
  datatype Note = Exited(underlying: Underlying, at: int) | Entered(underlying: Underlying, at: int)

  datatype State = State(trades: seq<Trade>, nav: Nav, history: map<int, NavRow>, marker: bool,
                         cooldown: map<Underlying, int>, lastDate: Option<int>, alive: bool, log: seq<Note>,
                         rollup: Option<Captured>)

  /** Constants of a deployment. `exitCooldown` is the configured pause in seconds. */
  datatype Setup = Setup(risk: Config, baseNav: real, exitCooldown: int)

  const ENTRY_FAILURE_COOLDOWN := 300

  /** The executor's answer to a CLOSE directive or to an entry. */
  datatype Reply = Reply(success: bool, fills: seq<Router.LegFill>)

  datatype Proposal = Proposal(intent: Intent, desk: Desk, entry: Reply)

  /** One tick's inputs; `exits` holds the trades for which the exit engine issues a CLOSE. */
  datatype Tick = Tick(now: int, date: int, utcWeekday: int, windowOpen: bool, usdInr: real,
                       exits: map<int, Reply>, proposals: seq<Proposal>)

  // ------------------------------------------------------------------ bookkeeping

  function CountOpen(trades: seq<Trade>): nat {
    if |trades| == 0 then 0
    else CountOpen(trades[..|trades| - 1]) + if trades[|trades| - 1].status == Open then 1 else 0
  }

  function CountFor(trades: seq<Trade>, id: StrategyId): nat {
    if |trades| == 0 then 0
    else
      var t := trades[|trades| - 1];
      CountFor(trades[..|trades| - 1], id) + if t.status == Open && t.strategy == id then 1 else 0
  }

  /** `sum_realised_pnl_inr`: closed trades only, and a missing PnL counts as nothing. */
  function SumRealised(trades: seq<Trade>): real {
    if |trades| == 0 then 0.0
    else SumRealised(trades[..|trades| - 1]) + Booked(trades[|trades| - 1])
  }

  function Booked(t: Trade): real {
    if t.status == Closed && t.realised.Some? then t.realised.value else 0.0
  }

  function Snapshot(trades: seq<Trade>): Accounting {
    Accounting(CountOpen(trades), map[Directional := CountFor(trades, Directional),
                                      CreditVertical := CountFor(trades, CreditVertical),
                                      LongStraddle := CountFor(trades, LongStraddle)])
  }

  // ------------------------------------------------------------------ the phases of a tick

  function Roll(s: State, t: Tick): State {
    var nav := if s.lastDate.Some? && t.date > s.lastDate.value
               then s.nav.(openToday := s.nav.now, openWeek := if t.utcWeekday == 0 then s.nav.now else s.nav.openWeek)
               else s.nav;
    s.(nav := nav, lastDate := Some(t.date))
  }

  function ClosedTrade(t: Trade, fills: seq<Router.LegFill>): Trade {
    t.(status := Closed, realised := Some(Premium.RealisedPnl(t.columns, t.lots, fills)))
  }

  /** Carry out a CLOSE: book the PnL if the executor succeeded, start the cooldown either way. */
  function Exit(setup: Setup, s: State, k: nat, reply: Reply, now: int): State
    requires k < |s.trades|
  {
    var t := s.trades[k];
    var booked := if !reply.success then s
                  else s.(nav := s.nav.(now := s.nav.now + Premium.RealisedPnl(t.columns, t.lots, reply.fills)),
                       trades := s.trades[k := ClosedTrade(t, reply.fills)]);
    if t.strategy != Directional then booked
    else if setup.exitCooldown <= 0 then booked.(log := s.log + [Exited(t.underlying, now)])
    else booked.(cooldown := s.cooldown[t.underlying := now + setup.exitCooldown],
              log := s.log + [Exited(t.underlying, now)])
  }

  /** The exits of the first `k` trades. */
  function Exits(setup: Setup, s: State, t: Tick, k: nat): (r: State)
    requires k <= |s.trades|
    ensures |r.trades| == |s.trades|
  {
    if k == 0 then s
    else
      var p := Exits(setup, s, t, k - 1);
      if s.trades[k - 1].status == Open && s.trades[k - 1].id in t.exits
      then Exit(setup, p, k - 1, t.exits[s.trades[k - 1].id], t.now)
      else p
  }

  /** A directional strategy proposes nothing for an underlying that is cooling down. */
  predicate Dispatched(s: State, p: Proposal, now: int) {
    p.intent.strategy == Directional && p.intent.underlying in s.cooldown ==> s.cooldown[p.intent.underlying] <= now
  }

  function Dispatch(s: State, ps: seq<Proposal>, now: int): seq<Proposal> {
    if |ps| == 0 then []
    else Dispatch(s, ps[..|ps| - 1], now) + if Dispatched(s, ps[|ps| - 1], now) then [ps[|ps| - 1]] else []
  }

  function NewTrade(s: State, i: Intent, z: Sizing): Trade {
    Trade(|s.trades|, i.strategy, i.underlying, z.lots, Open, Premium.Columns(None, None), None, z.risk, s.nav.now)
  }

  /** Persist and execute an approved intent: an OPEN row first, then the executor's answer. */
  function Enter(s: State, p: Proposal, z: Sizing, now: int): State {
    var t := NewTrade(s, p.intent, z);
    var row := if p.entry.success then t.(columns := Premium.PerLot(Router.NetPremium(p.entry.fills), z.lots))
               else t.(status := Errored);
    s.(trades := s.trades + [row],
    cooldown := if p.intent.strategy == Directional && !p.entry.success
                then s.cooldown[p.intent.underlying := now + ENTRY_FAILURE_COOLDOWN] else s.cooldown,
    log := if p.intent.strategy == Directional then s.log + [Entered(p.intent.underlying, now)] else s.log)
  }

  /** Gate one intent and enter it if approved. */
  function Consider(setup: Setup, s: State, p: Proposal, t: Tick): State {
    if !s.alive then s
    else
      var z := Gate(setup.risk, s.nav, Snapshot(s.trades), p.intent, t.windowOpen, p.desk, t.usdInr);
      if z.None? then s.(alive := false)
      else if z.value.decision == Approved then Enter(s, p, z.value, t.now)
      else s
  }

  function Entries(setup: Setup, s: State, ps: seq<Proposal>, t: Tick): State {
    if |ps| == 0 then s else Consider(setup, Entries(setup, s, ps[..|ps| - 1], t), ps[|ps| - 1], t)
  }

  /** The row a trip writes for the current date. */
  function TripRow(s: State, date: int): NavRow {
    NavRow(s.nav.now, if date in s.history then Max(s.history[date].peak, s.nav.peak) else s.nav.peak, true)
  }

  /** Trip and persist; the history table refuses a negative NAV, which ends the loop. */
  function Trip(s: State, date: int): State {
    if s.nav.now < 0.0 then s.(alive := false)
    else s.(history := s.history[date := TripRow(s, date)], nav := s.nav.(tripped := true), marker := true)
  }

  function Sync(setup: Setup, s: State, date: int): State {
    if !s.alive || s.nav.tripped then s
    else
      var status := EvaluateCaps(setup.risk.caps, s.nav);
      if status.None? then s.(alive := false)
      else if status.value == CircuitBreaker then Trip(s, date)
      else s
  }

  function RaisePeak(s: State): State {
    if !s.alive then s else s.(nav := s.nav.(peak := Max(s.nav.peak, s.nav.now)))
  }

  /** One iteration of the main loop. */
  function DoTick(setup: Setup, s: State, t: Tick): State {
    if !s.alive then s
    else
      var exited := Exits(setup, Roll(s, t), t, |s.trades|);
      var entered := Entries(setup, exited, Dispatch(exited, t.proposals, t.now), t);
      RaisePeak(Sync(setup, entered, t.date))
  }

  // ------------------------------------------------------------------ beside the loop

  /** A daily rollup reads NAV, peak and flag when it starts; its loop runs one at a time. */
  function StartRollup(s: State, date: int): State {
    if s.rollup.Some? then s
    else s.(rollup := Some(Captured(date, NavRow(s.nav.now, Max(s.nav.peak, s.nav.now), s.nav.tripped))))
  }

  /** And it commits what it read sessions later, over whatever the row has become; a refused row is only
      logged. */
  function CommitRollup(s: State): State {
    if s.rollup.None? then s
    else
      var c := s.rollup.value;
      s.(rollup := None, history := if c.row.nav < 0.0 then s.history else s.history[c.date := c.row])
  }

  function LatestOf(dates: set<int>): (d: int)
    requires dates != {}
    ensures d in dates && forall x :: x in dates ==> x <= d
  {
    MaximumExists(dates);
    var d :| d in dates && forall x :: x in dates ==> x <= d;
    d
  }

  lemma HasElement(dates: set<int>)
    requires dates != {}
    ensures exists d :: d in dates
  {
    if forall d :: d !in dates {
      assert false;
    }
  }

  lemma {:induction false} MaximumExists(dates: set<int>)
    requires dates != {}
    ensures exists d :: d in dates && forall x :: x in dates ==> x <= d
    decreases |dates|
  {
    HasElement(dates);
    var y :| y in dates;
    var rest := dates - {y};
    if rest != {} {
      MaximumExists(rest);
      var m :| m in rest && forall x :: x in rest ==> x <= m;
      var d := if m < y then y else m;
      assert forall x :: x in dates ==> x == y || x in rest;
      assert d in dates && forall x :: x in dates ==> x <= d;
    } else {
      assert forall x :: x in dates ==> x == y;
    }
  }

  /** `load_nav_tracker`, then the marker file. */
  function Boot(setup: Setup, s: State, date: int): Nav {
    var now := setup.baseNav + SumRealised(s.trades);
    if |s.history| == 0 then Nav(now, now, now, now, s.marker)
    else
      var latest := LatestOf(s.history.Keys);
      var row := s.history[latest];
      var openToday := if date in s.history then s.history[date].nav
                       else if date - 1 in s.history then s.history[date - 1].nav
                       else now;
      var weekStart := date - date % 7;
      var openWeek := if latest >= weekStart then row.nav else openToday;
      Nav(now, openToday, openWeek, Max(now, row.peak), row.tripped || s.marker)
  }

  /** A new process: cooldowns, the last seen date, an unfinished rollup and any crash are forgotten. */
  function Restart(setup: Setup, s: State, date: int): State {
    s.(nav := Boot(setup, s, date), cooldown := map[], lastDate := None, alive := true, rollup := None)
  }

  /** The reconciler closes trades whose leg orders were all canceled; no PnL is booked. */
  function ReconcileClose(s: State, ids: set<int>): State {
    s.(trades := seq(|s.trades|, i requires 0 <= i < |s.trades| =>
         if s.trades[i].status == Open && s.trades[i].id in ids then s.trades[i].(status := Closed) else s.trades[i]))
  }

  /** `make resume --confirm`: clears the flag of the latest row and leaves circuit_breaker.json. */
  function Resume(s: State): State {
    if |s.history| == 0 then s
    else
      var latest := LatestOf(s.history.Keys);
      s.(history := s.history[latest := s.history[latest].(tripped := false)])
  }

  datatype Event =
    | TickEvent(tick: Tick)
    | RollupStartEvent(date: int)
    | RollupCommitEvent
    | RestartEvent(date: int, closed: set<int>)  // reconcile, then boot
    | ResumeEvent
    | MarkerLostEvent                            // circuit_breaker.json is removed

  function Apply(setup: Setup, s: State, e: Event): State {
    match e
    case TickEvent(t) => DoTick(setup, s, t)
    case RollupStartEvent(date) => StartRollup(s, date)
    case RollupCommitEvent => CommitRollup(s)
    case RestartEvent(date, closed) => Restart(setup, ReconcileClose(s, closed), date)
    case ResumeEvent => Resume(s)
    case MarkerLostEvent => s.(marker := false)
  }

  /** The state after the first `k` events. */
  function After(setup: Setup, s: State, events: seq<Event>, k: nat): State
    requires k <= |events|
  {
    if k == 0 then s else Apply(setup, After(setup, s, events, k - 1), events[k - 1])
  }
}
