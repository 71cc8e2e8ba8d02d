/** What a tick does to the trades table, row by row (bot/runtime/engine.py). */
module EngineTrades {
  import opened Common
  import opened Risk
  import opened RiskGate
  import opened Engine
  import EngineAccounting
  import Premium
  import Router

  // ------------------------------------------------------------------ exits

  /** One CLOSE: if the executor succeeded the row is closed with what its entry and exit cashflows leave, and NAV
      moves by that; otherwise nothing is booked. Only a directional close touches a cooldown, that of its own
      underlying, and only if one is configured. */
  lemma ExitIs(setup: Setup, s: State, k: nat, reply: Reply, now: int)
    requires k < |s.trades|
    ensures var r, t := Exit(setup, s, k, reply, now), s.trades[k];
            var pnl := Premium.EntryCashflow(t.columns, t.lots) - Router.NetPremium(reply.fills);
            && |r.trades| == |s.trades|
            && (forall i :: 0 <= i < |s.trades| && i != k ==> r.trades[i] == s.trades[i])
            && (reply.success ==> r.trades[k] == t.(status := Closed, realised := Some(pnl))
                                  && r.nav == s.nav.(now := s.nav.now + pnl))
            && (!reply.success ==> r.trades == s.trades && r.nav == s.nav)
            && (t.strategy == Directional && setup.exitCooldown > 0 ==>
                  r.cooldown == s.cooldown[t.underlying := now + setup.exitCooldown])
            && (t.strategy != Directional || setup.exitCooldown <= 0 ==> r.cooldown == s.cooldown)
            && r.history == s.history && r.marker == s.marker && r.lastDate == s.lastDate && r.alive == s.alive
  {
    hide Premium.EntryCashflow, Router.NetPremium;
  }

  /** The exits of a tick: row by row, exactly the open trades with a CLOSE that succeeded are closed. */
  lemma {:induction false} ExitsAre(setup: Setup, s: State, t: Tick, k: nat, i: nat)
    requires k <= |s.trades| && i < |s.trades|
    ensures var u := s.trades[i];
            Exits(setup, s, t, k).trades[i]
            == if i < k && u.status == Open && u.id in t.exits && t.exits[u.id].success
               then u.(status := Closed,
                       realised := Some(Premium.EntryCashflow(u.columns,
                                                              u.lots) - Router.NetPremium(t.exits[u.id].fills)))
               else u
  {
    hide Exit, Premium.EntryCashflow, Router.NetPremium;
    if k > 0 {
      ExitsAre(setup, s, t, k - 1, i);
      ExitsAre(setup, s, t, k - 1, k - 1);
      if s.trades[k - 1].status == Open && s.trades[k - 1].id in t.exits {
        ExitIs(setup, Exits(setup, s, t, k - 1), k - 1, t.exits[s.trades[k - 1].id], t.now);
      }
    }
  }

  // ------------------------------------------------------------------ entries

  /** The row of an approved proposal: its strategy and underlying, the largest size that fits, and, if the executor
      succeeded, open with columns that give back the net premium of its fills; errored otherwise. */
  ghost predicate IsRowOf(setup: Setup, s: State, p: Proposal, t: Tick, u: Trade)
    requires p.intent.strategy in setup.risk.strategies
  {
    && u.id == |s.trades| && u.strategy == p.intent.strategy && u.underlying == p.intent.underlying
    && FitsHere(setup, s, p, t, u.lots) && (forall n :: FitsHere(setup, s, p, t, n) ==> n <= u.lots)
    && AtRisk(p.intent).Some? && u.risk == u.lots as real * AtRisk(p.intent).value && u.navAtEntry == s.nav.now
    && u.realised.None?
    && (p.entry.success ==>
          u.status == Open && Premium.EntryCashflow(u.columns, u.lots) == -Router.NetPremium(p.entry.fills))
    && (!p.entry.success ==> u.status == Errored && u.columns == Premium.Columns(None, None))
  }

  predicate FitsHere(setup: Setup, s: State, p: Proposal, t: Tick, n: int)
    requires p.intent.strategy in setup.risk.strategies
  {
    Fits(setup.risk, setup.risk.strategies[p.intent.strategy], s.nav.now, p.intent, p.desk, t.usdInr, n)
  }

  /** The proposal gets past every check of the gate. */
  predicate Accepted(setup: Setup, s: State, p: Proposal, t: Tick) {
    && s.alive
    && Admitted(setup.risk, s.nav, Snapshot(s.trades), p.intent, t.windowOpen, p.desk)
    && FitsHere(setup, s, p, t, 1)
  }

  /** One proposal: an accepted one adds its row, any other adds nothing. A cooldown is written only for a
      directional entry that failed. */
  lemma ConsiderIs(setup: Setup, s: State, p: Proposal, t: Tick)
    requires setup.risk.caps.Valid()
    ensures var r := Consider(setup, s, p, t);
            && (Accepted(setup, s, p, t) ==>
                  && |r.trades| == |s.trades| + 1 && s.trades <= r.trades
                  && IsRowOf(setup, s, p, t, r.trades[|s.trades|])
                  && r.cooldown == if p.intent.strategy == Directional && !p.entry.success
                                   then s.cooldown[p.intent.underlying := t.now + 300] else s.cooldown)
            && (!Accepted(setup, s, p, t) ==> r == s.(alive := r.alive))
  {
    hide Gate, Snapshot, Fits, LostPart, Router.NetPremium;
    var z := Gate(setup.risk, s.nav, Snapshot(s.trades), p.intent, t.windowOpen, p.desk, t.usdInr);
    ApprovedIff(setup.risk, s.nav, Snapshot(s.trades), p.intent, t.windowOpen, p.desk, t.usdInr, 1);
    if s.alive && z.Some? && z.value.decision == Approved {
      forall n | FitsHere(setup, s, p, t, n) ensures n <= z.value.lots {
        ApprovedIff(setup.risk, s.nav, Snapshot(s.trades), p.intent, t.windowOpen, p.desk, t.usdInr, n);
      }
      FitsMeans(setup, s, p, t, z.value.lots);
      EnteredRow(setup, s, p, z.value, t);
    }
  }

  lemma FitsMeans(setup: Setup, s: State, p: Proposal, t: Tick, n: int)
    requires p.intent.strategy in setup.risk.strategies && FitsHere(setup, s, p, t, n)
    ensures n >= 1 && AtRisk(p.intent).Some?
  {
  }

  lemma EnteredRow(setup: Setup, s: State, p: Proposal, z: Sizing, t: Tick)
    requires p.intent.strategy in setup.risk.strategies && z.lots >= 1 && AtRisk(p.intent).Some?
    requires FitsHere(setup, s, p, t, z.lots) && (forall n :: FitsHere(setup, s, p, t, n) ==> n <= z.lots)
    requires z.risk == z.lots as real * AtRisk(p.intent).value
    ensures var r := Enter(s, p, z, t.now);
            && |r.trades| == |s.trades| + 1 && s.trades <= r.trades && IsRowOf(setup, s, p, t, r.trades[|s.trades|])
  {
    hide FitsHere, AtRisk, Premium.PerLot, Premium.EntryCashflow, Router.NetPremium;
    Premium.SplitRecombines(Router.NetPremium(p.entry.fills), z.lots);
  }

  lemma {:induction false} EntriesPrefix(setup: Setup, s: State, ps: seq<Proposal>, t: Tick, k: nat)
    requires k <= |ps|
    ensures Entries(setup, s, ps[..k], t).trades <= Entries(setup, s, ps, t).trades
  {
    hide Gate, Snapshot, Premium.PerLot, Router.NetPremium;
    if k < |ps| {
      var init := ps[..|ps| - 1];
      assert init[..k] == ps[..k];
      EntriesPrefix(setup, s, init, t, k);
    } else {
      assert ps[..k] == ps;
    }
  }

  /** No accepted proposal is passed over: each one, judged on the state its predecessors left, has its row in
      the table the entries end with, in its place. */
  lemma EveryAcceptedOpens(setup: Setup, s: State, ps: seq<Proposal>, t: Tick, k: nat)
    requires setup.risk.caps.Valid() && k < |ps| && Accepted(setup, Entries(setup, s, ps[..k], t), ps[k], t)
    ensures var m, r := Entries(setup, s, ps[..k], t), Entries(setup, s, ps, t);
            && |m.trades| < |r.trades|
            && ps[k].intent.strategy in setup.risk.strategies && IsRowOf(setup, m, ps[k], t, r.trades[|m.trades|])
  {
    hide Consider, Accepted, IsRowOf;
    AcceptedIsKnown(setup, Entries(setup, s, ps[..k], t), ps[k], t);
    assert ps[..k + 1][..k] == ps[..k];
    assert Entries(setup, s, ps[..k + 1], t) == Consider(setup, Entries(setup, s, ps[..k], t), ps[k], t);
    ConsiderIs(setup, Entries(setup, s, ps[..k], t), ps[k], t);
    EntriesPrefix(setup, s, ps, t, k + 1);
  }

  lemma AcceptedIsKnown(setup: Setup, s: State, p: Proposal, t: Tick)
    requires Accepted(setup, s, p, t)
    ensures p.intent.strategy in setup.risk.strategies
  {
  }

  /** A tick in full: the rows it found are as its exits left them, and behind them stand the rows of exactly
      the dispatched proposals that were accepted, none of them skipped. */
  lemma TickIs(setup: Setup, s: State, t: Tick, i: nat)
    requires s.alive
    ensures var exited := Exits(setup, Roll(s, t), t, |s.trades|);
            var r := DoTick(setup, s, t);
            && r.trades == Entries(setup, exited, Dispatch(exited, t.proposals, t.now), t).trades
            && |s.trades| <= |r.trades|
            && (i < |s.trades| ==> r.trades[i] == exited.trades[i])
  {
    hide Exits, Dispatch, EvaluateCaps, Gate;
    var exited := Exits(setup, Roll(s, t), t, |s.trades|);
    EngineAccounting.EntriesExtend(setup, exited, Dispatch(exited, t.proposals, t.now), t);
    hide Entries;
  }

  // ------------------------------------------------------------------ the reconciler's closes

  /** Reconciling closes exactly the open trades it was told to, without a PnL, and nothing else changes. */
  lemma ReconcileClosesExactly(s: State, ids: set<int>, i: nat)
    requires i < |s.trades|
    ensures var r := ReconcileClose(s, ids);
            && r == s.(trades := r.trades) && |r.trades| == |s.trades|
            && (s.trades[i].status == Open && s.trades[i].id in ids ==> r.trades[i] == s.trades[i].(status := Closed))
            && (s.trades[i].status != Open || s.trades[i].id !in ids ==> r.trades[i] == s.trades[i])
  {
  }
}
