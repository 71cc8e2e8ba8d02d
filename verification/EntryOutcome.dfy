/** Whole runs of a live entry, its rollback and what follows (bot/execution/live.py). */
module EntryOutcome {
  import opened Common
  import opened Router
  import opened LiveEntry

  /** Any interleaving of the legs' steps, the rollback's and the exchange's. */
  datatype Run = Run(states: seq<State>, events: seq<Event>) {
    ghost predicate StepOk(req: Request, k: nat)
      requires k < |events| && |states| == |events| + 1
    {
      Enabled(req, states[k], events[k]) && states[k + 1] == Next(req, states[k], events[k])
    }

    ghost predicate From(req: Request, s: State) {
      && |states| == |events| + 1
      && states[0] == s
      && forall k: nat :: k < |events| ==> StepOk(req, k)
    }

    /** A run from the very beginning. */
    ghost predicate Legal(req: Request) {
      From(req, Initial(req))
    }

    function Last(): State
      requires |states| > 0
    {
      states[|states| - 1]
    }
  }

  lemma {:induction false} InvAlong(req: Request, s: State, run: Run, k: nat)
    requires req.Valid() && Inv(req, s) && run.From(req, s) && k <= |run.events|
    ensures Inv(req, run.states[k])
  {
    hide Inv, Enabled, Next;
    if k > 0 {
      InvAlong(req, s, run, k - 1);
      assert run.StepOk(req, k - 1);
      NextKeepsInv(req, run.states[k - 1], run.events[k - 1]);
    }
  }

  lemma InvHolds(req: Request, run: Run, k: nat)
    requires req.Valid() && run.Legal(req) && k <= |run.events|
    ensures Inv(req, run.states[k])
  {
    InitialOk(req);
    InvAlong(req, Initial(req), run, k);
  }

  // ------------------------------------------------------------------ exposure

  /** What a leg's abandoned maker order filled: the part its report does not show. */
  function Residue(s: State, i: nat): real
    requires i < |s.legs|
  {
    if s.legs[i].Done? && s.legs[i].via.ViaIoc? then FilledBy(s, Maker(i)) else 0.0
  }

  /** What a leg's IOC order filled after the reply that was reported. */
  function Late(s: State, i: nat): real
    requires i < |s.legs|
  {
    if s.legs[i].Done? && s.legs[i].via.ViaIoc? then FilledBy(s, Ioc(i)) - s.legs[i].report.filled else 0.0
  }

  /** In every reachable state, before, during and after the rollback, a finished leg's true position is
      its reported fill, plus the residue of its maker order, plus what its IOC order filled later, less
      what the rollback took off. A terminal report has nothing late, a complete one shows the whole size. */
  lemma Exposure(req: Request, run: Run, k: nat, i: nat)
    requires req.Valid() && run.Legal(req) && k <= |run.events| && i < |req.legs|
    requires i < |run.states[k].legs| && run.states[k].legs[i].Done?
    ensures var s := run.states[k];
            var report := s.legs[i].report;
            && Pos(s, req.legs[i].symbol)
               == Signed(req.legs[i].side, report.filled + Residue(s, i) + Late(s, i) - FilledBy(s, Unwind(i)))
            && 0.0 <= Residue(s, i) <= req.lots
            && 0.0 <= Late(s, i) && 0.0 <= report.filled && report.filled + Late(s, i) <= req.lots
            && 0.0 <= FilledBy(s, Unwind(i)) <= report.filled
            && report.symbol == req.legs[i].symbol && report.side == req.legs[i].side
            && (!report.state.Live() ==> Late(s, i) == 0.0)
            && (report.IsComplete() ==> report.filled == req.lots)
  {
    InvHolds(req, run, k);
    assert LegOk(req, run.states[k], i);
  }

  /** No reachable state, even after REST errors, holds the wrong side of a leg or more than twice its size. */
  lemma ExposureBounded(req: Request, run: Run, k: nat, i: nat)
    requires req.Valid() && run.Legal(req) && k <= |run.events| && i < |req.legs|
    ensures 0.0 <= Signed(req.legs[i].side, Pos(run.states[k], req.legs[i].symbol)) <= 2.0 * req.lots
  {
    InvHolds(req, run, k);
    assert LegOk(req, run.states[k], i);
    ReportBacked(req, run.states[k], i);
  }

  // ------------------------------------------------------------------ finality

  /** A finished leg with no live order left, apart from a close. */
  predicate Settled(s: State, i: nat) {
    i < |s.legs| && s.legs[i].Done? && Dead(s, Maker(i)) && Dead(s, Ioc(i))
  }

  /** Unless its maker cancel failed or its IOC order was still open when the wait ended, a finished leg
      is settled. */
  lemma FinishedIsSettled(req: Request, run: Run, k: nat, i: nat)
    requires req.Valid() && run.Legal(req) && k <= |run.events| && i < |req.legs|
    requires i < |run.states[k].legs| && run.states[k].legs[i].Done?
    requires run.states[k].legs[i].via != ViaIoc(false) && !run.states[k].legs[i].report.state.Live()
    ensures Settled(run.states[k], i)
  {
    InvHolds(req, run, k);
    assert LegOk(req, run.states[k], i);
  }

  lemma SettledStep(req: Request, s: State, e: Event, i: nat)
    requires req.Valid() && Inv(req, s) && Enabled(req, s, e) && Settled(s, i)
    ensures var t := Next(req, s, e);
            && |t.legs| == |s.legs| && t.legs[i] == s.legs[i]
            && SameOrder(s, t, Maker(i)) && SameOrder(s, t, Ioc(i))
  {
    hide Pos, StageOk, LegOk;
    if !e.Gather? {
      NextOnlyLeg(req, s, e);
    }
  }

  /** Once settled, nothing that the other legs, the rollback or the exchange do changes a leg's report,
      its residue or what its entry orders filled. */
  lemma {:induction false} SettledForever(req: Request, s: State, run: Run, k: nat, i: nat)
    requires req.Valid() && Inv(req, s) && run.From(req, s) && k <= |run.events| && Settled(s, i)
    ensures Settled(run.states[k], i) && run.states[k].legs[i] == s.legs[i]
    ensures SameOrder(s, run.states[k], Maker(i)) && SameOrder(s, run.states[k], Ioc(i))
  {
    hide Inv, Enabled, Next;
    if k > 0 {
      SettledForever(req, s, run, k - 1, i);
      InvAlong(req, s, run, k - 1);
      assert run.StepOk(req, k - 1);
      SettledStep(req, run.states[k - 1], run.events[k - 1], i);
    }
  }

  // ------------------------------------------------------------------ what ends a leg

  /** A leg that is still at work ends with a report exactly when it has no quote, when the placement of an order
      is answered with a whole fill, when a poll finds its maker order filled or its IOC order ended in any
      way, or when the IOC wait runs out. Nothing else ends it, and in particular no maker order that is
      merely partly filled or cancelled does. */
  lemma EndsIff(req: Request, s: State, e: Event)
    requires req.Valid() && Inv(req, s) && Enabled(req, s, e) && !e.Gather? && !s.legs[LegOf(e)].Ended()
    ensures var leg := s.legs[LegOf(e)];
            Next(req, s, e).legs[LegOf(e)].Done? <==>
              || e.NoQuote?
              || (e.PlaceMaker? && e.reply.state == WireState.Filled)
              || (e.PlaceIoc? && e.reply.state == WireState.Filled)
              || (e.Poll? && e.found && leg.MakerWait? && s.orders[Maker(e.i)].state == WireState.Filled)
              || (e.Poll? && e.found && leg.IocWait? && !s.orders[Ioc(e.i)].state.Live())
              || (e.Timeout? && leg.IocWait?)
  {
    hide Put, CancelOrder, Undo, Pos, StageOk;
    assert LegOk(req, s, LegOf(e));
    assert Book(req, s, e).legs == s.legs by {
      BookKeepsLegs(req, s, e);
    }
  }

  /** The course of a leg otherwise: it waits for its maker order as long as polls find nothing or find it live,
      gives up on it exactly when a poll finds it ended unfilled or the wait runs out, tries its cancel once,
      falls back to the IOC order whatever comes of that, and waits for that one in the same way. */
  lemma LegCourse(req: Request, s: State, e: Event)
    requires req.Valid() && Inv(req, s) && Enabled(req, s, e) && !e.Gather?
    ensures var leg, next := s.legs[LegOf(e)], Next(req, s, e).legs[LegOf(e)];
            && (leg.MakerWait? && e.Poll? && (!e.found || s.orders[Maker(e.i)].state.Live()) ==> next.MakerWait?)
            && (leg.MakerWait? ==>
                  (next.Cancelling? <==>
                     || e.Timeout?
                     || (e.Poll? && e.found && !s.orders[Maker(e.i)].state.Live()
                         && s.orders[Maker(e.i)].state != WireState.Filled)))
            && (leg.Start? && e.PlaceMaker? && e.reply.state != WireState.Filled ==> next.MakerWait?)
            && (next.Fallback? && !leg.Fallback? <==> e.Cancel?)
            && (e.Cancel? ==> next == Fallback(e.ok))
            && (leg.Fallback? && e.PlaceIoc? && e.reply.state != WireState.Filled ==> next.IocWait?)
            && (leg.IocWait? && e.Poll? && (!e.found || s.orders[Ioc(e.i)].state.Live()) ==> next.IocWait?)
            && (e.Raise? <==> next.Raised? && !leg.Raised?)
            && (e.Execute? || e.Rollback? ==> next == leg)
  {
    hide Put, CancelOrder, Undo, Pos, StageOk;
    assert LegOk(req, s, LegOf(e));
    BookKeepsLegs(req, s, e);
  }

  /** A maker order that fills whole ends its leg, as soon as a poll or its own placement shows it: reported in
      full, and with no IOC order. */
  lemma MakerFillEndsLeg(req: Request, s: State, e: Event)
    requires req.Valid() && Inv(req, s) && Enabled(req, s, e)
    requires (e.PlaceMaker? && e.reply.state == WireState.Filled)
             || (e.Poll? && e.found && s.legs[e.i].MakerWait? && s.orders[Maker(e.i)].state == WireState.Filled)
    ensures var t := Next(req, s, e);
            && t.legs[e.i].Done? && t.legs[e.i].via == ViaMaker
            && t.legs[e.i].report.filled == req.lots && t.legs[e.i].report.IsComplete()
            && Ioc(e.i) !in t.orders
  {
    hide CancelOrder, Undo, Pos, StageOk;
    assert LegOk(req, s, e.i);
    EndsIff(req, s, e);
  }

  /** And that is the end of it: in every continuation the leg never gets an IOC order, and holds exactly the
      size less what a rollback has taken off. */
  lemma NoSecondOrder(req: Request, s: State, run: Run, k: nat, i: nat)
    requires req.Valid() && Inv(req, s) && run.From(req, s) && k <= |run.events| && i < |req.legs|
    requires i < |s.legs| && s.legs[i].Done? && s.legs[i].via == ViaMaker
    ensures var t := run.states[k];
            && Ioc(i) !in t.orders
            && Pos(t, req.legs[i].symbol) == Signed(req.legs[i].side, req.lots - FilledBy(t, Unwind(i)))
  {
    assert LegOk(req, s, i);
    SettledForever(req, s, run, k, i);
    InvAlong(req, s, run, k);
    assert LegOk(req, run.states[k], i);
    hide Inv, Enabled, Next;
  }

  /** The reply of the leg's last poll of its IOC order between steps `j` and `k`, if it found the order. */
  function LastSeen(run: Run, j: nat, k: nat, i: nat): Option<Order>
    requires j <= k <= |run.events| && |run.states| == |run.events| + 1
  {
    if j == k then None
    else
      var e := run.events[k - 1];
      if e.Poll? && e.i == i
      then if e.found && Ioc(i) in run.states[k - 1].orders then Some(run.states[k - 1].orders[Ioc(i)]) else None
      else LastSeen(run, j, k - 1, i)
  }

  /** While a leg waits for its IOC order it remembers the placement's reply and its last poll. */
  lemma {:induction false} WaitRemembers(req: Request, s: State, run: Run, k: nat, i: nat)
    requires req.Valid() && Inv(req, s) && run.From(req, s) && k <= |run.events| && i < |s.legs|
    requires s.legs[i].IocWait? && s.legs[i].last.None?
    requires i < |run.states[k].legs| && run.states[k].legs[i].IocWait?
    ensures run.states[k].legs[i] == s.legs[i].(last := LastSeen(run, 0, k, i))
  {
    hide Inv, Enabled, Next;
    if k > 0 {
      InvAlong(req, s, run, k - 1);
      assert run.StepOk(req, k - 1);
      PastFallback(req, s, run, 0, k - 1, i);
      PastFallback(req, s, run, k - 1, k, i);
      WaitRemembers(req, s, run, k - 1, i);
      WaitMemory(req, run.states[k - 1], run.events[k - 1], i);
    }
  }

  lemma PastFallbackStep(req: Request, s: State, e: Event, i: nat)
    requires Inv(req, s) && Enabled(req, s, e) && i < |s.legs| && (s.legs[i].IocWait? || s.legs[i].Ended())
    ensures var t := Next(req, s, e);
            && i < |t.legs| && (t.legs[i].IocWait? || t.legs[i].Ended())
            && (s.legs[i].Ended() ==> t.legs[i] == s.legs[i])
  {
    hide Put, CancelOrder, Undo, Pos, StageOk, LegOk;
    if !e.Gather? {
      BookKeepsLegs(req, s, e);
    }
  }

  /** From its IOC wait a leg can only go on waiting or end, and an ended leg stays as it is. */
  lemma {:induction false} PastFallback(req: Request, s: State, run: Run, j: nat, k: nat, i: nat)
    requires req.Valid() && Inv(req, s) && run.From(req, s) && j <= k <= |run.events|
    requires i < |run.states[j].legs| && (run.states[j].legs[i].IocWait? || run.states[j].legs[i].Ended())
    ensures i < |run.states[k].legs| && (run.states[k].legs[i].IocWait? || run.states[k].legs[i].Ended())
    ensures run.states[j].legs[i].Ended() ==> run.states[k].legs[i] == run.states[j].legs[i]
  {
    hide Inv, Enabled, Next;
    if j < k {
      PastFallback(req, s, run, j, k - 1, i);
      InvAlong(req, s, run, k - 1);
      assert run.StepOk(req, k - 1);
      PastFallbackStep(req, run.states[k - 1], run.events[k - 1], i);
    }
  }

  lemma WaitMemory(req: Request, s: State, e: Event, i: nat)
    requires Inv(req, s) && Enabled(req, s, e) && i < |s.legs| && s.legs[i].IocWait?
    requires i < |Next(req, s, e).legs| && Next(req, s, e).legs[i].IocWait?
    ensures Next(req, s, e).legs[i]
            == if e.Poll? && e.i == i then s.legs[i].(last := if e.found then Some(s.orders[Ioc(i)]) else None)
              else s.legs[i]
    ensures e.Poll? && e.i == i ==> Ioc(i) in s.orders
  {
    hide Put, CancelOrder, Undo, Pos, StageOk, LegOk;
    if !e.Gather? {
      BookKeepsLegs(req, s, e);
    }
  }

  /** When the IOC wait runs out the leg reports what its last poll showed, or the placement's reply if that
      poll found nothing. */
  lemma TimeoutReports(req: Request, s: State, run: Run, i: nat)
    requires req.Valid() && Inv(req, s) && run.From(req, s) && i < |req.legs| && i < |s.legs|
    requires s.legs[i].IocWait? && s.legs[i].last.None?
    requires i < |run.Last().legs| && run.Last().legs[i].IocWait? && Enabled(req, run.Last(), Timeout(i))
    ensures var seen := LastSeen(run, 0, |run.events|, i);
            var t := Next(req, run.Last(), Timeout(i));
            && t.legs[i].Done?
            && t.legs[i].report == if seen.Some? then ToFill(req, Ioc(i), seen.value) else s.legs[i].fill
  {
    WaitRemembers(req, s, run, |run.events|, i);
    hide Inv, ToFill;
  }

  /** What an order has filled it keeps: cancels, polls, rollbacks and other orders take nothing back. */
  lemma {:induction false} FillsNeverShrink(req: Request, s: State, run: Run, k: nat, id: OrderId)
    requires req.Valid() && Inv(req, s) && run.From(req, s) && k <= |run.events| && id in s.orders
    ensures id in run.states[k].orders && run.states[k].orders[id].filled >= s.orders[id].filled
  {
    hide Inv, Enabled, Next;
    if k > 0 {
      FillsNeverShrink(req, s, run, k - 1, id);
      InvAlong(req, s, run, k - 1);
      assert run.StepOk(req, k - 1);
      FillStep(req, run.states[k - 1], run.events[k - 1], id);
    }
  }

  lemma FillStep(req: Request, s: State, e: Event, id: OrderId)
    requires Inv(req, s) && Enabled(req, s, e) && id in s.orders
    ensures id in Next(req, s, e).orders && Next(req, s, e).orders[id].filled >= s.orders[id].filled
  {
    hide Move, Pos, Reducible, PositionOk;
    if !e.Gather? {
      assert LegOk(req, s, LegOf(e));
    }
  }

  // ------------------------------------------------------------------ polling

  /** The polling loop: `clock` and `replies` are what successive iterations would read and receive.
      The result is the first terminal reply before the deadline, or else the last reply. */
  method WaitForOrder(start: real, timeout: real, clock: seq<real>, replies: seq<Option<Order>>)
    returns (last: Option<Order>, polls: nat)
    requires |clock| == |replies|
    ensures polls <= |clock| && last == if polls == 0 then None else replies[polls - 1]
    ensures forall k :: 0 <= k < polls ==> clock[k] < start + Max(0.0, timeout)
    ensures forall k :: 0 <= k < polls - 1 ==> replies[k].None? || replies[k].value.state.Live()
    ensures || (polls > 0 && last.Some? && !last.value.state.Live())
            || polls == |clock|
            || clock[polls] >= start + Max(0.0, timeout)
  {
    var deadline := start + Max(0.0, timeout);
    last, polls := None, 0;
    while polls < |clock| && clock[polls] < deadline
      invariant polls <= |clock| && last == if polls == 0 then None else replies[polls - 1]
      invariant forall k :: 0 <= k < polls ==>
                  clock[k] < deadline && (replies[k].None? || replies[k].value.state.Live())
    {
      last := replies[polls];
      polls := polls + 1;
      if last.Some? && !last.value.state.Live() {
        return;
      }
    }
  }

  // ------------------------------------------------------------------ the rollback loop

  datatype Action = RollbackClose(symbol: string) | RollbackCloseFailed(symbol: string)
                  | CancelSent(symbol: string) | CancelFailed(symbol: string)

  /** The recorded action for one fill, if any. */
  function ActionFor(f: LegFill, known: set<string>, a: Answer): seq<Action> {
    if f.filled > 0.0 then
      if f.symbol !in known then []
        else [if a.Confirmed() then RollbackClose(f.symbol) else RollbackCloseFailed(f.symbol)]
    else if HasOrder(f) then [if a.Confirmed() then CancelSent(f.symbol) else CancelFailed(f.symbol)]
    else []
  }

  function ActionsFor(fills: seq<LegFill>, known: set<string>, answers: seq<Answer>): seq<Action>
    requires |fills| == |answers|
  {
    if |fills| == 0 then []
    else
      var n := |fills| - 1;
      ActionsFor(fills[..n], known, answers[..n]) + ActionFor(fills[n], known, answers[n])
  }

  /** The exchange's moves while the bot awaits; a move that is not possible does not happen. */
  function Exchanged(req: Request, s: State, moves: seq<Event>): State {
    if |moves| == 0 then s
    else
      var t, e := Exchanged(req, s, moves[..|moves| - 1]), moves[|moves| - 1];
      if e.Execute? && Enabled(req, t, e) then Next(req, t, e) else t
  }

  /** The state after the rollback loop has handled the first `k` fills, with the exchange acting before
      each of them, or when an exception left the loop. */
  function RolledBack(req: Request, s: State, answers: seq<Answer>, moves: seq<seq<Event>>, k: nat): State
    requires k <= |answers| == |moves|
  {
    if k == 0 then s
    else
      var before := RolledBack(req, s, answers, moves, k - 1);
      if before.stage == Aborted then before
      else
        var t := Exchanged(req, before, moves[k - 1]);
        var e := Rollback(k - 1, answers[k - 1]);
        if Enabled(req, t, e) then Next(req, t, e) else t
  }

  class Venue {
    var s: State

    constructor (s: State)
      ensures this.s == s
    {
      this.s := s;
    }

    /** The exchange acts on its own. */
    method Trade(req: Request, moves: seq<Event>)
      modifies this
      ensures s == Exchanged(req, old(s), moves)
    {
      for i := 0 to |moves|
        invariant s == Exchanged(req, old(s), moves[..i])
      {
        assert moves[..i + 1][..i] == moves[..i];
        if moves[i].Execute? && Enabled(req, s, moves[i]) {
          s := Next(req, s, moves[i]);
        }
      }
      assert moves[..|moves|] == moves;
    }

    /** A reduce-only close of a position held on the leg's side: it moves that position towards zero, never
        through it, by at most `size`, and no other position at all. */
    method PlaceReduceOnly(req: Request, i: nat, size: real, a: Answer) returns (ok: bool)
      requires i < |req.legs| && Unwind(i) !in s.orders
      modifies this
      ensures ok == a.Confirmed() && s == PlaceUnwind(req, old(s), i, size, a)
      ensures forall symbol :: symbol != req.legs[i].symbol ==> Pos(s, symbol) == Pos(old(s), symbol)
      ensures var side, symbol := req.legs[i].side, req.legs[i].symbol;
              var before, after := Signed(side, Pos(old(s), symbol)), Signed(side, Pos(s, symbol));
              before >= 0.0 && size >= 0.0 ==> 0.0 <= after <= before <= after + size
    {
      ok := a.Confirmed();
      if ok || a.placed {
        s := Put(req, s, Unwind(i), Order(UnwindFill(req, s, i, size, a.amount), None, None, a.state));
      }
    }
  }

  lemma {:induction false} ExchangedKeeps(req: Request, s: State, moves: seq<Event>)
    requires req.Valid() && Inv(req, s) && Finished(s)
    ensures var t := Exchanged(req, s, moves); Inv(req, t) && t.stage == s.stage && t.legs == s.legs
  {
    hide Inv, Enabled;
    if |moves| > 0 {
      ExchangedKeeps(req, s, moves[..|moves| - 1]);
      var t, e := Exchanged(req, s, moves[..|moves| - 1]), moves[|moves| - 1];
      if e.Execute? && Enabled(req, t, e) {
        NextKeepsInv(req, t, e);
        FinishedStays(req, t, e);
      }
    }
  }

  lemma RollbackNext(req: Request, s: State, i: nat, a: Answer)
    requires |s.legs| == |req.legs| && i < |req.legs| && s.stage == Rolling(i)
    ensures Enabled(req, s, Rollback(i, a))
    ensures Undo(req, s, i, Report(req, s.legs[i]), a).legs == s.legs
    ensures Next(req, s, Rollback(i, a))
            == Undo(req, s, i, Report(req, s.legs[i]), a).(
               stage := if a.escapes then Aborted else if i + 1 < |s.legs| then Rolling(i + 1) else Over(false))
  {
    var t := Undo(req, s, i, Report(req, s.legs[i]), a);
    assert t.legs == s.legs;
    assert s.legs[i := s.legs[i]] == s.legs;
  }

  /** The `_rollback` loop: reduce-only closes for what was reported filled, cancels for the rest. It ends
      in the state the run model reaches with the same answers and the same moves of the exchange: over, or
      aborted if one of the answers was an exception that escapes. */
  method RunRollback(req: Request, venue: Venue, answers: seq<Answer>, moves: seq<seq<Event>>)
    returns (actions: Option<seq<Action>>)
    requires req.Valid() && Inv(req, venue.s) && venue.s.stage == Rolling(0)
    requires |answers| == |moves| == |req.legs|
    modifies venue
    ensures actions.None? <==> exists k :: 0 <= k < |answers| && answers[k].escapes
    ensures actions.Some? ==> actions.value == ActionsFor(Reports(req, old(venue.s)), req.known, answers)
    ensures venue.s == RolledBack(req, old(venue.s), answers, moves, |answers|)
    ensures Inv(req, venue.s) && venue.s.legs == old(venue.s).legs
    ensures venue.s.stage == if actions.Some? then Over(false) else Aborted
  {
    hide Inv, Enabled, Next, Undo, PlaceUnwind, CancelOrder, ActionFor, Exchanged, Report, Success;
    InvParts(req, venue.s);
    var fills := Reports(req, venue.s);
    var done: seq<Action> := [];
    for i := 0 to |fills|
      invariant Inv(req, venue.s) && venue.s.legs == old(venue.s).legs
      invariant venue.s.stage == if i < |fills| then Rolling(i) else Over(false)
      invariant forall k :: 0 <= k < i ==> !answers[k].escapes
      invariant done == ActionsFor(fills[..i], req.known, answers[..i])
      invariant venue.s == RolledBack(req, old(venue.s), answers, moves, i)
    {
      assert fills[..i + 1][..i] == fills[..i] && answers[..i + 1][..i] == answers[..i];
      InvParts(req, venue.s);
      ExchangedKeeps(req, venue.s, moves[i]);
      venue.Trade(req, moves[i]);
      InvParts(req, venue.s);
      ghost var before := venue.s;
      var taken := UndoOne(req, venue, i, fills[i], answers[i]);
      RollbackNext(req, before, i, answers[i]);
      NextKeepsInv(req, before, Rollback(i, answers[i]));
      if answers[i].escapes {
        venue.s := venue.s.(stage := Aborted);
        AbortedStays(req, old(venue.s), answers, moves, i + 1, |answers|);
        return None;
      }
      done := done + taken;
      venue.s := venue.s.(stage := if i + 1 < |fills| then Rolling(i + 1) else Over(false));
    }
    assert fills[..|fills|] == fills && answers[..|fills|] == answers;
    actions := Some(done);
  }

  lemma {:induction false} AbortedStays(req: Request, s: State, answers: seq<Answer>, moves: seq<seq<Event>>, j: nat,
                                        k: nat)
    requires j <= k <= |answers| == |moves| && RolledBack(req, s, answers, moves, j).stage == Aborted
    ensures RolledBack(req, s, answers, moves, k) == RolledBack(req, s, answers, moves, j)
  {
    hide Exchanged, Enabled, Next;
    if j < k {
      AbortedStays(req, s, answers, moves, j, k - 1);
    }
  }

  /** The parts of the invariant that the loops need. */
  lemma InvParts(req: Request, s: State)
    requires Inv(req, s)
    ensures |s.legs| == |req.legs|
    ensures s.stage.Rolling? ==> Finished(s) && s.stage.next < |s.legs|
    ensures s.stage.Rolling? ==> forall i :: i >= s.stage.next ==> Unwind(i) !in s.orders
    ensures s.stage.Over? || s.stage.Aborted? ==> Finished(s)
  {
  }

  /** One round of the rollback loop. */
  method UndoOne(req: Request, venue: Venue, i: nat, f: LegFill, a: Answer) returns (actions: seq<Action>)
    requires i < |req.legs| && Unwind(i) !in venue.s.orders
    modifies venue
    ensures actions == ActionFor(f, req.known, a)
    ensures venue.s == Undo(req, old(venue.s), i, f, a)
  {
    actions := [];
    if f.filled > 0.0 {
      if f.symbol in req.known {
        var ok := venue.PlaceReduceOnly(req, i, f.filled, a);
        actions := [if ok then RollbackClose(f.symbol) else RollbackCloseFailed(f.symbol)];
      }
    } else if HasOrder(f) {
      if a.Confirmed() {
        venue.s := CancelOrder(req, venue.s, if f.clientId == "entry" then Maker(i) else Ioc(i));
      }
      actions := [if a.Confirmed() then CancelSent(f.symbol) else CancelFailed(f.symbol)];
    }
  }

  /** What `submit_entry` answers, unless an exception leaves it. */
  datatype Entry = Entry(success: bool, actions: seq<Action>)

  /** The end of `submit_entry`: any incomplete leg rolls the whole group back. */
  method FinishEntry(req: Request, venue: Venue, answers: seq<Answer>, moves: seq<seq<Event>>)
    returns (r: Option<Entry>)
    requires req.Valid() && Inv(req, venue.s) && venue.s.stage == Gathering && Finished(venue.s)
    requires |answers| == |moves| == |req.legs|
    modifies venue
    ensures Inv(req, venue.s) && venue.s.legs == old(venue.s).legs
    ensures venue.s.stage == if r.Some? then Over(r.value.success) else Aborted
    ensures Success(Reports(req, old(venue.s))) ==>
              r == Some(Entry(true, [])) && venue.s.orders == old(venue.s).orders && venue.s.pos == old(venue.s).pos
    ensures !Success(Reports(req, old(venue.s))) ==>
              && (r.None? <==> exists k :: 0 <= k < |answers| && answers[k].escapes)
              && (r.Some? ==> r.value == Entry(false, ActionsFor(Reports(req, old(venue.s)), req.known, answers)))
  {
    hide Inv, RolledBack;
    InvParts(req, venue.s);
    var fills := Reports(req, venue.s);
    var success := true;
    for i := 0 to |fills|
      invariant success == forall k :: 0 <= k < i ==> fills[k].IsComplete()
    {
      success := success && fills[i].IsComplete();
    }
    NextKeepsInv(req, venue.s, Gather);
    venue.s := venue.s.(stage := if success then Over(true) else Rolling(0));
    if success {
      return Some(Entry(true, []));
    }
    var actions := RunRollback(req, venue, answers, moves);
    r := if actions.None? then None else Some(Entry(false, actions.value));
  }

  // ------------------------------------------------------------------ the loop is a run

  function Extend(req: Request, run: Run, e: Event): Run
    requires |run.states| > 0 && Enabled(req, run.Last(), e)
  {
    Run(run.states + [Next(req, run.Last(), e)], run.events + [e])
  }

  lemma ExtendFrom(req: Request, s: State, run: Run, e: Event)
    requires run.From(req, s) && Enabled(req, run.Last(), e)
    ensures Extend(req, run, e).From(req, s)
    ensures Extend(req, run, e).Last() == Next(req, run.Last(), e)
  {
    hide Enabled, Next;
    var r := Extend(req, run, e);
    forall k: nat | k < |r.events| ensures r.StepOk(req, k) {
      if k < |run.events| {
        assert run.StepOk(req, k);
      }
    }
  }

  lemma {:induction false} ExchangedIsRun(req: Request, s: State, run: Run, moves: seq<Event>) returns (r: Run)
    requires run.From(req, s)
    ensures r.From(req, s) && r.Last() == Exchanged(req, run.Last(), moves)
  {
    hide Enabled, Next;
    r := run;
    if |moves| > 0 {
      r := ExchangedIsRun(req, s, run, moves[..|moves| - 1]);
      var e := moves[|moves| - 1];
      if e.Execute? && Enabled(req, r.Last(), e) {
        ExtendFrom(req, s, r, e);
        r := Extend(req, r, e);
      }
    }
  }

  /** Whatever the loop does with the exchange acting in between is a run of the machine, so that every
      statement about runs holds of it. */
  lemma {:induction false} RollbackIsRun(req: Request, s: State, answers: seq<Answer>, moves: seq<seq<Event>>, k: nat)
    returns (r: Run)
    requires k <= |answers| == |moves|
    ensures r.From(req, s) && r.Last() == RolledBack(req, s, answers, moves, k)
  {
    hide Enabled, Next, Exchanged;
    r := Run([s], []);
    if k > 0 {
      r := RollbackIsRun(req, s, answers, moves, k - 1);
      if r.Last().stage != Aborted {
        r := ExchangedIsRun(req, s, r, moves[k - 1]);
        var e := Rollback(k - 1, answers[k - 1]);
        if Enabled(req, r.Last(), e) {
          ExtendFrom(req, s, r, e);
          r := Extend(req, r, e);
        }
      }
    }
  }

  // ------------------------------------------------------------------ what the rollback leaves alone

  /** The exchange itself acts on an entry order of the leg. */
  predicate ActsOn(e: Event, i: nat) {
    e.Execute? && (e.id == Maker(i) || e.id == Ioc(i))
  }

  lemma SparedStep(req: Request, s: State, e: Event, i: nat)
    requires Inv(req, s) && Enabled(req, s, e) && i < |s.legs| && !ActsOn(e, i)
    requires s.legs[i].Raised? || (s.legs[i].Done? && s.legs[i].report.filled > 0.0)
    ensures var t := Next(req, s, e);
            && |t.legs| == |s.legs| && t.legs[i] == s.legs[i]
            && SameOrder(s, t, Maker(i)) && SameOrder(s, t, Ioc(i))
  {
    hide LegOk, StageOk, Pos, MayBecome;
    if !e.Gather? {
      NextOnlyLeg(req, s, e);
    }
  }

  /** The rollback cancels nothing of a leg that reported a fill, nor of a leg that raised: as long as the
      exchange itself does not act on them, the leg's entry orders stay as they are, open remainders
      included. */
  lemma {:induction false} RollbackSparesOrders(req: Request, s: State, run: Run, k: nat, i: nat)
    requires req.Valid() && Inv(req, s) && run.From(req, s) && k <= |run.events| && i < |s.legs|
    requires s.legs[i].Raised? || (s.legs[i].Done? && s.legs[i].report.filled > 0.0)
    requires forall n :: 0 <= n < |run.events| ==> !ActsOn(run.events[n], i)
    ensures var t := run.states[k];
            && |t.legs| == |s.legs| && t.legs[i] == s.legs[i]
            && SameOrder(s, t, Maker(i)) && SameOrder(s, t, Ioc(i))
  {
    hide Inv, Enabled, Next, ActsOn;
    if k > 0 {
      RollbackSparesOrders(req, s, run, k - 1, i);
      InvAlong(req, s, run, k - 1);
      assert run.StepOk(req, k - 1);
      SparedStep(req, run.states[k - 1], run.events[k - 1], i);
    }
  }

  /** A leg that raised is not closed at all: whatever its orders filled is its position, in every
      reachable state. */
  lemma RaisedLegIsLeftAlone(req: Request, run: Run, k: nat, i: nat)
    requires req.Valid() && run.Legal(req) && k <= |run.events| && i < |req.legs|
    requires i < |run.states[k].legs| && run.states[k].legs[i].Raised?
    ensures var s := run.states[k];
            Pos(s, req.legs[i].symbol) == Signed(req.legs[i].side, FilledBy(s, Maker(i)) + FilledBy(s, Ioc(i)))
  {
    InvHolds(req, run, k);
    assert LegOk(req, run.states[k], i);
  }

  /** The rollback of a leg that reported nothing cancels its IOC order, if the cancel is confirmed, and
      otherwise leaves it as it is; it never touches the maker order and places no close. */
  lemma RollbackCancels(req: Request, s: State, i: nat, a: Answer)
    requires req.Valid() && Inv(req, s) && s.stage == Rolling(i) && s.legs[i].Done? && s.legs[i].via.ViaIoc?
    requires s.legs[i].report.filled <= 0.0
    ensures Enabled(req, s, Rollback(i, a))
    ensures var t := Next(req, s, Rollback(i, a));
            && (a.ok && !a.escapes ==> Dead(t, Ioc(i)))
            && (!a.ok || a.escapes ==> SameOrder(s, t, Ioc(i)))
            && SameOrder(s, t, Maker(i)) && Unwind(i) !in t.orders
  {
    InvParts(req, s);
    RollbackNext(req, s, i, a);
    assert LegOk(req, s, i);
    hide Inv, Next;
  }

  /** No fill is skipped: a run that goes from the start of the rollback to its end handles every one. */
  lemma {:induction false} EveryFillIsHandled(req: Request, s: State, run: Run, k: nat, i: nat)
    requires req.Valid() && Inv(req, s) && s.stage == Rolling(0) && run.From(req, s) && k <= |run.events|
    requires run.states[k].stage == Over(false) || (run.states[k].stage.Rolling? && i < run.states[k].stage.next)
    requires i < |req.legs|
    ensures exists n: nat :: n < k && run.events[n].Rollback? && run.events[n].i == i
  {
    hide Inv, Enabled, Next;
    if k > 0 {
      InvAlong(req, s, run, k - 1);
      assert run.StepOk(req, k - 1);
      HandledStep(req, run.states[k - 1], run.events[k - 1], i);
      if !(run.events[k - 1].Rollback? && run.events[k - 1].i == i) {
        StageIsRollback(req, s, run, k - 1);
        EveryFillIsHandled(req, s, run, k - 1, i);
      }
    }
  }

  lemma HandledStep(req: Request, s: State, e: Event, i: nat)
    requires Inv(req, s) && Enabled(req, s, e) && i < |req.legs|
    requires Next(req, s, e).stage == Over(false)
             || (Next(req, s, e).stage.Rolling? && i < Next(req, s, e).stage.next)
    ensures (e.Rollback? && e.i == i) || s.stage == Over(false) || (s.stage.Rolling? && i < s.stage.next)
  {
    hide LegOk, Put, CancelOrder, Undo;
  }

  lemma {:induction false} StageIsRollback(req: Request, s: State, run: Run, k: nat)
    requires req.Valid() && Inv(req, s) && s.stage == Rolling(0) && run.From(req, s) && k <= |run.events|
    ensures run.states[k].stage != Gathering && run.states[k].stage != Over(true)
  {
    hide Inv, Enabled, Next;
    if k > 0 {
      StageIsRollback(req, s, run, k - 1);
      InvAlong(req, s, run, k - 1);
      assert run.StepOk(req, k - 1);
      NoWayBack(req, run.states[k - 1], run.events[k - 1]);
    }
  }

  lemma NoWayBack(req: Request, s: State, e: Event)
    requires Enabled(req, s, e) && s.stage != Gathering && s.stage != Over(true)
    ensures Next(req, s, e).stage != Gathering && Next(req, s, e).stage != Over(true)
  {
    hide Put, CancelOrder, Undo;
  }

  // ------------------------------------------------------------------ all or nothing

  /** The position the result stands for: the full size everywhere, or nothing anywhere. */
  ghost predicate AsReported(req: Request, s: State) {
    && s.stage.Over?
    && forall i :: 0 <= i < |req.legs| ==>
         Pos(s, req.legs[i].symbol) == if s.stage.success then Signed(req.legs[i].side, req.lots) else 0.0
  }

  /** Whatever the exchange still does, the position stays the reported one. */
  ghost predicate StaysAsReported(req: Request, s: State) {
    forall run: Run, k: nat :: run.From(req, s) && k <= |run.events| ==> AsReported(req, run.states[k])
  }

  /** The exchange could still fill something of the order. */
  predicate CanFill(req: Request, s: State, id: OrderId) {
    id in s.orders && s.orders[id].state.Live() && s.orders[id].filled < req.lots
  }

  /** Nothing of the leg is unaccounted for: its abandoned maker order filled nothing and is over, its IOC
      order filled nothing after its report and is over, an exception left no order behind, and a
      failed group's close took off all that was reported. */
  ghost predicate Accounted(req: Request, s: State, i: nat)
    requires i < |s.legs|
  {
    && !CanFill(req, s, Maker(i)) && !CanFill(req, s, Ioc(i))
    && Residue(s, i) == 0.0 && Late(s, i) == 0.0
    && (s.legs[i].Raised? ==> FilledBy(s, Maker(i)) == 0.0 && FilledBy(s, Ioc(i)) == 0.0)
    && (s.stage == Over(false) ==> FilledBy(s, Unwind(i)) == s.legs[i].Reported())
  }

  ghost predicate AllAccounted(req: Request, s: State) {
    forall i :: 0 <= i < |s.legs| ==> Accounted(req, s, i)
  }

  /** What a leg holds beyond its report splits into non-negative parts. */
  lemma HeldIs(req: Request, s: State, i: nat)
    requires req.Valid() && Inv(req, s) && s.stage.Over? && i < |req.legs|
    ensures i < |s.legs|
    ensures Pos(s, req.legs[i].symbol)
            == Signed(req.legs[i].side, s.legs[i].Reported() + Excess(s, i) - FilledBy(s, Unwind(i)))
    ensures 0.0 <= FilledBy(s, Unwind(i)) <= s.legs[i].Reported()
    ensures 0.0 <= Excess(s, i)
    ensures Excess(s, i) == 0.0 <==>
            && Residue(s, i) == 0.0 && Late(s, i) == 0.0
            && (s.legs[i].Raised? ==> FilledBy(s, Maker(i)) == 0.0 && FilledBy(s, Ioc(i)) == 0.0)
    ensures s.stage == Over(true) ==> s.legs[i].Reported() == req.lots && FilledBy(s, Unwind(i)) == 0.0
  {
    assert LegOk(req, s, i);
    assert s.legs[i].Ended();
    if s.stage == Over(true) {
      assert Reports(req, s)[i] == Report(req, s.legs[i]);
    }
  }

  function Excess(s: State, i: nat): real
    requires i < |s.legs|
  {
    FilledBy(s, Maker(i)) + FilledBy(s, Ioc(i)) - s.legs[i].Reported()
  }

  lemma AccountedIsReported(req: Request, s: State)
    requires req.Valid() && Inv(req, s) && s.stage.Over?
    ensures AsReported(req, s) <==>
            forall i :: 0 <= i < |s.legs| ==>
              Excess(s, i) == 0.0 && (s.stage == Over(false) ==> FilledBy(s, Unwind(i)) == s.legs[i].Reported())
  {
    forall i: nat | i < |req.legs|
      ensures i < |s.legs|
      ensures Pos(s, req.legs[i].symbol) == (if s.stage.success then Signed(req.legs[i].side, req.lots) else 0.0)
              <==> Excess(s, i) == 0.0 && (s.stage == Over(false) ==> FilledBy(s, Unwind(i)) == s.legs[i].Reported())
    {
      HeldIs(req, s, i);
    }
    hide Inv, Pos, Excess;
    InvParts(req, s);
  }

  lemma AccountedStep(req: Request, s: State, e: Event)
    requires req.Valid() && Inv(req, s) && s.stage.Over? && AllAccounted(req, s) && Enabled(req, s, e)
    ensures Next(req, s, e).stage == s.stage && |Next(req, s, e).legs| == |s.legs| && AllAccounted(req, Next(req, s, e))
  {
    InvParts(req, s);
    FinishedStays(req, s, e);
    var t := Next(req, s, e);
    NextOnlyLeg(req, s, e);
    forall i | 0 <= i < |t.legs| ensures Accounted(req, t, i) {
      assert Accounted(req, s, i);
      if i == e.id.leg {
        HeldIs(req, s, i);
        ExecuteAccounted(req, s, e.id, e.after);
      } else {
        assert SameOrder(s, t, Maker(i)) && SameOrder(s, t, Ioc(i)) && SameOrder(s, t, Unwind(i));
      }
    }
  }

  /** An order that cannot fill any more keeps its size whatever the exchange does. */
  lemma ExecuteAccounted(req: Request, s: State, id: OrderId, after: Order)
    requires req.Valid() && Inv(req, s) && s.stage.Over? && Enabled(req, s, Execute(id, after))
    requires Accounted(req, s, id.leg)
    requires s.stage == Over(true) ==> Unwind(id.leg) !in s.orders
    ensures |Next(req, s, Execute(id, after)).legs| == |s.legs|
    ensures Accounted(req, Next(req, s, Execute(id, after)), id.leg)
  {
    var t := Next(req, s, Execute(id, after));
    assert t.legs == s.legs;
    assert after.filled == s.orders[id].filled;
  }

  lemma {:induction false} AccountedForever(req: Request, s: State, run: Run, k: nat)
    requires req.Valid() && Inv(req, s) && s.stage.Over? && AllAccounted(req, s) && run.From(req, s)
             && k <= |run.events|
    ensures run.states[k].stage == s.stage && AllAccounted(req, run.states[k])
  {
    hide Inv, Enabled, Next, AllAccounted;
    if k > 0 {
      AccountedForever(req, s, run, k - 1);
      InvAlong(req, s, run, k - 1);
      assert run.StepOk(req, k - 1);
      AccountedStep(req, run.states[k - 1], run.events[k - 1]);
    }
  }

  /** An order that can still fill spoils the position in one step. */
  lemma LiveOrderSpoils(req: Request, s: State, id: OrderId) returns (run: Run)
    requires req.Valid() && Inv(req, s) && s.stage.Over? && AsReported(req, s)
    requires !id.Unwind? && CanFill(req, s, id)
    ensures run.From(req, s) && |run.events| == 1 && !AsReported(req, run.states[1])
  {
    var e := Execute(id, Order(req.lots, None, None, WireState.Filled));
    assert id.leg < |req.legs|;
    assert Enabled(req, s, e);
    run := Run([s, Next(req, s, e)], [e]);
    assert run.StepOk(req, 0);
    var symbol := req.legs[id.leg].symbol;
    assert Pos(run.states[1], symbol) == Pos(s, symbol) + Signed(req.legs[id.leg].side, req.lots - s.orders[id].filled);
  }

  lemma AccountedSplits(req: Request, s: State, i: nat)
    requires req.Valid() && Inv(req, s) && s.stage.Over? && i < |s.legs|
    ensures Accounted(req, s, i) <==>
            && !CanFill(req, s, Maker(i)) && !CanFill(req, s, Ioc(i))
            && Excess(s, i) == 0.0 && (s.stage == Over(false) ==> FilledBy(s, Unwind(i)) == s.legs[i].Reported())
  {
    InvParts(req, s);
    HeldIs(req, s, i);
    hide Inv;
  }

  /** The outcome is all-or-nothing, as reported, and stays so whatever the exchange does during and
      after the rollback, exactly when every leg is accounted for. */
  lemma StaysIff(req: Request, s: State)
    requires req.Valid() && Inv(req, s) && s.stage.Over?
    ensures StaysAsReported(req, s) <==> AllAccounted(req, s)
  {
    hide Inv, Enabled, Next, Accounted, Excess, AsReported, CanFill;
    forall i: nat | i < |s.legs|
      ensures Accounted(req, s, i) <==>
              && !CanFill(req, s, Maker(i)) && !CanFill(req, s, Ioc(i))
              && Excess(s, i) == 0.0 && (s.stage == Over(false) ==> FilledBy(s, Unwind(i)) == s.legs[i].Reported())
    {
      AccountedSplits(req, s, i);
    }
    AccountedIsReported(req, s);
    if AllAccounted(req, s) {
      forall run: Run, k: nat | run.From(req, s) && k <= |run.events| ensures AsReported(req, run.states[k]) {
        AccountedForever(req, s, run, k);
        InvAlong(req, s, run, k);
        AccountedEach(req, run.states[k]);
        AccountedIsReported(req, run.states[k]);
      }
    }
    if StaysAsReported(req, s) {
      var still := Run([s], []);
      assert still.From(req, s) && AsReported(req, still.states[0]);
      forall i: nat | i < |s.legs| ensures !CanFill(req, s, Maker(i)) && !CanFill(req, s, Ioc(i)) {
        if CanFill(req, s, Maker(i)) {
          var run := LiveOrderSpoils(req, s, Maker(i));
        }
        if CanFill(req, s, Ioc(i)) {
          var run := LiveOrderSpoils(req, s, Ioc(i));
        }
      }
    }
  }

  lemma AccountedEach(req: Request, s: State)
    requires req.Valid() && Inv(req, s) && s.stage.Over? && AllAccounted(req, s)
    ensures forall i :: 0 <= i < |s.legs| ==>
            Excess(s, i) == 0.0 && (s.stage == Over(false) ==> FilledBy(s, Unwind(i)) == s.legs[i].Reported())
  {
    hide Inv, Excess;
    forall i: nat | i < |s.legs|
      ensures Excess(s, i) == 0.0 && (s.stage == Over(false) ==> FilledBy(s, Unwind(i)) == s.legs[i].Reported())
    {
      assert Accounted(req, s, i);
      AccountedSplits(req, s, i);
    }
  }

  /** The same of every run that has come to its result. */
  lemma AllOrNothingIff(req: Request, run: Run)
    requires req.Valid() && run.Legal(req) && run.Last().stage.Over?
    ensures StaysAsReported(req, run.Last()) <==> AllAccounted(req, run.Last())
  {
    hide Inv, StaysAsReported, AllAccounted;
    InvHolds(req, run, |run.events|);
    StaysIff(req, run.Last());
  }

  // ------------------------------------------------------------------ the intended course

  /** What one round of the rollback takes off: the close's execution up to the reported size. The
      reduce-only limit never gets in the way; an unknown instrument or a refused close takes off nothing. */
  lemma RollbackTakes(req: Request, s: State, i: nat, a: Answer)
    requires req.Valid() && Inv(req, s) && s.stage == Rolling(i) && s.legs[i].Done?
    ensures Enabled(req, s, Rollback(i, a))
    ensures FilledBy(Next(req, s, Rollback(i, a)), Unwind(i))
            == if req.legs[i].symbol in req.known && ((a.ok && !a.escapes) || a.placed)
               then Min(Max(0.0, a.amount), s.legs[i].report.filled) else 0.0
  {
    InvParts(req, s);
    RollbackNext(req, s, i, a);
    assert LegOk(req, s, i);
    ReportBacked(req, s, i);
    hide Inv, Next;
    assert Unwind(i) !in s.orders;
    assert s.legs[i].report.filled > 0.0 ==> s.legs[i].report.symbol == req.legs[i].symbol;
  }

  /** The leg neither failed to cancel its maker order nor gave up on an open IOC order. */
  predicate Resolved(s: State, i: nat) {
    i < |s.legs| && s.legs[i].Done? && s.legs[i].via != ViaIoc(false) && !s.legs[i].report.state.Live()
  }

  /** The rollback, if there was one, took off all that the leg reported. */
  predicate Unwound(s: State, i: nat) {
    i < |s.legs| && (s.stage == Over(false) ==> FilledBy(s, Unwind(i)) == s.legs[i].Reported())
  }

  lemma ResolvedParts(req: Request, s: State, i: nat)
    requires req.Valid() && Inv(req, s) && Resolved(s, i)
    ensures Settled(s, i) && Late(s, i) == 0.0
  {
    assert LegOk(req, s, i);
  }

  lemma UnwoundStep(req: Request, s: State, e: Event, i: nat)
    requires req.Valid() && Inv(req, s) && s.stage.Over? && Enabled(req, s, e) && Unwound(s, i)
    ensures Next(req, s, e).stage == s.stage && Unwound(Next(req, s, e), i)
  {
    InvParts(req, s);
    FinishedStays(req, s, e);
    NextKeepsInv(req, s, e);
    NextOnlyLeg(req, s, e);
    var t := Next(req, s, e);
    if e.id.leg != i {
      assert SameOrder(s, t, Unwind(i));
    } else {
      assert LegOk(req, t, i);
      ReportBacked(req, t, i);
    }
  }

  lemma {:induction false} UnwoundForever(req: Request, s: State, run: Run, k: nat, i: nat)
    requires req.Valid() && Inv(req, s) && s.stage.Over? && Unwound(s, i) && run.From(req, s) && k <= |run.events|
    ensures run.states[k].stage == s.stage && Unwound(run.states[k], i)
  {
    hide Inv, Enabled, Next, Unwound;
    if k > 0 {
      UnwoundForever(req, s, run, k - 1, i);
      InvAlong(req, s, run, k - 1);
      assert run.StepOk(req, k - 1);
      UnwoundStep(req, run.states[k - 1], run.events[k - 1], i);
    }
  }

  /** With its orders resolved and its close executed, a leg of a finished entry holds, now and for ever,
      exactly what its cancelled maker order filled, on top of the full size if the entry succeeded. */
  lemma FinalLeg(req: Request, s: State, run: Run, k: nat, i: nat)
    requires req.Valid() && Inv(req, s) && s.stage.Over? && i < |req.legs|
    requires Resolved(s, i) && Unwound(s, i) && run.From(req, s) && k <= |run.events|
    ensures Pos(run.states[k], req.legs[i].symbol)
            == Signed(req.legs[i].side, (if s.stage.success then req.lots else 0.0) + Residue(s, i))
  {
    ResolvedParts(req, s, i);
    SettledForever(req, s, run, k, i);
    UnwoundForever(req, s, run, k, i);
    InvAlong(req, s, run, k);
    HeldIs(req, s, i);
    HeldIs(req, run.states[k], i);
    hide Inv, Pos, HasOrder;
  }

  /** So, without exceptions, with successful cancels, resolved IOC orders and executed closes, an entry is
      all-or-nothing for good exactly when no cancelled maker order had filled. */
  lemma ResidueDecides(req: Request, s: State)
    requires req.Valid() && Inv(req, s) && s.stage.Over?
    requires forall i :: 0 <= i < |s.legs| ==> Resolved(s, i) && Unwound(s, i)
    ensures StaysAsReported(req, s) <==> forall i :: 0 <= i < |s.legs| ==> Residue(s, i) == 0.0
  {
    StaysIff(req, s);
    forall i | 0 <= i < |s.legs| ensures Accounted(req, s, i) <==> Residue(s, i) == 0.0 {
      assert Resolved(s, i) && Unwound(s, i);
      ResolvedParts(req, s, i);
    }
  }

  // ------------------------------------------------------------------ the failing families are real

  const ONE_LEG := Request([LegIntent("C", Buy)], 1.0, {"C"})
  const OPEN := Order(0.0, None, Some(7), Open)
  const CLOSED := Order(1.0, Some(5.0), Some(7), Closed)
  const FILLED := Order(1.0, Some(5.0), Some(7), WireState.Filled)
  const CROSSED := Order(1.0, Some(5.0), Some(8), WireState.Filled)
  const HALF := Order(0.5, Some(5.0), Some(8), PartiallyFilled)
  const REFUSED := Order(0.0, None, Some(7), Rejected)

  function Single(orders: map<OrderId, Order>, pos: real, leg: Leg, stage: Stage): State {
    State(orders, map["C" := pos], [leg], stage)
  }

  ghost predicate StepsTo(s: State, e: Event, t: State) {
    Enabled(ONE_LEG, s, e) && Next(ONE_LEG, s, e) == t
  }

  /** One more step of a run. */
  lemma Append(run: Run, e: Event, t: State) returns (r: Run)
    requires run.Legal(ONE_LEG) && StepsTo(run.Last(), e, t)
    ensures r.Legal(ONE_LEG) && r.Last() == t && |r.events| == |run.events| + 1
    ensures r.states[|run.events|] == run.Last()
  {
    hide Enabled, Next;
    r := Extend(ONE_LEG, run, e);
    ExtendFrom(ONE_LEG, Initial(ONE_LEG), run, e);
  }

  lemma MakerIsPlaced(o: Order)
    requires o == OPEN || o == REFUSED
    ensures StepsTo(Initial(ONE_LEG), PlaceMaker(0, o),
                    Single(map[Maker(0) := o], 0.0, MakerWait(ToFill(ONE_LEG, Maker(0), o), None), Gathering))
  {
    assert Initial(ONE_LEG).legs == [Start];
  }

  lemma MakerFills(ioc: map<OrderId, Order>, o: Order, pos: real, leg: Leg, stage: Stage)
    requires (o == CLOSED || o == FILLED) && Maker(0) !in ioc
    ensures StepsTo(Single(ioc[Maker(0) := OPEN], pos, leg, stage), Execute(Maker(0), o),
                    Single(ioc[Maker(0) := o], pos + 1.0, leg, stage))
  {
    assert ioc[Maker(0) := OPEN][Maker(0) := o] == ioc[Maker(0) := o];
    assert map["C" := pos]["C" := pos + 1.0] == map["C" := pos + 1.0];
  }

  lemma PollSeesClosed(fill: LegFill)
    ensures StepsTo(Single(map[Maker(0) := CLOSED], 1.0, MakerWait(fill, None), Gathering), Poll(0, true),
                    Single(map[Maker(0) := CLOSED], 1.0, Cancelling(ToFill(ONE_LEG, Maker(0), CLOSED)), Gathering))
  {
  }

  lemma MakerTimesOut(o: Order, fill: LegFill)
    ensures StepsTo(Single(map[Maker(0) := o], 0.0, MakerWait(fill, None), Gathering), Timeout(0),
                    Single(map[Maker(0) := o], 0.0, Cancelling(fill), Gathering))
  {
  }

  lemma MakerIsCancelled(o: Order, pos: real, fill: LegFill, ok: bool)
    requires ok ==> !o.state.Live()
    ensures StepsTo(Single(map[Maker(0) := o], pos, Cancelling(fill), Gathering), Cancel(0, ok),
                    Single(map[Maker(0) := o], pos, Fallback(ok), Gathering))
  {
  }

  lemma IocFills(o: Order, pos: real)
    ensures StepsTo(Single(map[Maker(0) := o], pos, Fallback(false), Gathering), PlaceIoc(0, CROSSED),
                    Single(map[Maker(0) := o, Ioc(0) := CROSSED], pos + 1.0,
                           Done(ToFill(ONE_LEG, Ioc(0), CROSSED), ViaIoc(false)), Gathering))
  {
    assert map["C" := pos]["C" := pos + 1.0] == map["C" := pos + 1.0];
  }

  lemma EntrySucceeds(orders: map<OrderId, Order>, pos: real)
    ensures var leg := Done(ToFill(ONE_LEG, Ioc(0), CROSSED), ViaIoc(false));
            StepsTo(Single(orders, pos, leg, Gathering), Gather, Single(orders, pos, leg, Over(true)))
  {
  }

  /** A maker order that fills whole after the last poll, or whose full fill the exchange words "closed", is
      followed by a full-size IOC order. The entry reports success for one lot and holds two. */
  lemma DoubleFill() returns (run: Run)
    ensures ONE_LEG.Valid() && run.Legal(ONE_LEG)
    ensures run.Last().stage == Over(true) && Pos(run.Last(), "C") == 2.0
  {
    hide Enabled, Next, ToFill, StepsTo;
    var f0, f1 := ToFill(ONE_LEG, Maker(0), OPEN), ToFill(ONE_LEG, Maker(0), CLOSED);
    var done := Done(ToFill(ONE_LEG, Ioc(0), CROSSED), ViaIoc(false));
    var both := map[Maker(0) := CLOSED, Ioc(0) := CROSSED];
    run := Run([Initial(ONE_LEG)], []);
    MakerIsPlaced(OPEN);
    run := Append(run, PlaceMaker(0, OPEN), Single(map[Maker(0) := OPEN], 0.0, MakerWait(f0, None), Gathering));
    MakerFills(map[], CLOSED, 0.0, MakerWait(f0, None), Gathering);
    run := Append(run, Execute(Maker(0), CLOSED), Single(map[Maker(0) := CLOSED], 1.0, MakerWait(f0, None), Gathering));
    PollSeesClosed(f0);
    run := Append(run, Poll(0, true), Single(map[Maker(0) := CLOSED], 1.0, Cancelling(f1), Gathering));
    MakerIsCancelled(CLOSED, 1.0, f1, false);
    run := Append(run, Cancel(0, false), Single(map[Maker(0) := CLOSED], 1.0, Fallback(false), Gathering));
    IocFills(CLOSED, 1.0);
    run := Append(run, PlaceIoc(0, CROSSED), Single(both, 2.0, done, Gathering));
    EntrySucceeds(both, 2.0);
    run := Append(run, Gather, Single(both, 2.0, done, Over(true)));
  }

  /** The cancel of an unfilled maker order fails and the IOC order fills: the entry returns with exactly the
      reported position and no residue, and the exchange doubles it afterwards. */
  lemma LateMaker() returns (run: Run)
    ensures run.Legal(ONE_LEG) && |run.events| == 6
    ensures AsReported(ONE_LEG, run.states[5]) && run.states[5].stage == Over(true)
    ensures |run.states[5].legs| == 1 && Residue(run.states[5], 0) == 0.0 && CanFill(ONE_LEG, run.states[5], Maker(0))
    ensures run.Last().stage == Over(true) && Pos(run.Last(), "C") == 2.0
  {
    hide Enabled, Next, ToFill, StepsTo;
    var f0 := ToFill(ONE_LEG, Maker(0), OPEN);
    var done := Done(ToFill(ONE_LEG, Ioc(0), CROSSED), ViaIoc(false));
    var both := map[Maker(0) := OPEN, Ioc(0) := CROSSED];
    run := Run([Initial(ONE_LEG)], []);
    MakerIsPlaced(OPEN);
    run := Append(run, PlaceMaker(0, OPEN), Single(map[Maker(0) := OPEN], 0.0, MakerWait(f0, None), Gathering));
    MakerTimesOut(OPEN, f0);
    run := Append(run, Timeout(0), Single(map[Maker(0) := OPEN], 0.0, Cancelling(f0), Gathering));
    MakerIsCancelled(OPEN, 0.0, f0, false);
    run := Append(run, Cancel(0, false), Single(map[Maker(0) := OPEN], 0.0, Fallback(false), Gathering));
    IocFills(OPEN, 0.0);
    run := Append(run, PlaceIoc(0, CROSSED), Single(both, 1.0, done, Gathering));
    EntrySucceeds(both, 1.0);
    run := Append(run, Gather, Single(both, 1.0, done, Over(true)));
    MakerFills(map[Ioc(0) := CROSSED], FILLED, 1.0, done, Over(true));
    assert map[Ioc(0) := CROSSED][Maker(0) := OPEN] == both;
    run := Append(run, Execute(Maker(0), FILLED),
                  Single(map[Ioc(0) := CROSSED][Maker(0) := FILLED], 2.0, done, Over(true)));
  }

  lemma IocHalfFills()
    ensures StepsTo(Single(map[Maker(0) := REFUSED], 0.0, Fallback(true), Gathering), PlaceIoc(0, HALF),
                    Single(map[Maker(0) := REFUSED, Ioc(0) := HALF], 0.5,
                           IocWait(ToFill(ONE_LEG, Ioc(0), HALF), None, true), Gathering))
  {
    assert map["C" := 0.0]["C" := 0.5] == map["C" := 0.5];
  }

  lemma IocTimesOut(orders: map<OrderId, Order>, fill: LegFill)
    ensures StepsTo(Single(orders, 0.5, IocWait(fill, None, true), Gathering), Timeout(0),
                    Single(orders, 0.5, Done(fill, ViaIoc(true)), Gathering))
  {
  }

  lemma EntryFails(orders: map<OrderId, Order>)
    ensures var leg := Done(ToFill(ONE_LEG, Ioc(0), HALF), ViaIoc(true));
            StepsTo(Single(orders, 0.5, leg, Gathering), Gather, Single(orders, 0.5, leg, Rolling(0)))
  {
    var s := Single(orders, 0.5, Done(ToFill(ONE_LEG, Ioc(0), HALF), ViaIoc(true)), Gathering);
    assert !Reports(ONE_LEG, s)[0].IsComplete();
  }

  const TAKEN := Order(0.5, None, None, WireState.Filled)

  lemma HalfIsClosed(orders: map<OrderId, Order>)
    requires Unwind(0) !in orders
    ensures var leg := Done(ToFill(ONE_LEG, Ioc(0), HALF), ViaIoc(true));
            StepsTo(Single(orders, 0.5, leg, Rolling(0)), Rollback(0, Answer(true, false, true, 0.5, WireState.Filled)),
                    Single(orders[Unwind(0) := TAKEN], 0.0, leg, Over(false)))
  {
    var s := Single(orders, 0.5, Done(ToFill(ONE_LEG, Ioc(0), HALF), ViaIoc(true)), Rolling(0));
    assert UnwindFill(ONE_LEG, s, 0, 0.5, 0.5) == 0.5;
    assert map["C" := 0.5]["C" := 0.0] == map["C" := 0.0];
  }

  lemma RemainderFills(orders: map<OrderId, Order>, leg: Leg)
    requires Ioc(0) in orders && orders[Ioc(0)] == HALF
    ensures StepsTo(Single(orders, 0.0, leg, Over(false)), Execute(Ioc(0), CROSSED),
                    Single(orders[Ioc(0) := CROSSED], 0.5, leg, Over(false)))
  {
    assert map["C" := 0.0]["C" := 0.5] == map["C" := 0.5];
  }

  /** An IOC order that is still partly open when its wait ends is reported with its partial fill. The
      rollback closes that part and leaves the remainder open; it fills after the failed entry has
      returned flat, and nothing closes it any more. */
  lemma LateRemainder() returns (run: Run)
    ensures run.Legal(ONE_LEG) && |run.events| == 8
    ensures AsReported(ONE_LEG, run.states[7]) && run.states[7].stage == Over(false)
    ensures |run.states[7].legs| == 1 && Residue(run.states[7], 0) == 0.0 && CanFill(ONE_LEG, run.states[7], Ioc(0))
    ensures run.Last().stage == Over(false) && Pos(run.Last(), "C") == 0.5
  {
    hide Enabled, Next, ToFill, StepsTo;
    var f0, f1 := ToFill(ONE_LEG, Maker(0), REFUSED), ToFill(ONE_LEG, Ioc(0), HALF);
    var both := map[Maker(0) := REFUSED, Ioc(0) := HALF];
    var all := both[Unwind(0) := TAKEN];
    var done := Done(f1, ViaIoc(true));
    run := Run([Initial(ONE_LEG)], []);
    MakerIsPlaced(REFUSED);
    run := Append(run, PlaceMaker(0, REFUSED), Single(map[Maker(0) := REFUSED], 0.0, MakerWait(f0, None), Gathering));
    MakerTimesOut(REFUSED, f0);
    run := Append(run, Timeout(0), Single(map[Maker(0) := REFUSED], 0.0, Cancelling(f0), Gathering));
    MakerIsCancelled(REFUSED, 0.0, f0, true);
    run := Append(run, Cancel(0, true), Single(map[Maker(0) := REFUSED], 0.0, Fallback(true), Gathering));
    IocHalfFills();
    run := Append(run, PlaceIoc(0, HALF), Single(both, 0.5, IocWait(f1, None, true), Gathering));
    IocTimesOut(both, f1);
    run := Append(run, Timeout(0), Single(both, 0.5, done, Gathering));
    EntryFails(both);
    run := Append(run, Gather, Single(both, 0.5, done, Rolling(0)));
    HalfIsClosed(both);
    run := Append(run, Rollback(0, Answer(true, false, true, 0.5, WireState.Filled)),
                  Single(all, 0.0, done, Over(false)));
    RemainderFills(all, done);
    run := Append(run, Execute(Ioc(0), CROSSED), Single(all[Ioc(0) := CROSSED], 0.5, done, Over(false)));
  }

  lemma PlacementRaises()
    ensures StepsTo(Initial(ONE_LEG), Raise(0, Some(FILLED)),
                    Single(map[Maker(0) := FILLED], 1.0, Raised, Gathering))
  {
    assert Initial(ONE_LEG).legs == [Start];
  }

  lemma RaisedFails()
    ensures StepsTo(Single(map[Maker(0) := FILLED], 1.0, Raised, Gathering), Gather,
                    Single(map[Maker(0) := FILLED], 1.0, Raised, Rolling(0)))
  {
    var s := Single(map[Maker(0) := FILLED], 1.0, Raised, Gathering);
    assert !Reports(ONE_LEG, s)[0].IsComplete();
  }

  lemma RaisedIsSkipped(a: Answer)
    requires !a.escapes
    ensures StepsTo(Single(map[Maker(0) := FILLED], 1.0, Raised, Rolling(0)), Rollback(0, a),
                    Single(map[Maker(0) := FILLED], 1.0, Raised, Over(false)))
  {
  }

  /** A placement that raises although the exchange accepted and filled it: the entry reports failure,
      rolls back nothing and holds the full size. */
  lemma RaisedHolds(a: Answer) returns (run: Run)
    requires !a.escapes
    ensures run.Legal(ONE_LEG) && |run.events| == 3
    ensures run.Last().stage == Over(false) && Pos(run.Last(), "C") == 1.0
  {
    hide Enabled, Next, StepsTo;
    run := Run([Initial(ONE_LEG)], []);
    PlacementRaises();
    run := Append(run, Raise(0, Some(FILLED)), Single(map[Maker(0) := FILLED], 1.0, Raised, Gathering));
    RaisedFails();
    run := Append(run, Gather, Single(map[Maker(0) := FILLED], 1.0, Raised, Rolling(0)));
    RaisedIsSkipped(a);
    run := Append(run, Rollback(0, a), Single(map[Maker(0) := FILLED], 1.0, Raised, Over(false)));
  }

  lemma PollSeesFilled(fill: LegFill)
    ensures StepsTo(Single(map[Maker(0) := FILLED], 1.0, MakerWait(fill, None), Gathering), Poll(0, true),
                    Single(map[Maker(0) := FILLED], 1.0, Done(ToFill(ONE_LEG, Maker(0), FILLED), ViaMaker), Gathering))
  {
  }

  lemma MakerSucceeds()
    ensures var leg := Done(ToFill(ONE_LEG, Maker(0), FILLED), ViaMaker);
            StepsTo(Single(map[Maker(0) := FILLED], 1.0, leg, Gathering), Gather,
                    Single(map[Maker(0) := FILLED], 1.0, leg, Over(true)))
  {
  }

  /** An ordinary entry: the maker order rests, fills, is polled and reported. It ends with exactly the size
      and one order, for good. */
  lemma OrdinaryEntry() returns (run: Run)
    ensures run.Legal(ONE_LEG) && run.Last().stage == Over(true)
    ensures run.Last().orders.Keys == {Maker(0)} && Pos(run.Last(), "C") == 1.0
    ensures StaysAsReported(ONE_LEG, run.Last())
  {
    hide Enabled, Next, ToFill, StepsTo, StaysAsReported;
    var f0, done := ToFill(ONE_LEG, Maker(0), OPEN), Done(ToFill(ONE_LEG, Maker(0), FILLED), ViaMaker);
    run := Run([Initial(ONE_LEG)], []);
    MakerIsPlaced(OPEN);
    run := Append(run, PlaceMaker(0, OPEN), Single(map[Maker(0) := OPEN], 0.0, MakerWait(f0, None), Gathering));
    MakerFills(map[], FILLED, 0.0, MakerWait(f0, None), Gathering);
    run := Append(run, Execute(Maker(0), FILLED), Single(map[Maker(0) := FILLED], 1.0, MakerWait(f0, None), Gathering));
    PollSeesFilled(f0);
    run := Append(run, Poll(0, true), Single(map[Maker(0) := FILLED], 1.0, done, Gathering));
    MakerSucceeds();
    run := Append(run, Gather, Single(map[Maker(0) := FILLED], 1.0, done, Over(true)));
    AllOrNothingIff(ONE_LEG, run);
    assert Accounted(ONE_LEG, run.Last(), 0);
  }
}
