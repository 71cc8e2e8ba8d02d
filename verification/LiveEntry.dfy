/**
 The concurrent multi-leg entry of the live executor (bot/execution/live.py), from the first order to
 the end of the rollback.

 Every leg places a post-only maker order, polls it, cancels it, and falls back to an IOC order
 for the full size. When all legs have returned or raised, an incomplete one sends the whole group
 into the rollback. The legs run concurrently and the exchange never stops, so between any two awaits
 the other legs and the exchange may act. The model is a state machine whose events are those atomic
 steps, with every reply chosen by an adversarial exchange. `pos` is the net position per symbol that
 the orders of this entry have really produced, whatever the bot believes.

 What is assumed of the exchange: an order never fills beyond its size, is reported as `filled`
 only when it is filled whole, a reply shows the order as it is, a successful cancel ends the order,
 and a reduce-only order does not open a position.
 */
module LiveEntry {
  import opened Common
  import opened Router

  datatype LegIntent = LegIntent(symbol: string, side: Side)

  /** `known` are the symbols whose instrument the rollback finds. */
  datatype Request = Request(legs: seq<LegIntent>, lots: real, known: set<string>) {
    ghost predicate Valid() {
      lots > 0.0 && forall i, j :: 0 <= i < j < |legs| ==> legs[i].symbol != legs[j].symbol
    }
  }

  /** The orders a leg may have at the exchange; `Unwind` is the rollback's. */
  datatype OrderId = Maker(leg: nat) | Ioc(leg: nat) | Unwind(leg: nat)

  datatype Order = Order(filled: real, avg: Option<real>, exchangeId: Option<int>, state: WireState) {
    predicate Legal(lots: real) {
      0.0 <= filled <= lots && (state == Filled ==> filled == lots)
    }
  }

  datatype Via = NoOrder | ViaMaker | ViaIoc(cancelled: bool)

  /** Where a leg's coroutine stands. `cancelled` records whether the maker cancel went through. */
  datatype Leg =
    | Start
    | MakerWait(fill: LegFill, last: Option<Order>)
    | Cancelling(fill: LegFill)
    | Fallback(cancelled: bool)
    | IocWait(fill: LegFill, last: Option<Order>, cancelled: bool)
    | Done(report: LegFill, via: Via)
    | Raised
  {
    predicate Ended() {
      Done? || Raised?
    }

    /** The size the leg reports as filled. */
    function Reported(): real {
      if Done? then report.filled else 0.0
    }
  }

  /** `submit_entry` awaits its legs, works through the rollback, has returned, or was left by an exception. */
  datatype Stage = Gathering | Rolling(next: nat) | Over(success: bool) | Aborted

  datatype State = State(orders: map<OrderId, Order>, pos: map<string, real>, legs: seq<Leg>, stage: Stage)

  /** How a rollback request was answered. `escapes` is an exception that the rollback does not catch. A
      close that was not confirmed may have been placed all the same. */
  datatype Answer = Answer(ok: bool, escapes: bool, placed: bool, amount: real, state: WireState) {
    predicate Confirmed() {
      ok && !escapes
    }
  }

  datatype Event =
    | NoQuote(i: nat)
    | PlaceMaker(i: nat, reply: Order)
    | PlaceIoc(i: nat, reply: Order)
    | Raise(i: nat, accepted: Option<Order>)  // an exception; a placement may have been accepted all the same
    | Poll(i: nat, found: bool)
    | Timeout(i: nat)
    | Cancel(i: nat, ok: bool)
    | Execute(id: OrderId, after: Order)      // the exchange fills or ends a live order
    | Rollback(i: nat, answer: Answer)        // the rollback loop handles fill `i`
    | Gather                                  // all legs are in

  function Purpose(id: OrderId): string {
    match id
    case Maker(_) => "entry"
    case Ioc(_) => "entry_ioc"
    case Unwind(_) => "rollback"
  }

  function ToFill(req: Request, id: OrderId, o: Order): LegFill
    requires id.leg < |req.legs|
  {
    var leg := req.legs[id.leg];
    LegFill(leg.symbol, leg.side, req.lots, o.filled, if o.filled > 0.0 then o.avg else None,
            id.leg, Purpose(id), o.exchangeId, o.state)
  }

  /** A report repeats the leg's symbol and side, the size asked for, and what the order shows; it has a price
      exactly if something was filled and the order has one. */
  lemma FillShowsOrder(req: Request, id: OrderId, o: Order)
    requires id.leg < |req.legs|
    ensures var f := ToFill(req, id, o);
            && f.symbol == req.legs[id.leg].symbol && f.side == req.legs[id.leg].side && f.requested == req.lots
            && f.filled == o.filled && f.state == o.state && f.exchangeId == o.exchangeId && f.legIdx == id.leg
            && (f.avgPrice.Some? <==> o.filled > 0.0 && o.avg.Some?) && (f.avgPrice.Some? ==> f.avgPrice == o.avg)
  {
  }

  function RejectedFill(req: Request, i: nat): LegFill
    requires i < |req.legs|
  {
    LegFill(req.legs[i].symbol, req.legs[i].side, req.lots, 0.0, None, i, "missing_quote", None, Rejected)
  }

  function FilledBy(s: State, id: OrderId): real {
    if id in s.orders then s.orders[id].filled else 0.0
  }

  function Pos(s: State, symbol: string): real {
    if symbol in s.pos then s.pos[symbol] else 0.0
  }

  /** The side on which an order of a leg trades. */
  function SideOf(req: Request, id: OrderId): Side
    requires id.leg < |req.legs|
  {
    if id.Unwind? then Flip(req.legs[id.leg].side) else req.legs[id.leg].side
  }

  /** Record an order and move the position by what it filled since it was last recorded. */
  function Put(req: Request, s: State, id: OrderId, o: Order): State
    requires id.leg < |req.legs|
  {
    var symbol := req.legs[id.leg].symbol;
    s.(orders := s.orders[id := o],
    pos := s.pos[symbol := Pos(s, symbol) + Signed(SideOf(req, id), o.filled - FilledBy(s, id))])
  }

  /** A successful cancel ends a live order; there is nothing to end otherwise. */
  function CancelOrder(req: Request, s: State, id: OrderId): State
    requires id.leg < |req.legs|
  {
    if id in s.orders && s.orders[id].state.Live() then Put(req, s, id, s.orders[id].(state := Cancelled)) else s
  }

  function Goto(s: State, i: nat, leg: Leg): State
    requires i < |s.legs|
  {
    s.(legs := s.legs[i := leg])
  }

  /** After the maker wait: keep a complete fill, cancel otherwise. */
  function AfterMaker(fill: LegFill): Leg {
    if fill.IsComplete() then Done(fill, ViaMaker) else Cancelling(fill)
  }

  // ------------------------------------------------------------------ the fill list and the rollback

  predicate Finished(s: State) {
    forall i :: 0 <= i < |s.legs| ==> s.legs[i].Ended()
  }

  /** A leg's entry in the fill list: an exception becomes a zero-fill placeholder without a symbol. */
  function Report(req: Request, leg: Leg): LegFill {
    if leg.Done? then leg.report else LegFill("?", Buy, req.lots, 0.0, None, -1, "error", None, Rejected)
  }

  function Reports(req: Request, s: State): seq<LegFill> {
    seq(|s.legs|, i requires 0 <= i < |s.legs| => Report(req, s.legs[i]))
  }

  predicate Success(fills: seq<LegFill>) {
    forall i :: 0 <= i < |fills| ==> fills[i].IsComplete()
  }

  /** How much a reduce-only order on leg `i` can take off at most. */
  function Reducible(req: Request, s: State, i: nat): real
    requires i < |req.legs|
  {
    Max(0.0, Signed(req.legs[i].side, Pos(s, req.legs[i].symbol)))
  }

  /** What the exchange makes of a reduce-only close: never more than its size or the position. */
  function UnwindFill(req: Request, s: State, i: nat, size: real, amount: real): real
    requires i < |req.legs|
  {
    Min(Max(0.0, amount), Min(size, Reducible(req, s, i)))
  }

  function PlaceUnwind(req: Request, s: State, i: nat, size: real, a: Answer): State
    requires i < |req.legs|
  {
    if a.Confirmed() || a.placed
    then Put(req, s, Unwind(i), Order(UnwindFill(req, s, i, size, a.amount), None, None, a.state))
    else s
  }

  /** The rollback of one fill: a close for what was reported filled, otherwise a cancel of its order. */
  function Undo(req: Request, s: State, i: nat, fill: LegFill, a: Answer): State
    requires i < |req.legs|
  {
    if fill.filled > 0.0 then if fill.symbol in req.known then PlaceUnwind(req, s, i, fill.filled, a) else s
    else if HasOrder(fill) && a.Confirmed()
      then CancelOrder(req, s, if fill.clientId == "entry" then Maker(i) else Ioc(i))
    else s
  }

  /** The fill names an order that can be cancelled. */
  predicate HasOrder(fill: LegFill) {
    fill.exchangeId.Some? || (fill.clientId != "" && fill.clientId != "error" && fill.clientId != "missing_quote")
  }

  // ------------------------------------------------------------------ steps

  /** The leg an event belongs to. */
  function LegOf(e: Event): nat
    requires !e.Gather?
  {
    if e.Execute? then e.id.leg else e.i
  }

  /** What the exchange may make of a live order. */
  predicate MayBecome(req: Request, s: State, id: OrderId, after: Order)
    requires id in s.orders && id.leg < |s.legs| == |req.legs|
  {
    && after.filled >= s.orders[id].filled
    && if id.Unwind?
       then after.filled <= s.legs[id.leg].Reported() && after.filled - s.orders[id].filled <= Reducible(req, s, id.leg)
       else after.Legal(req.lots)
  }

  predicate Enabled(req: Request, s: State, e: Event) {
    && |s.legs| == |req.legs|
    && if e.Gather? then s.stage == Gathering && Finished(s)
       else LegOf(e) < |s.legs| && LegEnabled(req, s, e, s.legs[LegOf(e)])
  }

  predicate LegEnabled(req: Request, s: State, e: Event, leg: Leg)
    requires !e.Gather? && LegOf(e) < |s.legs| == |req.legs|
  {
    match e
    case NoQuote(i) => leg.Start?
    case PlaceMaker(i, reply) => leg.Start? && reply.Legal(req.lots)
    case PlaceIoc(i, reply) => leg.Fallback? && reply.Legal(req.lots)
    case Raise(i, accepted) =>
      && (leg.Start? || leg.Fallback? || (accepted.None? && (leg.MakerWait? || leg.Cancelling? || leg.IocWait?)))
      && (accepted.Some? ==> accepted.value.Legal(req.lots))
    case Poll(i, found) => (leg.MakerWait? && Maker(i) in s.orders) || (leg.IocWait? && Ioc(i) in s.orders)
    case Timeout(i) => leg.MakerWait? || leg.IocWait?
    case Cancel(i, ok) => leg.Cancelling?
    case Execute(id, after) => id in s.orders && s.orders[id].state.Live() && MayBecome(req, s, id, after)
    case Rollback(i, answer) => s.stage == Rolling(i)
  }

  /** The effect of an event at the exchange. */
  function Book(req: Request, s: State, e: Event): State
    requires Enabled(req, s, e) && !e.Gather?
  {
    match e
    case PlaceMaker(i, reply) => Put(req, s, Maker(i), reply)
    case PlaceIoc(i, reply) => Put(req, s, Ioc(i), reply)
    case Raise(i, accepted) =>
      if accepted.None? then s else Put(req, s, if s.legs[i].Start? then Maker(i) else Ioc(i), accepted.value)
    case Cancel(i, ok) => if ok then CancelOrder(req, s, Maker(i)) else s
    case Execute(id, after) => Put(req, s, id, after)
    case Rollback(i, answer) => Undo(req, s, i, Report(req, s.legs[i]), answer)
    case _ => s
  }

  /** Where the event takes its leg's coroutine. */
  function Move(req: Request, s: State, e: Event): Leg
    requires Enabled(req, s, e) && !e.Gather?
  {
    var leg := s.legs[LegOf(e)];
    match e
    case NoQuote(i) => Done(RejectedFill(req, i), NoOrder)
    case PlaceMaker(i, reply) =>
      var fill := ToFill(req, Maker(i), reply);
      if fill.IsComplete() then Done(fill, ViaMaker) else MakerWait(fill, None)
    case PlaceIoc(i, reply) =>
      var fill := ToFill(req, Ioc(i), reply);
      if fill.IsComplete() then Done(fill, ViaIoc(leg.cancelled)) else IocWait(fill, None, leg.cancelled)
    case Raise(i, accepted) => Raised
    case Poll(i, found) =>
      if leg.MakerWait? then
        var seen := s.orders[Maker(i)];
        if !found then MakerWait(leg.fill, None)
        else if seen.state.Live() then MakerWait(leg.fill, Some(seen))
        else AfterMaker(ToFill(req, Maker(i), seen))
      else
        var seen := s.orders[Ioc(i)];
        if !found then IocWait(leg.fill, None, leg.cancelled)
        else if seen.state.Live() then IocWait(leg.fill, Some(seen), leg.cancelled)
        else Done(ToFill(req, Ioc(i), seen), ViaIoc(leg.cancelled))
    case Timeout(i) =>
      if leg.MakerWait? then
        if leg.last.Some? then AfterMaker(ToFill(req, Maker(i), leg.last.value)) else Cancelling(leg.fill)
      else
        Done(if leg.last.Some? then ToFill(req, Ioc(i), leg.last.value) else leg.fill, ViaIoc(leg.cancelled))
    case Cancel(i, ok) => Fallback(ok)
    case Execute(id, after) => leg
    case Rollback(i, answer) => leg
  }

  /** The stage after an event: a failed group is rolled back fill by fill. */
  function StageAfter(req: Request, s: State, e: Event): Stage {
    match e
    case Gather => if Success(Reports(req, s)) then Over(true) else Rolling(0)
    case Rollback(i, a) =>
      if a.escapes then Aborted else if i + 1 < |s.legs| then Rolling(i + 1) else Over(false)
    case _ => s.stage
  }

  function Next(req: Request, s: State, e: Event): State
    requires Enabled(req, s, e)
  {
    var t := if e.Gather? then s else Goto(Book(req, s, e), LegOf(e), Move(req, s, e));
    t.(stage := StageAfter(req, s, e))
  }

  function Initial(req: Request): State {
    State(map[], map[], seq(|req.legs|, _ => Start), Gathering)
  }

  // ------------------------------------------------------------------ the invariant

  ghost predicate OrderOk(req: Request, s: State, id: OrderId) {
    id in s.orders ==> s.orders[id].Legal(req.lots)
  }

  predicate Dead(s: State, id: OrderId) {
    id in s.orders ==> !s.orders[id].state.Live()
  }

  /** The fill is what an earlier reply showed of the order: no more than the order has filled since, and
      exactly the order if the reply was terminal. */
  ghost predicate Shows(req: Request, s: State, id: OrderId, fill: LegFill)
    requires id.leg < |req.legs|
  {
    && id in s.orders
    && fill.symbol == req.legs[id.leg].symbol && fill.side == req.legs[id.leg].side && fill.requested == req.lots
    && fill.clientId == Purpose(id)
    && 0.0 <= fill.filled <= s.orders[id].filled
    && (fill.state == Filled ==> fill.filled == req.lots)
    && (!fill.state.Live() ==> fill == ToFill(req, id, s.orders[id]))
  }

  /** What is known of the orders at each point of a leg's coroutine. */
  ghost predicate ControlOk(req: Request, s: State, i: nat)
    requires i < |s.legs| == |req.legs|
  {
    match s.legs[i]
    case Start => Maker(i) !in s.orders && Ioc(i) !in s.orders
    case MakerWait(fill, last) =>
      && Maker(i) in s.orders && Ioc(i) !in s.orders
      && (last.Some? ==> last.value.state.Live())
    case Cancelling(fill) => Maker(i) in s.orders && Ioc(i) !in s.orders
    case Fallback(c) => Maker(i) in s.orders && Ioc(i) !in s.orders && (c ==> Dead(s, Maker(i)))
    case IocWait(fill, last, c) =>
      && (c ==> Dead(s, Maker(i))) && Shows(req, s, Ioc(i), fill)
      && (last.Some? ==> Shows(req, s, Ioc(i), ToFill(req, Ioc(i), last.value)))
    case Done(report, via) =>
      (match via
       case NoOrder => report == RejectedFill(req, i) && Maker(i) !in s.orders && Ioc(i) !in s.orders
       case ViaMaker => Shows(req, s, Maker(i), report) && report.IsComplete() && Ioc(i) !in s.orders
       case ViaIoc(c) => (c ==> Dead(s, Maker(i))) && Shows(req, s, Ioc(i), report))
    case Raised => true
  }

  /** A close takes off no more than its leg reported. */
  ghost predicate UnwindOk(s: State, i: nat)
    requires i < |s.legs|
  {
    Unwind(i) in s.orders ==> s.legs[i].Done? && 0.0 <= s.orders[Unwind(i)].filled <= s.legs[i].report.filled
  }

  /** The position in a leg's symbol is what its own orders filled, less what the rollback took off. */
  ghost predicate PositionOk(req: Request, s: State, i: nat)
    requires i < |req.legs|
  {
    Pos(s, req.legs[i].symbol)
    == Signed(req.legs[i].side, FilledBy(s, Maker(i)) + FilledBy(s, Ioc(i)) - FilledBy(s, Unwind(i)))
  }

  ghost predicate LegOk(req: Request, s: State, i: nat)
    requires i < |s.legs| == |req.legs|
  {
    && OrderOk(req, s, Maker(i)) && OrderOk(req, s, Ioc(i))
    && ControlOk(req, s, i) && UnwindOk(s, i) && PositionOk(req, s, i)
  }

  /** Closes exist only for the fills the rollback has reached. */
  ghost predicate StageOk(req: Request, s: State) {
    match s.stage
    case Gathering => forall i :: Unwind(i) !in s.orders
    case Rolling(k) =>
      k < |s.legs| && Finished(s) && !Success(Reports(req, s)) && forall i :: i >= k ==> Unwind(i) !in s.orders
    case Over(success) =>
      Finished(s) && success == Success(Reports(req, s)) && (success ==> forall i :: Unwind(i) !in s.orders)
    case Aborted => Finished(s) && !Success(Reports(req, s))
  }

  ghost predicate Inv(req: Request, s: State) {
    && |s.legs| == |req.legs|
    && (forall id :: id in s.orders ==> id.leg < |req.legs|)
    && (forall i: nat :: i < |s.legs| ==> LegOk(req, s, i))
    && StageOk(req, s)
  }

  lemma InitialOk(req: Request)
    ensures Inv(req, Initial(req))
  {
  }

  /** A step of leg `i` touches that leg, its orders and its symbol only. */
  ghost predicate OnlyLeg(req: Request, s: State, t: State, i: nat)
    requires i < |req.legs|
  {
    && |t.legs| == |s.legs| == |req.legs|
    && (forall j :: 0 <= j < |s.legs| && j != i ==> t.legs[j] == s.legs[j])
    && (forall id: OrderId :: id.leg != i ==> SameOrder(s, t, id))
    && (forall symbol :: symbol != req.legs[i].symbol ==> Pos(t, symbol) == Pos(s, symbol))
  }

  ghost predicate SameOrder(s: State, t: State, id: OrderId) {
    (id in s.orders <==> id in t.orders) && (id in s.orders ==> t.orders[id] == s.orders[id])
  }

  lemma OthersKept(req: Request, s: State, t: State, i: nat, j: nat)
    requires req.Valid() && i < |req.legs| && j < |req.legs| && i != j && OnlyLeg(req, s, t, i)
    requires LegOk(req, s, j)
    ensures LegOk(req, t, j)
  {
    assert req.legs[i].symbol != req.legs[j].symbol;
    assert SameOrder(s, t, Maker(j)) && SameOrder(s, t, Ioc(j)) && SameOrder(s, t, Unwind(j));
    assert t.legs[j] == s.legs[j];
  }

  lemma PutOnlyLeg(req: Request, s: State, id: OrderId, o: Order)
    requires id.leg < |req.legs| == |s.legs|
    ensures OnlyLeg(req, s, Put(req, s, id, o), id.leg)
  {
  }

  lemma CancelOnlyLeg(req: Request, s: State, id: OrderId)
    requires id.leg < |req.legs| == |s.legs|
    ensures OnlyLeg(req, s, CancelOrder(req, s, id), id.leg)
  {
    hide Put;
    if id in s.orders {
      PutOnlyLeg(req, s, id, s.orders[id].(state := Cancelled));
    }
  }

  lemma UndoOnlyLeg(req: Request, s: State, i: nat, fill: LegFill, a: Answer)
    requires i < |req.legs| == |s.legs|
    ensures OnlyLeg(req, s, Undo(req, s, i, fill, a), i)
  {
    hide Put, CancelOrder;
    PutOnlyLeg(req, s, Unwind(i), Order(UnwindFill(req, s, i, fill.filled, a.amount), None, None, a.state));
    CancelOnlyLeg(req, s, Maker(i));
    CancelOnlyLeg(req, s, Ioc(i));
  }

  lemma BookOnlyLeg(req: Request, s: State, e: Event)
    requires Enabled(req, s, e) && !e.Gather?
    ensures OnlyLeg(req, s, Book(req, s, e), LegOf(e))
  {
    hide Put, CancelOrder, Undo;
    match e {
      case PlaceMaker(i, reply) => PutOnlyLeg(req, s, Maker(i), reply);
      case PlaceIoc(i, reply) => PutOnlyLeg(req, s, Ioc(i), reply);
      case Raise(i, accepted) =>
        if accepted.Some? {
          PutOnlyLeg(req, s, if s.legs[i].Start? then Maker(i) else Ioc(i), accepted.value);
        }
      case Cancel(i, ok) => CancelOnlyLeg(req, s, Maker(i));
      case Execute(id, after) => PutOnlyLeg(req, s, id, after);
      case Rollback(i, answer) => UndoOnlyLeg(req, s, i, Report(req, s.legs[i]), answer);
      case _ =>
    }
  }

  lemma NextOnlyLeg(req: Request, s: State, e: Event)
    requires Enabled(req, s, e) && !e.Gather?
    ensures OnlyLeg(req, s, Next(req, s, e), LegOf(e))
  {
    BookOnlyLeg(req, s, e);
    hide Book, Move, Enabled;
  }

  // ------------------------------------------------------------------ the leg that moves

  /** A live order that fills or ends still backs what earlier replies showed of it. */
  lemma ShowsGrows(req: Request, s: State, t: State, id: OrderId, fill: LegFill)
    requires id.leg < |req.legs| && Shows(req, s, id, fill) && Grows(s, t, id)
    ensures Shows(req, t, id, fill)
  {
  }

  /** Where no coroutine moves, control stays right if live orders only grow and dead ones stay. */
  ghost predicate Grows(s: State, t: State, id: OrderId) {
    && (id in s.orders <==> id in t.orders)
    && (id in s.orders ==>
          t.orders[id] == s.orders[id] || (s.orders[id].state.Live() && t.orders[id].filled >= s.orders[id].filled))
  }

  lemma ControlGrows(req: Request, s: State, t: State, i: nat)
    requires i < |s.legs| == |t.legs| == |req.legs| && t.legs[i] == s.legs[i] && ControlOk(req, s, i)
    requires Grows(s, t, Maker(i)) && Grows(s, t, Ioc(i))
    ensures ControlOk(req, t, i)
  {
    hide Shows, ToFill, RejectedFill;
    var leg := s.legs[i];
    if leg.IocWait? {
      ShowsGrows(req, s, t, Ioc(i), leg.fill);
      if leg.last.Some? {
        ShowsGrows(req, s, t, Ioc(i), ToFill(req, Ioc(i), leg.last.value));
      }
    } else if leg.Done? && leg.via.ViaMaker? {
      ShowsGrows(req, s, t, Maker(i), leg.report);
    } else if leg.Done? && leg.via.ViaIoc? {
      ShowsGrows(req, s, t, Ioc(i), leg.report);
    }
  }

  lemma ExecuteOrRollbackControl(req: Request, s: State, e: Event)
    requires req.Valid() && Enabled(req, s, e) && (e.Execute? || e.Rollback?) && LegOk(req, s, LegOf(e))
    ensures |Next(req, s, e).legs| == |req.legs| && ControlOk(req, Next(req, s, e), LegOf(e))
  {
    hide PositionOk, Pos, Reducible, StageAfter, ControlOk;
    ControlGrows(req, s, Next(req, s, e), LegOf(e));
  }

  lemma PollControl(req: Request, s: State, e: Event)
    requires req.Valid() && Enabled(req, s, e) && (e.Poll? || e.Timeout?) && LegOk(req, s, LegOf(e))
    ensures |Next(req, s, e).legs| == |req.legs| && ControlOk(req, Next(req, s, e), LegOf(e))
  {
    hide PositionOk, Pos, Reducible, StageAfter, UnwindOk;
  }

  lemma NextOwnControl(req: Request, s: State, e: Event)
    requires req.Valid() && Enabled(req, s, e) && !e.Gather? && LegOk(req, s, LegOf(e))
    ensures |Next(req, s, e).legs| == |req.legs| && ControlOk(req, Next(req, s, e), LegOf(e))
  {
    if e.Execute? || e.Rollback? {
      ExecuteOrRollbackControl(req, s, e);
    } else if e.Poll? || e.Timeout? {
      PollControl(req, s, e);
    } else {
      PlaceControl(req, s, e);
    }
  }

  lemma PlaceControl(req: Request, s: State, e: Event)
    requires e.NoQuote? || e.PlaceMaker? || e.PlaceIoc? || e.Raise? || e.Cancel?
    requires req.Valid() && Enabled(req, s, e) && LegOk(req, s, LegOf(e))
    ensures |Next(req, s, e).legs| == |req.legs| && ControlOk(req, Next(req, s, e), LegOf(e))
  {
    hide PositionOk, Pos, Reducible, StageAfter, UnwindOk;
  }

  lemma NextOwnOrders(req: Request, s: State, e: Event)
    requires req.Valid() && Enabled(req, s, e) && !e.Gather? && LegOk(req, s, LegOf(e))
    ensures OrderOk(req, Next(req, s, e), Maker(LegOf(e))) && OrderOk(req, Next(req, s, e), Ioc(LegOf(e)))
  {
    hide PositionOk, Pos, Reducible, Move, StageAfter, ControlOk;
  }

  /** What a leg reports it really has. */
  lemma ReportBacked(req: Request, s: State, i: nat)
    requires i < |s.legs| == |req.legs| && LegOk(req, s, i) && req.Valid()
    ensures 0.0 <= s.legs[i].Reported() <= FilledBy(s, Maker(i)) + FilledBy(s, Ioc(i))
    ensures s.legs[i].Done? ==> 0.0 <= s.legs[i].report.filled <= req.lots
  {
  }

  lemma NextOwnUnwind(req: Request, s: State, e: Event)
    requires req.Valid() && Enabled(req, s, e) && !e.Gather? && LegOk(req, s, LegOf(e))
    ensures UnwindOk(Next(req, s, e), LegOf(e))
  {
    hide PositionOk, Pos, ControlOk;
    ReportBacked(req, s, LegOf(e));
  }

  lemma PutPosition(req: Request, s: State, id: OrderId, o: Order)
    requires id.leg < |req.legs| && PositionOk(req, s, id.leg)
    ensures PositionOk(req, Put(req, s, id, o), id.leg)
  {
  }

  lemma CancelPosition(req: Request, s: State, id: OrderId)
    requires id.leg < |req.legs| && PositionOk(req, s, id.leg)
    ensures PositionOk(req, CancelOrder(req, s, id), id.leg)
  {
    hide Put, PositionOk;
    if id in s.orders {
      PutPosition(req, s, id, s.orders[id].(state := Cancelled));
    }
  }

  lemma UndoPosition(req: Request, s: State, i: nat, fill: LegFill, a: Answer)
    requires i < |req.legs| && PositionOk(req, s, i)
    ensures PositionOk(req, Undo(req, s, i, fill, a), i)
  {
    hide Put, CancelOrder, PositionOk;
    PutPosition(req, s, Unwind(i), Order(UnwindFill(req, s, i, fill.filled, a.amount), None, None, a.state));
    CancelPosition(req, s, Maker(i));
    CancelPosition(req, s, Ioc(i));
  }

  lemma BookPosition(req: Request, s: State, e: Event)
    requires Enabled(req, s, e) && !e.Gather? && PositionOk(req, s, LegOf(e))
    ensures PositionOk(req, Book(req, s, e), LegOf(e))
  {
    hide Put, CancelOrder, Undo, PositionOk;
    match e {
      case PlaceMaker(i, reply) => PutPosition(req, s, Maker(i), reply);
      case PlaceIoc(i, reply) => PutPosition(req, s, Ioc(i), reply);
      case Raise(i, accepted) =>
        if accepted.Some? {
          PutPosition(req, s, if s.legs[i].Start? then Maker(i) else Ioc(i), accepted.value);
        }
      case Cancel(i, ok) => CancelPosition(req, s, Maker(i));
      case Execute(id, after) => PutPosition(req, s, id, after);
      case Rollback(i, answer) => UndoPosition(req, s, i, Report(req, s.legs[i]), answer);
      case _ =>
    }
  }

  lemma NextOwnPosition(req: Request, s: State, e: Event)
    requires Enabled(req, s, e) && !e.Gather? && PositionOk(req, s, LegOf(e))
    ensures PositionOk(req, Next(req, s, e), LegOf(e))
  {
    BookPosition(req, s, e);
    hide Book, Move, Enabled;
  }

  lemma NextOwnLeg(req: Request, s: State, e: Event)
    requires req.Valid() && Enabled(req, s, e) && !e.Gather? && LegOk(req, s, LegOf(e))
    ensures |Next(req, s, e).legs| == |req.legs| && LegOk(req, Next(req, s, e), LegOf(e))
  {
    NextOwnControl(req, s, e);
    hide ControlOk, Next, Enabled, OrderOk, UnwindOk, PositionOk;
    NextOwnOrders(req, s, e);
    NextOwnUnwind(req, s, e);
    NextOwnPosition(req, s, e);
  }

  // ------------------------------------------------------------------ the group

  lemma NextIds(req: Request, s: State, e: Event)
    requires Inv(req, s) && Enabled(req, s, e)
    ensures forall id :: id in Next(req, s, e).orders ==> id.leg < |req.legs|
  {
    hide LegOk, Move, StageOk;
  }

  /** Once all legs are in, only the rollback and the exchange act, and no leg changes any more. */
  lemma FinishedStays(req: Request, s: State, e: Event)
    requires Enabled(req, s, e) && Finished(s)
    ensures e.Execute? || e.Rollback? || e.Gather?
    ensures Next(req, s, e).legs == s.legs
  {
    hide Put, CancelOrder, Undo;
    if !e.Gather? {
      assert s.legs[LegOf(e)].Ended();
      assert Book(req, s, e).legs == s.legs by {
        BookKeepsLegs(req, s, e);
      }
    }
  }

  lemma BookKeepsLegs(req: Request, s: State, e: Event)
    requires Enabled(req, s, e) && !e.Gather?
    ensures Book(req, s, e).legs == s.legs
  {
  }

  /** Only the rollback creates closes. */
  lemma UnwindsComeFromRollback(req: Request, s: State, e: Event, j: nat)
    requires Enabled(req, s, e) && Unwind(j) !in s.orders
    ensures Unwind(j) in Next(req, s, e).orders ==> e.Rollback? && e.i == j
  {
    hide Move, MayBecome;
  }

  lemma NextStage(req: Request, s: State, e: Event)
    requires Inv(req, s) && Enabled(req, s, e)
    ensures StageOk(req, Next(req, s, e))
  {
    var t := Next(req, s, e);
    if Finished(s) {
      FinishedStays(req, s, e);
      assert Reports(req, t) == Reports(req, s);
    }
    forall j: nat | Unwind(j) !in s.orders ensures Unwind(j) in t.orders ==> e.Rollback? && e.i == j {
      UnwindsComeFromRollback(req, s, e, j);
    }
    StageStep(req, s, e, t);
  }

  lemma StageStep(req: Request, s: State, e: Event, t: State)
    requires Enabled(req, s, e) && StageOk(req, s) && t.stage == StageAfter(req, s, e) && |t.legs| == |s.legs|
    requires Finished(s) ==>
             t.legs == s.legs && Reports(req, t) == Reports(req, s) && (e.Execute? || e.Rollback? || e.Gather?)
    requires forall j: nat :: Unwind(j) !in s.orders ==> Unwind(j) in t.orders ==> e.Rollback? && e.i == j
    ensures StageOk(req, t)
  {
    hide Reports, Success, MayBecome;
    assert e.Gather? && |s.legs| == 0 ==> Success(Reports(req, s)) by {
      NoLegsSucceed(req, s);
    }
  }

  lemma NoLegsSucceed(req: Request, s: State)
    ensures |s.legs| == 0 ==> Success(Reports(req, s))
  {
  }

  /** Every step of every leg, of the rollback and of the exchange keeps the invariant. */
  lemma NextKeepsInv(req: Request, s: State, e: Event)
    requires req.Valid() && Inv(req, s) && Enabled(req, s, e)
    ensures Inv(req, Next(req, s, e))
  {
    var t := Next(req, s, e);
    NextIds(req, s, e);
    NextStage(req, s, e);
    if e.Gather? {
      GatherKeepsLegs(req, s, e);
    } else {
      assert LegOk(req, s, LegOf(e));
      NextOnlyLeg(req, s, e);
      NextOwnLeg(req, s, e);
      hide LegOk, Next, Enabled, StageOk;
      forall j: nat | j < |t.legs| ensures LegOk(req, t, j) {
        if j != LegOf(e) {
          assert LegOk(req, s, j);
          OthersKept(req, s, t, LegOf(e), j);
        }
      }
    }
  }

  lemma GatherKeepsLegs(req: Request, s: State, e: Event)
    requires Inv(req, s) && Enabled(req, s, e) && e.Gather?
    ensures |Next(req, s, e).legs| == |req.legs|
    ensures forall j: nat :: j < |req.legs| ==> LegOk(req, Next(req, s, e), j)
  {
    var t := Next(req, s, e);
    forall j: nat | j < |req.legs| ensures LegOk(req, t, j) {
      assert LegOk(req, s, j);
    }
  }
}
