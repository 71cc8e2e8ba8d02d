/** The boot reconciler: DB order state repaired against the exchange (bot/execution/reconcile.py). */
module Reconcile {
  import opened Common

  datatype DbOrder = DbOrder(id: int, coid: string, tradeId: Option<int>, legIdx: Option<int>, ts: int,
                             state: string, qty: real, filledQty: real, filledPrice: Option<real>)

  datatype TradeStatus = TradeOpen | TradeClosed | TradeErrored

  datatype LegStatus = LegOpen | LegClosed

  datatype Trade = Trade(id: int, status: TradeStatus, legs: seq<LegStatus>)

  /** An entry of the open-orders list; a missing client id reads as "". */
  datatype LiveOrder = LiveOrder(coid: string, state: Option<string>)

  /** The reply to a single-order lookup. */
  datatype Record = Record(state: Option<string>, filledSize: Option<real>, avgPrice: Option<real>)

  /** `open` is None when the listing fails; lookups that fail or find nothing are absent. */
  datatype Exchange = Exchange(open: Option<seq<LiveOrder>>, lookup: map<string, Record>)

  datatype Mismatch =
    | RestError
    | ForeignOpen(coid: string)
    | FillStateRegression(orderId: int)
    | PartialLegGroup(tradeId: int)

  datatype Report = Report(ordersChecked: nat, ordersUpdated: nat, tradesChecked: nat, mismatches: seq<Mismatch>)

  predicate IsOpenState(state: string) {
    state == "pending" || state == "open" || state == "partially_filled"
  }

  predicate IsTerminalLocal(state: string) {
    state == "filled" || state == "canceled" || state == "rejected"
  }

  // ------------------------------------------------------------------ orders

  /** `live_by_coid`: later entries win, entries without a client id are ignored. */
  function LiveIndex(open: seq<LiveOrder>): map<string, LiveOrder> {
    if |open| == 0 then map[]
    else
      var m, o := LiveIndex(open[..|open| - 1]), open[|open| - 1];
      if o.coid == "" then m else m[o.coid := o]
  }

  /** Its keys in insertion order. */
  function LiveKeys(open: seq<LiveOrder>): seq<string> {
    if |open| == 0 then []
    else
      var ks, o := LiveKeys(open[..|open| - 1]), open[|open| - 1];
      if o.coid == "" || o.coid in ks then ks else ks + [o.coid]
  }

  function LiveState(o: LiveOrder): string {
    if o.state.None? then "open" else o.state.value
  }

  /** A missing or failed lookup counts as canceled; a record without a state reads "None". */
  function LookupState(r: Option<Record>): string {
    if r.None? then "canceled"
    else if r.value.state.None? then "None"
    else if r.value.state.value == "" then "canceled"
    else r.value.state.value
  }

  datatype Verdict = Unchanged | Updated | Regressed

  function Lookup(ex: Exchange, coid: string): Option<Record> {
    if coid in ex.lookup then Some(ex.lookup[coid]) else None
  }

  /** Repair one open DB order. */
  function Resolve(o: DbOrder, live: map<string, LiveOrder>, ex: Exchange): (DbOrder, Verdict) {
    if o.coid in live then
      var state := LiveState(live[o.coid]);
      if state != o.state then (o.(state := state), Updated) else (o, Unchanged)
    else
      var r := Lookup(ex, o.coid);
      var state := LookupState(r);
      if state == "filled" && r.Some? then
        (o.(state := "filled",
         filledQty := if OrZero(r.value.filledSize) != 0.0 then OrZero(r.value.filledSize) else o.qty,
         filledPrice := if r.value.avgPrice.Some? then r.value.avgPrice else o.filledPrice), Updated)
      else if IsTerminalLocal(state) then (o.(state := "canceled"), Updated)
      else (o, Regressed)
  }

  function Repair(o: DbOrder, live: map<string, LiveOrder>, ex: Exchange): DbOrder {
    if IsOpenState(o.state) then Resolve(o, live, ex).0 else o
  }

  function VerdictOf(o: DbOrder, live: map<string, LiveOrder>, ex: Exchange): Verdict {
    if IsOpenState(o.state) then Resolve(o, live, ex).1 else Unchanged
  }

  function RepairAll(orders: seq<DbOrder>, live: map<string, LiveOrder>, ex: Exchange): seq<DbOrder> {
    seq(|orders|, i requires 0 <= i < |orders| => Repair(orders[i], live, ex))
  }

  function CountUpdated(orders: seq<DbOrder>, live: map<string, LiveOrder>, ex: Exchange): nat {
    if |orders| == 0 then 0
    else
      var n := |orders| - 1;
      CountUpdated(orders[..n], live, ex) + if VerdictOf(orders[n], live, ex) == Updated then 1 else 0
  }

  function Regressions(orders: seq<DbOrder>, live: map<string, LiveOrder>, ex: Exchange): seq<Mismatch> {
    if |orders| == 0 then []
    else
      var n := |orders| - 1;
      Regressions(orders[..n], live, ex)
      + if VerdictOf(orders[n], live, ex) == Regressed then [FillStateRegression(orders[n].id)] else []
  }

  function OpenCoids(orders: seq<DbOrder>): set<string> {
    set i | 0 <= i < |orders| && IsOpenState(orders[i].state) :: orders[i].coid
  }

  function Foreign(keys: seq<string>, known: set<string>): seq<Mismatch> {
    if |keys| == 0 then []
    else
      var n := |keys| - 1;
      Foreign(keys[..n], known) + if keys[n] in known then [] else [ForeignOpen(keys[n])]
  }

  // ------------------------------------------------------------------ leg groups

  /** Order `k` belongs to a leg of the trade. */
  predicate IsLegRow(orders: seq<DbOrder>, k: int, trade: int) {
    0 <= k < |orders| && orders[k].tradeId == Some(trade) && orders[k].legIdx.Some?
  }

  /** Order `k` is the newest of its leg: latest timestamp, first row among equals. */
  ghost predicate IsNewest(orders: seq<DbOrder>, k: int, trade: int) {
    && IsLegRow(orders, k, trade)
    && forall j :: IsLegRow(orders, j, trade) && orders[j].legIdx == orders[k].legIdx ==>
         orders[j].ts < orders[k].ts || (orders[j].ts == orders[k].ts && k <= j)
  }

  /** Some leg's newest order is filled while another's is neither filled, canceled nor rejected. */
  ghost predicate Mixed(orders: seq<DbOrder>, trade: int) {
    && (exists k :: IsNewest(orders, k, trade) && orders[k].state == "filled")
    && (exists k :: IsNewest(orders, k, trade) && !IsTerminalLocal(orders[k].state))
  }

  ghost function PartialGroups(trades: seq<Trade>, orders: seq<DbOrder>): seq<Mismatch> {
    if |trades| == 0 then []
    else
      var n := |trades| - 1;
      PartialGroups(trades[..n], orders)
      + if trades[n].status == TradeOpen && Mixed(orders, trades[n].id) then [PartialLegGroup(trades[n].id)] else []
  }

  /** A trade all of whose leg orders were canceled never came into being. */
  ghost predicate AllCanceled(orders: seq<DbOrder>, trade: int) {
    && (exists k :: IsLegRow(orders, k, trade))
    && forall k :: IsLegRow(orders, k, trade) ==> orders[k].state == "canceled"
  }

  ghost function CloseTrade(t: Trade, orders: seq<DbOrder>): Trade {
    if t.status == TradeOpen && AllCanceled(orders, t.id)
    then t.(status := TradeClosed, legs := seq(|t.legs|, _ => LegClosed))
    else t
  }

  ghost function CloseTrades(trades: seq<Trade>, orders: seq<DbOrder>): seq<Trade> {
    seq(|trades|, i requires 0 <= i < |trades| => CloseTrade(trades[i], orders))
  }

  function CountOpenTrades(trades: seq<Trade>): nat {
    if |trades| == 0 then 0
    else CountOpenTrades(trades[..|trades| - 1]) + if trades[|trades| - 1].status == TradeOpen then 1 else 0
  }

  function CountOpenOrders(orders: seq<DbOrder>): nat {
    if |orders| == 0 then 0
    else CountOpenOrders(orders[..|orders| - 1]) + if IsOpenState(orders[|orders| - 1].state) then 1 else 0
  }

  // ------------------------------------------------------------------ a whole run, as a function

  datatype Db = Db(orders: seq<DbOrder>, trades: seq<Trade>)

  ghost function DbAfter(db: Db, ex: Exchange): Db {
    if ex.open.None? then db
    else
      var orders := RepairAll(db.orders, LiveIndex(ex.open.value), ex);
      Db(orders, CloseTrades(db.trades, orders))
  }

  ghost function MismatchesOf(db: Db, ex: Exchange): seq<Mismatch> {
    if ex.open.None? then [RestError]
    else
      var live := LiveIndex(ex.open.value);
      Foreign(LiveKeys(ex.open.value), OpenCoids(db.orders))
      + Regressions(db.orders, live, ex)
      + PartialGroups(db.trades, DbAfter(db, ex).orders)
  }

  ghost function UpdatesOf(db: Db, ex: Exchange): nat {
    if ex.open.None? then 0 else CountUpdated(db.orders, LiveIndex(ex.open.value), ex)
  }
}

/** The reconciler object: the loops of `OrderReconciler.run`. */
module ReconcileRun {
  import opened Common
  import opened Reconcile

  method IndexLive(open: seq<LiveOrder>) returns (live: map<string, LiveOrder>, keys: seq<string>)
    ensures live == LiveIndex(open) && keys == LiveKeys(open)
  {
    live, keys := map[], [];
    for i := 0 to |open|
      invariant live == LiveIndex(open[..i]) && keys == LiveKeys(open[..i])
    {
      assert open[..i + 1][..i] == open[..i];
      var coid := open[i].coid;
      if coid != "" {
        live := live[coid := open[i]];
        if coid !in keys {
          keys := keys + [coid];
        }
      }
    }
    assert open[..|open|] == open;
  }

  method FindForeign(keys: seq<string>, known: set<string>) returns (found: seq<Mismatch>)
    ensures found == Foreign(keys, known)
  {
    found := [];
    for i := 0 to |keys|
      invariant found == Foreign(keys[..i], known)
    {
      assert keys[..i + 1][..i] == keys[..i];
      if keys[i] !in known {
        found := found + [ForeignOpen(keys[i])];
      }
    }
    assert keys[..|keys|] == keys;
  }

  /** The newest order of every leg of a trade, as row numbers. */
  method NewestRows(orders: seq<DbOrder>, trade: int) returns (newest: map<int, int>)
    ensures forall leg :: leg in newest ==>
            IsNewest(orders, newest[leg], trade) && orders[newest[leg]].legIdx == Some(leg)
    ensures forall k :: IsLegRow(orders, k, trade) ==> orders[k].legIdx.value in newest
  {
    newest := map[];
    for i := 0 to |orders|
      invariant forall leg :: leg in newest ==>
                  && IsLegRow(orders, newest[leg], trade) && newest[leg] < i && orders[newest[leg]].legIdx == Some(leg)
                  && forall j :: 0 <= j < i && IsLegRow(orders, j, trade) && orders[j].legIdx == Some(leg) ==>
                       orders[j].ts < orders[newest[leg]].ts
                         || (orders[j].ts == orders[newest[leg]].ts && newest[leg] <= j)
      invariant forall k :: 0 <= k < i && IsLegRow(orders, k, trade) ==> orders[k].legIdx.value in newest
    {
      if IsLegRow(orders, i, trade) {
        var leg := orders[i].legIdx.value;
        if leg !in newest || orders[newest[leg]].ts < orders[i].ts {
          newest := newest[leg := i];
        }
      }
    }
  }

  lemma NewestUnique(orders: seq<DbOrder>, j: int, k: int, trade: int)
    requires IsNewest(orders, j, trade) && IsNewest(orders, k, trade) && orders[j].legIdx == orders[k].legIdx
    ensures j == k
  {
  }

  method IsMixed(orders: seq<DbOrder>, trade: int) returns (mixed: bool)
    ensures mixed == Mixed(orders, trade)
  {
    var newest := NewestRows(orders, trade);
    var states := set leg | leg in newest :: orders[newest[leg]].state;
    mixed := "filled" in states && exists state :: state in states && !IsTerminalLocal(state);
    forall k | IsNewest(orders, k, trade) ensures orders[k].state in states {
      var leg := orders[k].legIdx.value;
      assert IsLegRow(orders, k, trade);
      assert leg in newest;
      NewestUnique(orders, k, newest[leg], trade);
    }
    assert forall state :: state in states ==> exists k :: IsNewest(orders, k, trade) && orders[k].state == state;
    StatesDecide(orders, trade, states);
  }

  lemma StatesDecide(orders: seq<DbOrder>, trade: int, states: set<string>)
    requires forall k :: IsNewest(orders, k, trade) ==> orders[k].state in states
    requires forall state :: state in states ==> exists k :: IsNewest(orders, k, trade) && orders[k].state == state
    ensures Mixed(orders, trade) <==> "filled" in states && exists state :: state in states && !IsTerminalLocal(state)
  {
    hide IsTerminalLocal, IsNewest;
  }

  class OrderReconciler {
    var orders: seq<DbOrder>
    var trades: seq<Trade>

    ghost function Contents(): Db reads this {
      Db(orders, trades)
    }

    /** Phase two: walk the open orders and repair each. */
    method RepairOrders(live: map<string, LiveOrder>, ex: Exchange) returns (updated: nat, found: seq<Mismatch>)
      modifies this`orders
      ensures orders == RepairAll(old(orders), live, ex)
      ensures updated == CountUpdated(old(orders), live, ex)
      ensures found == Regressions(old(orders), live, ex)
    {
      hide Resolve, IsOpenState;
      var rows := orders;
      updated, found := 0, [];
      for i := 0 to |rows|
        invariant |orders| == |rows|
        invariant forall k :: 0 <= k < |rows| ==> orders[k] == if k < i then Repair(rows[k], live, ex) else rows[k]
        invariant updated == CountUpdated(rows[..i], live, ex)
        invariant found == Regressions(rows[..i], live, ex)
      {
        assert rows[..i + 1][..i] == rows[..i];
        if IsOpenState(rows[i].state) {
          var (repaired, verdict) := Resolve(rows[i], live, ex);
          orders := orders[i := repaired];
          if verdict == Updated {
            updated := updated + 1;
          } else if verdict == Regressed {
            found := found + [FillStateRegression(rows[i].id)];
          }
        }
      }
      assert rows[..|rows|] == rows;
    }

    /** Phase three: open trades whose legs disagree. */
    method CheckGroups() returns (found: seq<Mismatch>)
      ensures found == PartialGroups(trades, orders)
    {
      found := [];
      for i := 0 to |trades|
        invariant found == PartialGroups(trades[..i], orders)
      {
        assert trades[..i + 1][..i] == trades[..i];
        if trades[i].status == TradeOpen {
          var mixed := IsMixed(orders, trades[i].id);
          if mixed {
            found := found + [PartialLegGroup(trades[i].id)];
          }
        }
      }
      assert trades[..|trades|] == trades;
    }

    /** Phase four: close the trades that were canceled whole. */
    method CloseCanceled()
      modifies this`trades
      ensures trades == CloseTrades(old(trades), orders)
    {
      for i := 0 to |trades|
        invariant |trades| == |old(trades)|
        invariant forall k :: 0 <= k < i ==> trades[k] == CloseTrade(old(trades)[k], orders)
        invariant forall k :: i <= k < |trades| ==> trades[k] == old(trades)[k]
      {
        var t := trades[i];
        if t.status == TradeOpen {
          var rows := set k | 0 <= k < |orders| && IsLegRow(orders, k, t.id);
          assert AllCanceled(orders, t.id) <==>
                 rows != {} && forall k :: k in rows ==> orders[k].state == "canceled" by {
            if k :| IsLegRow(orders, k, t.id) {
              assert k in rows;
            }
          }
          if rows != {} && forall k :: k in rows ==> orders[k].state == "canceled" {
            trades := trades[i := t.(status := TradeClosed, legs := seq(|t.legs|, _ => LegClosed))];
          }
        }
      }
    }

    /** The whole run does to the database, and reports, exactly what the specification says. */
    method Run(ex: Exchange) returns (report: Report)
      modifies this
      ensures Contents() == DbAfter(old(Contents()), ex)
      ensures report.mismatches == MismatchesOf(old(Contents()), ex)
      ensures report.ordersUpdated == UpdatesOf(old(Contents()), ex)
      ensures report.tradesChecked == CountOpenTrades(old(trades))
              && report.ordersChecked == CountOpenOrders(old(orders))
    {
      var checkedTrades, checkedOrders := 0, 0;
      for i := 0 to |trades|
        invariant checkedTrades == CountOpenTrades(trades[..i]) && Contents() == old(Contents())
      {
        assert trades[..i + 1][..i] == trades[..i];
        checkedTrades := checkedTrades + if trades[i].status == TradeOpen then 1 else 0;
      }
      for i := 0 to |orders|
        invariant checkedOrders == CountOpenOrders(orders[..i]) && Contents() == old(Contents())
      {
        assert orders[..i + 1][..i] == orders[..i];
        checkedOrders := checkedOrders + if IsOpenState(orders[i].state) then 1 else 0;
      }
      assert trades[..|trades|] == trades && orders[..|orders|] == orders;
      if ex.open.None? {
        return Report(checkedOrders, 0, checkedTrades, [RestError]);
      }
      var live, keys := IndexLive(ex.open.value);
      var foreign := FindForeign(keys, OpenCoids(orders));
      var updated, regressions := RepairOrders(live, ex);
      var partial := CheckGroups();
      CloseCanceled();
      return Report(checkedOrders, updated, checkedTrades, foreign + regressions + partial);
    }
  }
}
