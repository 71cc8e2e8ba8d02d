/** What a mismatch-free reconcile guarantees, and when running it again changes nothing. */
module ReconcileProofs {
  import opened Common
  import opened Reconcile

  /** The client order id is a unique column. */
  ghost predicate UniqueCoids(orders: seq<DbOrder>) {
    forall i, j :: 0 <= i < j < |orders| ==> orders[i].coid != orders[j].coid
  }

  ghost predicate Clean(db: Db, ex: Exchange) {
    MismatchesOf(db, ex) == []
  }

  // ------------------------------------------------------------------ reading the mismatch list

  lemma {:induction false} KeysAreIndex(open: seq<LiveOrder>)
    ensures forall c :: c in LiveKeys(open) <==> c in LiveIndex(open)
  {
    if |open| > 0 {
      KeysAreIndex(open[..|open| - 1]);
    }
  }

  lemma {:induction false} ForeignEmpty(keys: seq<string>, known: set<string>)
    ensures Foreign(keys, known) == [] <==> forall c :: c in keys ==> c in known
  {
    if |keys| > 0 {
      var n := |keys| - 1;
      ForeignEmpty(keys[..n], known);
      assert keys == keys[..n] + [keys[n]];
      assert keys[n] in keys;
      assert forall c :: c in keys[..n] ==> c in keys;
    }
  }

  lemma {:induction false} RegressionsEmpty(orders: seq<DbOrder>, live: map<string, LiveOrder>, ex: Exchange)
    ensures Regressions(orders, live, ex) == []
            <==> forall i :: 0 <= i < |orders| ==> VerdictOf(orders[i], live, ex) != Regressed
  {
    hide VerdictOf;
    if |orders| > 0 {
      RegressionsEmpty(orders[..|orders| - 1], live, ex);
    }
  }

  lemma {:induction false} NothingUpdated(orders: seq<DbOrder>, live: map<string, LiveOrder>, ex: Exchange)
    ensures CountUpdated(orders, live, ex) == 0
            <==> forall i :: 0 <= i < |orders| ==> VerdictOf(orders[i], live, ex) != Updated
  {
    hide VerdictOf;
    if |orders| > 0 {
      NothingUpdated(orders[..|orders| - 1], live, ex);
    }
  }

  lemma {:induction false} GroupsEmpty(trades: seq<Trade>, orders: seq<DbOrder>)
    ensures PartialGroups(trades, orders) == []
            <==> forall i :: 0 <= i < |trades| && trades[i].status == TradeOpen ==> !Mixed(orders, trades[i].id)
  {
    hide Mixed;
    if |trades| > 0 {
      GroupsEmpty(trades[..|trades| - 1], orders);
    }
  }

  /** A run is clean exactly when the listing worked, every identified live order belongs to an open
      DB order, no lookup was inconclusive and no open trade has mixed legs. */
  lemma CleanIff(db: Db, ex: Exchange)
    ensures Clean(db, ex) <==>
            && ex.open.Some?
            && var live := LiveIndex(ex.open.value);
               && (forall c :: c in live ==> c in OpenCoids(db.orders))
               && (forall i :: 0 <= i < |db.orders| ==> VerdictOf(db.orders[i], live, ex) != Regressed)
               && (forall i :: 0 <= i < |db.trades| && db.trades[i].status == TradeOpen ==>
                     !Mixed(DbAfter(db, ex).orders, db.trades[i].id))
  {
    hide Mixed, VerdictOf, OpenCoids, Regressions, PartialGroups, Foreign, LiveKeys, LiveIndex, RepairAll, CloseTrades;
    if ex.open.Some? {
      var live := LiveIndex(ex.open.value);
      KeysAreIndex(ex.open.value);
      ForeignEmpty(LiveKeys(ex.open.value), OpenCoids(db.orders));
      RegressionsEmpty(db.orders, live, ex);
      GroupsEmpty(db.trades, DbAfter(db, ex).orders);
      EmptyConcat(Foreign(LiveKeys(ex.open.value), OpenCoids(db.orders)), Regressions(db.orders, live, ex),
                  PartialGroups(db.trades, DbAfter(db, ex).orders));
    }
  }

  lemma EmptyConcat<T>(a: seq<T>, b: seq<T>, c: seq<T>)
    ensures a + b + c == [] <==> a == [] && b == [] && c == []
  {
    assert |a + b + c| == |a| + |b| + |c|;
  }

  // ------------------------------------------------------------------ after a clean run

  /** Every formerly open order now shows its live state, or has ended as filled or canceled; every
      other order is untouched; and every identified live order has an open DB row. */
  lemma CleanRunRepairs(db: Db, ex: Exchange)
    requires Clean(db, ex)
    ensures ex.open.Some?
    ensures var live, after := LiveIndex(ex.open.value), DbAfter(db, ex).orders;
            && |after| == |db.orders|
            && forall i :: 0 <= i < |db.orders| ==>
                 && after[i].id == db.orders[i].id && after[i].coid == db.orders[i].coid
                 && (!IsOpenState(db.orders[i].state) ==> after[i] == db.orders[i])
                 && (IsOpenState(db.orders[i].state) && db.orders[i].coid in live ==>
                       after[i] == db.orders[i].(state := LiveState(live[db.orders[i].coid])))
                 && (IsOpenState(db.orders[i].state) && db.orders[i].coid !in live ==>
                       after[i].state == "filled" || after[i].state == "canceled")
    ensures forall c :: c in LiveIndex(ex.open.value) ==> c in OpenCoids(db.orders)
  {
    CleanIff(db, ex);
    hide LiveIndex, OpenCoids, CloseTrades, Clean, Mixed;
  }

  /** What a run, clean or not, writes to an order that was open and is no longer listed. If the exchange
      says it was filled, the row takes over its size and price, or keeps its quantity and former price where
      the answer gives none; if it ended otherwise, only the state changes; an inconclusive answer, and an
      order that was not open, leave the row alone. */
  lemma EndedOrderIsBooked(db: Db, ex: Exchange, i: nat)
    requires ex.open.Some? && i < |db.orders| && IsOpenState(db.orders[i].state)
    requires db.orders[i].coid !in LiveIndex(ex.open.value)
    ensures |DbAfter(db, ex).orders| == |db.orders|
    ensures var o, after := db.orders[i], DbAfter(db, ex).orders[i];
            var answered := o.coid in ex.lookup;
            && after.id == o.id && after.coid == o.coid && after.tradeId == o.tradeId && after.legIdx == o.legIdx
            && after.ts == o.ts && after.qty == o.qty
            && (answered && ex.lookup[o.coid].state == Some("filled") ==>
                  && after.state == "filled"
                  && (ex.lookup[o.coid].filledSize.Some? && ex.lookup[o.coid].filledSize.value != 0.0 ==>
                        after.filledQty == ex.lookup[o.coid].filledSize.value)
                  && (ex.lookup[o.coid].filledSize == None || ex.lookup[o.coid].filledSize == Some(0.0) ==>
                        after.filledQty == o.qty)
                  && (ex.lookup[o.coid].avgPrice.Some? ==> after.filledPrice == ex.lookup[o.coid].avgPrice)
                  && (ex.lookup[o.coid].avgPrice.None? ==> after.filledPrice == o.filledPrice))
            && (after.state != "filled" ==> after.filledQty == o.filledQty && after.filledPrice == o.filledPrice)
            && (after.state == "filled" ==> answered && ex.lookup[o.coid].state == Some("filled"))
            && (!answered ==> after.state == "canceled")
            && (answered && ex.lookup[o.coid].state in {Some("canceled"), Some("rejected"), Some("")} ==>
                  after.state == "canceled")
            && (answered && ex.lookup[o.coid].state !in {Some("filled"), Some("canceled"), Some("rejected"), Some("")}
                ==> after == o)
  {
    hide LiveIndex, CloseTrades;
  }

  /** A trade left open by a clean run has no leg hanging on a live order beside a filled one. */
  lemma CleanRunCoherent(db: Db, ex: Exchange, i: nat, j: int, k: int)
    requires Clean(db, ex) && i < |db.trades| && db.trades[i].status == TradeOpen
    requires IsNewest(DbAfter(db, ex).orders, j, db.trades[i].id) && DbAfter(db, ex).orders[j].state == "filled"
    requires IsNewest(DbAfter(db, ex).orders, k, db.trades[i].id)
    ensures IsTerminalLocal(DbAfter(db, ex).orders[k].state)
  {
    CleanIff(db, ex);
    hide Clean, DbAfter, LiveIndex;
  }

  // ------------------------------------------------------------------ running it again

  /** The open list reports only open-type states. */
  ghost predicate LiveMeansOpen(ex: Exchange)
    requires ex.open.Some?
  {
    var live := LiveIndex(ex.open.value);
    forall c :: c in live ==> IsOpenState(LiveState(live[c]))
  }

  ghost predicate Fixpoint(db: Db, ex: Exchange) {
    Clean(db, ex) && UpdatesOf(db, ex) == 0 && DbAfter(db, ex) == db
  }

  /** An order already repaired is repaired to itself. */
  lemma RepairedTwice(o: DbOrder, live: map<string, LiveOrder>, ex: Exchange)
    requires VerdictOf(o, live, ex) != Regressed
    ensures var p := Repair(o, live, ex); Repair(p, live, ex) == p && VerdictOf(p, live, ex) == Unchanged
  {
  }

  lemma ClosedTwice(t: Trade, orders: seq<DbOrder>)
    ensures CloseTrade(CloseTrade(t, orders), orders) == CloseTrade(t, orders)
    ensures CloseTrade(t, orders).id == t.id
    ensures CloseTrade(t, orders).status == TradeOpen ==> t.status == TradeOpen
  {
    hide AllCanceled;
  }

  /** Live orders that stay open keep their DB row open. */
  lemma KnownAgain(db: Db, ex: Exchange, c: string)
    requires Clean(db, ex) && ex.open.Some? && LiveMeansOpen(ex) && c in LiveIndex(ex.open.value)
    ensures c in OpenCoids(DbAfter(db, ex).orders)
  {
    CleanRunRepairs(db, ex);
    hide Clean, LiveIndex, Mixed, DbAfter;
    var live, after := LiveIndex(ex.open.value), DbAfter(db, ex).orders;
    assert c in OpenCoids(db.orders);
    var i :| 0 <= i < |db.orders| && IsOpenState(db.orders[i].state) && db.orders[i].coid == c;
    assert after[i].coid == c && IsOpenState(after[i].state);
  }

  lemma SecondRunIsFixpoint(db: Db, ex: Exchange)
    requires Clean(db, ex) && ex.open.Some? && LiveMeansOpen(ex)
    ensures Fixpoint(DbAfter(db, ex), ex)
  {
    CleanIff(db, ex);
    var live, next := LiveIndex(ex.open.value), DbAfter(db, ex);
    forall c | c in live ensures c in OpenCoids(next.orders) {
      KnownAgain(db, ex, c);
    }
    hide LiveIndex, OpenCoids, Mixed, Repair, VerdictOf, CloseTrade, LiveMeansOpen;
    forall i | 0 <= i < |next.orders|
      ensures Repair(next.orders[i], live, ex) == next.orders[i] && VerdictOf(next.orders[i], live, ex) == Unchanged
    {
      RepairedTwice(db.orders[i], live, ex);
    }
    assert RepairAll(next.orders, live, ex) == next.orders;
    forall i | 0 <= i < |next.trades|
      ensures CloseTrade(next.trades[i], next.orders) == next.trades[i]
      ensures next.trades[i].status == TradeOpen ==> !Mixed(next.orders, next.trades[i].id)
    {
      ClosedTwice(db.trades[i], next.orders);
    }
    assert CloseTrades(next.trades, next.orders) == next.trades;
    assert DbAfter(next, ex) == next;
    NothingUpdated(next.orders, live, ex);
    CleanIff(next, ex);
  }

  /** A live order in a state the DB does not count as open becomes foreign to its own row. */
  lemma SecondRunHalts(db: Db, ex: Exchange, c: string)
    requires Clean(db, ex) && ex.open.Some? && UniqueCoids(db.orders)
    requires c in LiveIndex(ex.open.value) && !IsOpenState(LiveState(LiveIndex(ex.open.value)[c]))
    ensures !Clean(DbAfter(db, ex), ex)
  {
    CleanRunRepairs(db, ex);
    var live, next := LiveIndex(ex.open.value), DbAfter(db, ex);
    CleanIff(next, ex);
    hide Clean, LiveIndex, Mixed, DbAfter, VerdictOf;
    assert c in OpenCoids(db.orders);
    var i :| 0 <= i < |db.orders| && IsOpenState(db.orders[i].state) && db.orders[i].coid == c;
    assert forall j :: 0 <= j < |next.orders| && next.orders[j].coid == c ==> j == i;
  }

  /** Reconciling twice is reconciling once, silently, exactly when the exchange's open list reports
      only open-type states. */
  lemma IdempotentIff(db: Db, ex: Exchange)
    requires Clean(db, ex) && UniqueCoids(db.orders)
    ensures ex.open.Some?
    ensures Fixpoint(DbAfter(db, ex), ex) <==> LiveMeansOpen(ex)
  {
    CleanIff(db, ex);
    if LiveMeansOpen(ex) {
      SecondRunIsFixpoint(db, ex);
    } else {
      var c :| c in LiveIndex(ex.open.value) && !IsOpenState(LiveState(LiveIndex(ex.open.value)[c]));
      SecondRunHalts(db, ex, c);
    }
  }

  // ------------------------------------------------------------------ what the documented rules would ask for

  /** The documented rule "a filled DB order that the exchange shows partial or canceled halts the boot" is
      not in the code: a run depends on the lookups of open orders alone, so that nothing the exchange
      says of any other order changes the database or is reported. */
  lemma OnlyOpenOrdersAreLookedUp(db: Db, ex: Exchange, other: Exchange)
    requires ex.open == other.open
    requires forall c :: c in OpenCoids(db.orders) ==> Lookup(ex, c) == Lookup(other, c)
    ensures DbAfter(db, ex) == DbAfter(db, other) && MismatchesOf(db, ex) == MismatchesOf(db, other)
  {
    if ex.open.Some? {
      var live := LiveIndex(ex.open.value);
      forall i | 0 <= i < |db.orders|
        ensures Repair(db.orders[i], live, ex) == Repair(db.orders[i], live, other)
        ensures VerdictOf(db.orders[i], live, ex) == VerdictOf(db.orders[i], live, other)
      {
        if IsOpenState(db.orders[i].state) {
          assert db.orders[i].coid in OpenCoids(db.orders);
        }
      }
      hide Repair, VerdictOf, Lookup, PartialGroups, CloseTrades, LiveIndex, LiveKeys;
      assert RepairAll(db.orders, live, ex) == RepairAll(db.orders, live, other);
      SameRegressions(db.orders, live, ex, other);
    }
  }

  lemma {:induction false} SameRegressions(orders: seq<DbOrder>, live: map<string, LiveOrder>, ex: Exchange,
                                           other: Exchange)
    requires forall i :: 0 <= i < |orders| ==> VerdictOf(orders[i], live, ex) == VerdictOf(orders[i], live, other)
    ensures Regressions(orders, live, ex) == Regressions(orders, live, other)
  {
    hide VerdictOf;
    if |orders| > 0 {
      SameRegressions(orders[..|orders| - 1], live, ex, other);
    }
  }

  /** The documented rule for leg groups: all legs filled, or none. It is broken when some leg's newest order
      is filled and some other's is not. */
  ghost predicate HalfFilled(orders: seq<DbOrder>, trade: int) {
    && (exists k :: IsNewest(orders, k, trade) && orders[k].state == "filled")
    && (exists k :: IsNewest(orders, k, trade) && orders[k].state != "filled")
  }

  /** Some leg's newest order has not ended. */
  ghost predicate Hanging(orders: seq<DbOrder>, trade: int) {
    exists k :: IsNewest(orders, k, trade) && !IsTerminalLocal(orders[k].state)
  }

  lemma MixedIsHalfFilledAndHanging(orders: seq<DbOrder>, trade: int)
    ensures Mixed(orders, trade) <==> HalfFilled(orders, trade) && Hanging(orders, trade)
  {
    hide IsNewest;
  }

  lemma {:induction false} GroupReported(trades: seq<Trade>, orders: seq<DbOrder>, id: int)
    ensures PartialLegGroup(id) in PartialGroups(trades, orders) <==>
            exists i :: 0 <= i < |trades| && trades[i].id == id && trades[i].status == TradeOpen && Mixed(orders, id)
  {
    hide Mixed;
    if |trades| > 0 {
      var n := |trades| - 1;
      GroupReported(trades[..n], orders, id);
      assert trades == trades[..n] + [trades[n]];
      if trades[n].id == id && trades[n].status == TradeOpen && Mixed(orders, id) {
        assert 0 <= n < |trades|;
      }
      if i :| 0 <= i < n && trades[i].id == id && trades[i].status == TradeOpen && Mixed(orders, id) {
        assert trades[..n][i] == trades[i];
      }
    }
  }

  lemma {:induction false} ForeignIsNoGroup(keys: seq<string>, known: set<string>, id: int)
    ensures PartialLegGroup(id) !in Foreign(keys, known)
  {
    if |keys| > 0 {
      ForeignIsNoGroup(keys[..|keys| - 1], known, id);
    }
  }

  lemma {:induction false} RegressionIsNoGroup(orders: seq<DbOrder>, live: map<string, LiveOrder>, ex: Exchange,
                                               id: int)
    ensures PartialLegGroup(id) !in Regressions(orders, live, ex)
  {
    hide VerdictOf;
    if |orders| > 0 {
      RegressionIsNoGroup(orders[..|orders| - 1], live, ex, id);
    }
  }

  /** A run reports a half-filled open trade exactly when one of its legs also hangs on an order that has
      not ended. Filled beside canceled or rejected legs, the case the rule is about, pass. */
  lemma HalfFilledReportedIff(db: Db, ex: Exchange, id: int)
    requires ex.open.Some?
    ensures PartialLegGroup(id) in MismatchesOf(db, ex) <==>
            && (exists i :: 0 <= i < |db.trades| && db.trades[i].id == id && db.trades[i].status == TradeOpen)
            && HalfFilled(DbAfter(db, ex).orders, id) && Hanging(DbAfter(db, ex).orders, id)
  {
    hide HalfFilled, Hanging, Mixed, RepairAll, CloseTrades;
    var orders := DbAfter(db, ex).orders;
    MixedIsHalfFilledAndHanging(orders, id);
    GroupReported(db.trades, orders, id);
    ForeignIsNoGroup(LiveKeys(ex.open.value), OpenCoids(db.orders), id);
    RegressionIsNoGroup(db.orders, LiveIndex(ex.open.value), ex, id);
    hide Foreign, Regressions, PartialGroups, LiveKeys, LiveIndex, OpenCoids;
  }

  const SOLD := DbOrder(1, "a", Some(1), Some(0), 0, "filled", 1.0, 1.0, Some(5.0))
  const BOUGHT := DbOrder(2, "b", Some(1), Some(1), 0, "canceled", 1.0, 0.0, None)

  /** A spread whose short leg is filled and whose long leg was canceled. */
  const NAKED := Db([SOLD, BOUGHT], [Trade(1, TradeOpen, [LegOpen, LegOpen])])

  /** It boots: against an exchange with no open orders the run is clean and leaves the trade open. */
  lemma NakedLegPasses(lookup: map<string, Record>)
    ensures var ex := Exchange(Some([]), lookup);
            HalfFilled(DbAfter(NAKED, ex).orders, 1) && Clean(NAKED, ex) && DbAfter(NAKED, ex) == NAKED
  {
    var ex := Exchange(Some([]), lookup);
    assert RepairAll(NAKED.orders, LiveIndex([]), ex) == NAKED.orders;
    NakedLegs();
    hide IsNewest;
    assert !AllCanceled(NAKED.orders, 1) by {
      assert IsLegRow(NAKED.orders, 0, 1);
    }
    assert CloseTrades(NAKED.trades, NAKED.orders) == NAKED.trades;
    CleanIff(NAKED, ex);
  }

  lemma NakedLegs()
    ensures IsNewest(NAKED.orders, 0, 1) && IsNewest(NAKED.orders, 1, 1)
    ensures forall k :: IsNewest(NAKED.orders, k, 1) ==> k == 0 || k == 1
  {
  }

  // ------------------------------------------------------------------ failed lookups

  /** What the exchange would say of every order it knows; `lookup` holds the answers that came through. */
  ghost predicate Consistent(ex: Exchange, actual: map<string, Record>) {
    forall c :: c in ex.lookup ==> c in actual && actual[c] == ex.lookup[c]
  }

  /** The order has ended and nothing of it was filled. */
  predicate EndedUnfilled(r: Record) {
    var state := LookupState(Some(r));
    (state == "canceled" || state == "rejected") && OrZero(r.filledSize) == 0.0
  }

  /** The run marks the order canceled. */
  ghost predicate MarkedCanceled(o: DbOrder, live: map<string, LiveOrder>, ex: Exchange) {
    IsOpenState(o.state) && o.coid !in live && Repair(o, live, ex).state == "canceled"
  }

  /** An order that the run marks canceled is known to have ended unfilled exactly when its lookup was
      answered and showed no fill. A lookup that failed or found nothing counts as canceled too, and an
      answer's fill is dropped: in both cases the order may hold a position. */
  lemma CanceledForSureIff(o: DbOrder, live: map<string, LiveOrder>, ex: Exchange)
    requires MarkedCanceled(o, live, ex)
    ensures (forall actual :: Consistent(ex, actual) ==> o.coid in actual && EndedUnfilled(actual[o.coid]))
            <==> o.coid in ex.lookup && OrZero(ex.lookup[o.coid].filledSize) == 0.0
  {
    if o.coid !in ex.lookup {
      var actual := ex.lookup[o.coid := Record(Some("filled"), None, None)];
      assert Consistent(ex, actual) && !EndedUnfilled(actual[o.coid]);
    } else {
      assert Consistent(ex, ex.lookup);
    }
  }

  /** And if all of an open trade's leg orders are marked so, or were canceled before, the trade is closed with
      them, its legs included: it disappears from the book unreported, whatever it really holds. */
  lemma FailedLookupsCloseTrade(db: Db, ex: Exchange, i: nat, row: int)
    requires ex.open.Some? && i < |db.trades| && db.trades[i].status == TradeOpen
    requires IsLegRow(db.orders, row, db.trades[i].id)
    requires forall k :: IsLegRow(db.orders, k, db.trades[i].id) ==>
               db.orders[k].state == "canceled" || MarkedCanceled(db.orders[k], LiveIndex(ex.open.value), ex)
    ensures var t := DbAfter(db, ex).trades[i];
            t.status == TradeClosed && forall k :: 0 <= k < |t.legs| ==> t.legs[k] == LegClosed
    ensures PartialLegGroup(db.trades[i].id) !in MismatchesOf(db, ex)
  {
    var live, after, id := LiveIndex(ex.open.value), DbAfter(db, ex).orders, db.trades[i].id;
    forall k ensures IsLegRow(after, k, id) <==> IsLegRow(db.orders, k, id) {
      RepairKeepsRow(db.orders, live, ex, k, id);
    }
    forall k | IsLegRow(after, k, id) ensures after[k].state == "canceled" {
      assert IsLegRow(db.orders, k, id);
      CanceledStays(db.orders[k], live, ex);
    }
    assert IsLegRow(after, row, id);
    HalfFilledReportedIff(db, ex, id);
  }

  lemma RepairKeepsRow(orders: seq<DbOrder>, live: map<string, LiveOrder>, ex: Exchange, k: int, id: int)
    ensures IsLegRow(RepairAll(orders, live, ex), k, id) <==> IsLegRow(orders, k, id)
  {
  }

  lemma CanceledStays(o: DbOrder, live: map<string, LiveOrder>, ex: Exchange)
    requires o.state == "canceled" || MarkedCanceled(o, live, ex)
    ensures Repair(o, live, ex).state == "canceled"
  {
  }

  const RESTING := DbOrder(1, "a", Some(1), Some(0), 0, "open", 1.0, 0.0, None)
  const SINGLE := Db([RESTING], [Trade(1, TradeOpen, [LegOpen])])

  /** Half of the order was filled before it was canceled. */
  const HALF_FILLED := Exchange(Some([]), map["a" := Record(Some("canceled"), Some(0.5), Some(5.0))])

  /** The answered lookup of a half-filled order loses the half: the run is clean, the order is canceled with
      nothing filled, and the trade is closed. */
  lemma PartialFillIsDropped()
    ensures Clean(SINGLE, HALF_FILLED)
    ensures DbAfter(SINGLE, HALF_FILLED) == Db([RESTING.(state := "canceled")], [Trade(1, TradeClosed, [LegClosed])])
  {
    var after := [RESTING.(state := "canceled")];
    assert RepairAll(SINGLE.orders, LiveIndex([]), HALF_FILLED) == after;
    assert AllCanceled(after, 1) by {
      assert IsLegRow(after, 0, 1);
    }
    assert seq(1, _ => LegClosed) == [LegClosed];
    assert CloseTrade(SINGLE.trades[0], after) == Trade(1, TradeClosed, seq(1, _ => LegClosed));
    assert CloseTrades(SINGLE.trades, after) == [Trade(1, TradeClosed, [LegClosed])];
    CleanIff(SINGLE, HALF_FILLED);
  }

  // ------------------------------------------------------------------ the exchange's own words

  lemma {:induction false} RegressionReported(orders: seq<DbOrder>, live: map<string, LiveOrder>, ex: Exchange, i: nat)
    requires i < |orders| && VerdictOf(orders[i], live, ex) == Regressed
    ensures FillStateRegression(orders[i].id) in Regressions(orders, live, ex)
  {
    hide VerdictOf;
    if i < |orders| - 1 {
      RegressionReported(orders[..|orders| - 1], live, ex, i);
    }
  }

  /** The live executor knows ended orders as "cancelled" and "closed", the reconciler as "canceled". An open
      order that the exchange answers with one of the former, or with any other word of its own, is
      reported and halts the boot, though it has ended. */
  lemma ForeignWordsHalt(db: Db, ex: Exchange, i: nat)
    requires ex.open.Some? && i < |db.orders| && IsOpenState(db.orders[i].state)
    requires db.orders[i].coid !in LiveIndex(ex.open.value) && db.orders[i].coid in ex.lookup
    requires var word := LookupState(Some(ex.lookup[db.orders[i].coid])); word == "cancelled" || word == "closed"
    ensures FillStateRegression(db.orders[i].id) in MismatchesOf(db, ex) && !Clean(db, ex)
  {
    var live := LiveIndex(ex.open.value);
    assert VerdictOf(db.orders[i], live, ex) == Regressed;
    RegressionReported(db.orders, live, ex, i);
    hide Regressions, Foreign, PartialGroups, LiveKeys, OpenCoids, RepairAll, CloseTrades, VerdictOf;
  }

  // ------------------------------------------------------------------ the counters of the report

  lemma {:induction false} OrdersCounted(orders: seq<DbOrder>)
    ensures CountOpenOrders(orders) == |set i | 0 <= i < |orders| && IsOpenState(orders[i].state)|
  {
    hide IsOpenState;
    var open := set i | 0 <= i < |orders| && IsOpenState(orders[i].state);
    if |orders| > 0 {
      var n := |orders| - 1;
      OrdersCounted(orders[..n]);
      var before := set i | 0 <= i < |orders[..n]| && IsOpenState(orders[..n][i].state);
      assert open == if IsOpenState(orders[n].state) then before + {n} else before;
    } else {
      assert open == {};
    }
  }

  /** The report counts the open trades and the open orders, each once. */
  lemma {:induction false} TradesCounted(trades: seq<Trade>)
    ensures CountOpenTrades(trades) == |set i | 0 <= i < |trades| && trades[i].status == TradeOpen|
  {
    var open := set i | 0 <= i < |trades| && trades[i].status == TradeOpen;
    if |trades| > 0 {
      var n := |trades| - 1;
      TradesCounted(trades[..n]);
      var before := set i | 0 <= i < |trades[..n]| && trades[..n][i].status == TradeOpen;
      assert open == if trades[n].status == TradeOpen then before + {n} else before;
    } else {
      assert open == {};
    }
  }

  // ------------------------------------------------------------------ listed orders and leg rows

  /** Of several entries with one client id the last one counts. */
  lemma {:induction false} LastEntryWins(open: seq<LiveOrder>, j: nat)
    requires j < |open| && open[j].coid != "" && forall k :: j < k < |open| ==> open[k].coid != open[j].coid
    ensures open[j].coid in LiveIndex(open) && LiveIndex(open)[open[j].coid] == open[j]
  {
    if j < |open| - 1 {
      LastEntryWins(open[..|open| - 1], j);
    }
  }

  /** A listed order that the database has open takes the state of its last entry, "open" if that shows none,
      and keeps every other column. */
  lemma ListedOrderFollows(db: Db, ex: Exchange, i: nat, j: nat)
    requires ex.open.Some? && i < |db.orders| && IsOpenState(db.orders[i].state)
    requires j < |ex.open.value| && ex.open.value[j].coid == db.orders[i].coid != ""
    requires forall k :: j < k < |ex.open.value| ==> ex.open.value[k].coid != db.orders[i].coid
    ensures |DbAfter(db, ex).orders| == |db.orders|
    ensures var word := ex.open.value[j].state;
            && (word.Some? ==> DbAfter(db, ex).orders[i] == db.orders[i].(state := word.value))
            && (word.None? ==> DbAfter(db, ex).orders[i] == db.orders[i].(state := "open"))
  {
    LastEntryWins(ex.open.value, j);
    hide LiveIndex, CloseTrades;
  }

  /** If the listing fails nothing is changed, and that is reported. */
  lemma ListingFailureHalts(db: Db, ex: Exchange)
    requires ex.open.None?
    ensures DbAfter(db, ex) == db && UpdatesOf(db, ex) == 0 && MismatchesOf(db, ex) == [RestError]
  {
  }

  /** The leg orders of a trade are the rows with its id and a leg number. Rows of other trades, and rows
      without a leg, decide nothing about it. */
  lemma OtherRowsDecideNothing(orders: seq<DbOrder>, others: seq<DbOrder>, trade: int)
    requires |orders| == |others|
    requires forall k :: 0 <= k < |orders| ==>
               || orders[k] == others[k]
               || ((orders[k].tradeId != Some(trade) || orders[k].legIdx.None?)
                   && (others[k].tradeId != Some(trade) || others[k].legIdx.None?))
    ensures Mixed(orders, trade) <==> Mixed(others, trade)
    ensures AllCanceled(orders, trade) <==> AllCanceled(others, trade)
  {
    forall k ensures IsLegRow(orders, k, trade) <==> IsLegRow(others, k, trade)
    {
    }
    forall k | IsLegRow(orders, k, trade) ensures orders[k] == others[k] {
    }
    forall k ensures IsNewest(orders, k, trade) <==> IsNewest(others, k, trade) {
    }
    hide IsLegRow, IsNewest, IsTerminalLocal;
    RowsAgree(orders, others, trade);
  }

  lemma RowsAgree(orders: seq<DbOrder>, others: seq<DbOrder>, trade: int)
    requires |orders| == |others|
    requires forall k :: IsNewest(orders, k, trade) <==> IsNewest(others, k, trade)
    requires forall k :: IsLegRow(orders, k, trade) <==> IsLegRow(others, k, trade)
    requires forall k :: IsLegRow(orders, k, trade) ==> orders[k] == others[k]
    ensures Mixed(orders, trade) <==> Mixed(others, trade)
    ensures AllCanceled(orders, trade) <==> AllCanceled(others, trade)
  {
  }

  /** An open trade without leg orders is left alone. */
  lemma NoLegOrdersNoVerdict(db: Db, ex: Exchange, i: nat)
    requires ex.open.Some? && i < |db.trades|
    requires forall k :: !IsLegRow(db.orders, k, db.trades[i].id)
    ensures |DbAfter(db, ex).trades| == |db.trades| && DbAfter(db, ex).trades[i] == db.trades[i]
    ensures PartialLegGroup(db.trades[i].id) !in MismatchesOf(db, ex)
  {
    var live, id := LiveIndex(ex.open.value), db.trades[i].id;
    forall k ensures !IsLegRow(DbAfter(db, ex).orders, k, id) {
      RepairKeepsRow(db.orders, live, ex, k, id);
    }
    HalfFilledReportedIff(db, ex, id);
  }
}
