/** The dry-run simulator (bot/execution/dry.py): fills at mid plus adverse slippage. */
module DryExecution {
  import opened Common
  import opened Router
  import opened Premium
  import Rounding

  datatype Leg = Leg(symbol: string, side: Side, legIdx: int, clientId: string)

  const FOUR_DIGITS := 0.0001

  function FillPrice(mid: real, side: Side, slip: real): real {
    Rounding.RoundTo(FillTarget(mid, side, slip), FOUR_DIGITS)
  }

  function FillTarget(mid: real, side: Side, slip: real): real {
    mid * (1.0 + Sign(side) * Abs(slip))
  }

  /** One leg: rejected without a positive mid, otherwise filled whole. */
  function FillLeg(leg: Leg, mids: map<string, real>, slip: real, lots: int): LegFill {
    if leg.symbol !in mids || mids[leg.symbol] <= 0.0
    then LegFill(leg.symbol, leg.side, lots as real, 0.0, None, leg.legIdx, leg.clientId, None, Rejected)
    else LegFill(leg.symbol, leg.side, lots as real, lots as real,
                 Some(FillPrice(mids[leg.symbol], leg.side, slip)), leg.legIdx, leg.clientId, None, Filled)
  }

  ghost predicate AreFills(fills: seq<LegFill>, legs: seq<Leg>, mids: map<string, real>, slips: seq<real>, lots: int) {
    && |fills| == |legs| == |slips|
    && forall i :: 0 <= i < |legs| ==> fills[i] == FillLeg(legs[i], mids, slips[i], lots)
  }

  function FlipLeg(leg: Leg): Leg {
    leg.(side := Flip(leg.side))
  }

  class DryExecutor {
    var openOrders: map<int, seq<string>>

    constructor ()
      ensures openOrders == map[]
    {
      openOrders := map[];
    }

    /** `slips` are the random draws, one per leg, as fractions of the mid. */
    method FillLegs(legs: seq<Leg>, mids: map<string, real>, slips: seq<real>, lots: int) returns (fills: seq<LegFill>)
      requires |slips| == |legs|
      ensures AreFills(fills, legs, mids, slips, lots)
    {
      fills := [];
      for i := 0 to |legs|
        invariant |fills| == i
        invariant forall k :: 0 <= k < i ==> fills[k] == FillLeg(legs[k], mids, slips[k], lots)
      {
        fills := fills + [FillLeg(legs[i], mids, slips[i], lots)];
      }
    }

    /** Success exactly when every leg has a positive mid; only then are order ids recorded. */
    method SubmitEntry(tradeId: int, legs: seq<Leg>, mids: map<string, real>, slips: seq<real>, lots: int,
                       ids: seq<string>)
      returns (success: bool, fills: seq<LegFill>)
      requires |slips| == |legs|
      modifies this
      ensures AreFills(fills, legs, mids, slips, lots)
      ensures success <==> forall i :: 0 <= i < |legs| ==> legs[i].symbol in mids && mids[legs[i].symbol] > 0.0
      ensures openOrders ==
              var before := if tradeId in old(openOrders) then old(openOrders)[tradeId] else [];
              if success then old(openOrders)[tradeId := before + ids]
              else old(openOrders)
    {
      fills := FillLegs(legs, mids, slips, lots);
      success := true;
      for i := 0 to |fills|
        invariant success <==> forall k :: 0 <= k < i ==> legs[k].symbol in mids && mids[legs[k].symbol] > 0.0
      {
        if !fills[i].IsComplete() {
          success := false;
        }
      }
      if success {
        openOrders := openOrders[tradeId := (if tradeId in openOrders then openOrders[tradeId] else []) + ids];
      }
    }

    /** Exits flip every leg and always report success, even when a leg had no quote. */
    method SubmitExit(tradeId: int, legs: seq<Leg>, mids: map<string, real>, slips: seq<real>, lots: int)
      returns (success: bool, fills: seq<LegFill>)
      requires |slips| == |legs|
      modifies this
      ensures success
      ensures AreFills(fills, seq(|legs|, i requires 0 <= i < |legs| => FlipLeg(legs[i])), mids, slips, lots)
      ensures openOrders == old(openOrders) - {tradeId}
    {
      var flipped := [];
      for i := 0 to |legs|
        invariant |flipped| == i
        invariant forall k :: 0 <= k < i ==> flipped[k] == FlipLeg(legs[k])
      {
        flipped := flipped + [FlipLeg(legs[i])];
      }
      assert flipped == seq(|legs|, i requires 0 <= i < |legs| => FlipLeg(legs[i]));
      fills := FillLegs(flipped, mids, slips, lots);
      openOrders := openOrders - {tradeId};
      success := true;
    }
  }

  // ------------------------------------------------------------------ round trips

  lemma TargetBounds(mid: real, side: Side, slip: real, budget: real)
    requires mid > 0.0 && Abs(slip) <= budget
    ensures side == Buy ==> mid <= FillTarget(mid, side, slip) <= mid + budget * mid
    ensures side == Sell ==> mid - budget * mid <= FillTarget(mid, side, slip) <= mid
  {
    var a := Abs(slip);
    MulMono(0.0, a, mid);
    MulMono(a, budget, mid);
    if side == Buy {
      assert FillTarget(mid, side, slip) == mid + a * mid;
    } else {
      assert FillTarget(mid, side, slip) == mid - a * mid;
    }
  }

  /** A buy never fills below the rounded mid and a sale never above it, and neither strays
      further than the slip budget plus half a rounding unit. */
  lemma FillPriceBounds(mid: real, side: Side, slip: real, budget: real, rounded: real, slack: real)
    requires mid > 0.0 && Abs(slip) <= budget
    requires rounded == Rounding.RoundTo(mid, FOUR_DIGITS) && slack == budget * mid + FOUR_DIGITS / 2.0
    ensures side == Buy ==> rounded <= FillPrice(mid, side, slip) <= mid + slack
    ensures side == Sell ==> mid - slack <= FillPrice(mid, side, slip) <= rounded
  {
    var target := FillTarget(mid, side, slip);
    TargetBounds(mid, side, slip, budget);
    Rounding.RoundToError(target, FOUR_DIGITS);
    if side == Buy {
      Rounding.RoundToMonotone(mid, target, FOUR_DIGITS);
    } else {
      Rounding.RoundToMonotone(target, mid, FOUR_DIGITS);
    }
  }

  function Cost(mid: real, budget: real): real {
    2.0 * (budget * mid) + FOUR_DIGITS
  }

  function TotalCost(legs: seq<Leg>, mids: map<string, real>, budget: real): real
    requires forall i :: 0 <= i < |legs| ==> legs[i].symbol in mids
  {
    if |legs| == 0 then 0.0
    else TotalCost(legs[..|legs| - 1], mids, budget) + Cost(mids[legs[|legs| - 1].symbol], budget)
  }

  /** One leg of a round trip at an unchanged mid: never a gain, never worse than its cost. */
  lemma LegRoundTrip(leg: Leg, mids: map<string, real>, slipIn: real, slipOut: real, budget: real, lots: int,
                     e: LegFill, x: LegFill)
    requires leg.symbol in mids && mids[leg.symbol] > 0.0
    requires Abs(slipIn) <= budget && Abs(slipOut) <= budget
    requires e == FillLeg(leg, mids, slipIn, lots) && x == FillLeg(FlipLeg(leg), mids, slipOut, lots)
    ensures Matches(e, x, lots as real)
    ensures -Cost(mids[leg.symbol], budget) <= UnitMove(e, x) <= 0.0
  {
    hide FillPrice, Rounding.RoundTo;
    var mid := mids[leg.symbol];
    var rounded, slack := Rounding.RoundTo(mid, FOUR_DIGITS), budget * mid + FOUR_DIGITS / 2.0;
    FillPriceBounds(mid, leg.side, slipIn, budget, rounded, slack);
    FillPriceBounds(mid, Flip(leg.side), slipOut, budget, rounded, slack);
  }

  lemma {:induction false} RoundTripSum(legs: seq<Leg>, mids: map<string, real>, entries: seq<LegFill>,
                                        exits: seq<LegFill>, budget: real)
    requires |legs| == |entries| == |exits|
    requires forall i :: 0 <= i < |legs| ==> legs[i].symbol in mids
    requires forall i :: 0 <= i < |legs| ==> entries[i].avgPrice.Some? && exits[i].avgPrice.Some?
    requires forall i :: 0 <= i < |legs| ==>
               -Cost(mids[legs[i].symbol], budget) <= UnitMove(entries[i], exits[i]) <= 0.0
    ensures -TotalCost(legs, mids, budget) <= SumUnitMoves(entries, exits) <= 0.0
  {
    if |legs| > 0 {
      var n := |legs| - 1;
      RoundTripSum(legs[..n], mids, entries[..n], exits[..n], budget);
    }
  }

  /** A dry round trip at unchanged positive mids, booked through the per-lot columns, never shows a
      profit and never loses more than twice the slip budget plus the rounding, leg by leg. */
  lemma DryRoundTrip(legs: seq<Leg>, mids: map<string, real>, slipsIn: seq<real>, slipsOut: seq<real>,
                     budget: real, lots: int, entries: seq<LegFill>, exits: seq<LegFill>)
    requires lots >= 1 && |slipsIn| == |slipsOut| == |legs|
    requires forall i :: 0 <= i < |legs| ==> legs[i].symbol in mids && mids[legs[i].symbol] > 0.0
    requires forall i :: 0 <= i < |legs| ==> Abs(slipsIn[i]) <= budget && Abs(slipsOut[i]) <= budget
    requires AreFills(entries, legs, mids, slipsIn, lots)
    requires AreFills(exits, seq(|legs|, i requires 0 <= i < |legs| => FlipLeg(legs[i])), mids, slipsOut, lots)
    ensures -(TotalCost(legs, mids, budget) * lots as real)
            <= RealisedPnl(PerLot(NetPremium(entries), lots), lots, exits) <= 0.0
  {
    hide FillPrice, RealisedPnl, PerLot, NetPremium, Cost, UnitMove;
    forall i | 0 <= i < |legs|
      ensures Matches(entries[i], exits[i], lots as real)
      ensures -Cost(mids[legs[i].symbol], budget) <= UnitMove(entries[i], exits[i]) <= 0.0
    {
      assert exits[i] == FillLeg(FlipLeg(legs[i]), mids, slipsOut[i], lots);
      LegRoundTrip(legs[i], mids, slipsIn[i], slipsOut[i], budget, lots, entries[i], exits[i]);
    }
    RoundTripSum(legs, mids, entries, exits, budget);
    Booked(entries, exits, lots, TotalCost(legs, mids, budget));
  }

  /** From moves per unit to the rupees booked for all lots. */
  lemma Booked(entries: seq<LegFill>, exits: seq<LegFill>, lots: int, cost: real)
    requires lots >= 1 && Closes(entries, exits, lots as real)
    requires forall i :: 0 <= i < |entries| ==> entries[i].avgPrice.Some? && exits[i].avgPrice.Some?
    requires -cost <= SumUnitMoves(entries, exits) <= 0.0
    ensures -(cost * lots as real) <= RealisedPnl(PerLot(NetPremium(entries), lots), lots, exits) <= 0.0
  {
    hide RealisedPnl, PerLot, NetPremium, SumLegPnl, SumUnitMoves;
    RealisedIsSumOfLegs(entries, exits, lots);
    SumScales(entries, exits, lots as real);
    MulMono(-cost, SumUnitMoves(entries, exits), lots as real);
    MulMono(SumUnitMoves(entries, exits), 0.0, lots as real);
  }

  /** A leg without a positive mid fills nothing, costs nothing and is not complete; any other leg fills whole. */
  lemma FilledIff(leg: Leg, mids: map<string, real>, slip: real, lots: int)
    requires lots >= 1
    ensures var f := FillLeg(leg, mids, slip, lots);
            && f.symbol == leg.symbol && f.side == leg.side && f.requested == lots as real
            && (f.IsComplete() <==> leg.symbol in mids && mids[leg.symbol] > 0.0)
            && (f.IsComplete() ==> f.filled == lots as real && f.avgPrice.Some?)
            && (!f.IsComplete() ==> f.filled == 0.0 && f.avgPrice == None && f.Premium() == 0.0)
  {
    hide FillPrice;
  }

  /** Simulated prices have four digits after the point, exchange prices eight. */
  lemma Digits()
    ensures FOUR_DIGITS * 10000.0 == 1.0 && Rounding.EIGHT_DIGITS * 100000000.0 == 1.0
  {
  }
}
