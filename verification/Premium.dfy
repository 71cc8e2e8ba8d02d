/** Per-lot premium columns and realised PnL (bot/execution/premium.py). */
module Premium {
  import opened Common
  import opened Router

  /** The `premium_paid_inr` and `credit_received_inr` columns of a trade, both per lot. */
  datatype Columns = Columns(paid: Option<real>, credit: Option<real>)

  function PerLot(net: real, lots: int): Columns {
    var n := if lots < 1 then 1 else lots;
    var perLot := net / (n as real);
    if perLot > 0.0 then Columns(Some(perLot), None)
    else if perLot < 0.0 then Columns(None, Some(-perLot))
    else Columns(None, None)
  }

  function EntryCashflow(c: Columns, lots: int): real {
    (if c.paid.Some? then -(c.paid.value * lots as real) else 0.0)
    + (if c.credit.Some? then c.credit.value * lots as real else 0.0)
  }

  /** Cash from exit fills: sales bring money in. */
  method ExitCashflow(fills: seq<LegFill>) returns (cash: real)
    ensures cash == -NetPremium(fills)
  {
    cash := 0.0;
    for i := 0 to |fills|
      invariant cash == -NetPremium(fills[..i])
    {
      assert fills[..i + 1][..i] == fills[..i];
      var f := fills[i];
      if f.avgPrice.Some? {
        var sign := if f.side == Sell then 1.0 else -1.0;
        assert sign == -Sign(f.side);
        cash := cash + sign * f.avgPrice.value * f.filled;
      }
    }
    assert fills[..|fills|] == fills;
  }

  function RealisedPnl(c: Columns, lots: int, exits: seq<LegFill>): real {
    EntryCashflow(c, lots) - NetPremium(exits)
  }

  lemma DivisionRoundTrip(net: real, n: real)
    requires n != 0.0
    ensures net / n * n == net
  {
  }

  /** Splitting a net premium per lot and multiplying back loses nothing exactly when there is at
      least one lot (or nothing to split). */
  lemma SplitRecombines(net: real, lots: int)
    ensures EntryCashflow(PerLot(net, lots), lots) == -net <==> lots >= 1 || net == 0.0
  {
    if lots >= 1 {
      DivisionRoundTrip(net, lots as real);
    } else {
      var l := lots as real;
      assert EntryCashflow(PerLot(net, lots), lots) == -(net * l);
      if net != 0.0 {
        assert net * (l - 1.0) != 0.0;
      }
    }
  }

  /** What one leg earns between an entry fill and the exit fill of the same leg. */
  function LegPnl(entry: LegFill, exit: LegFill, lots: real): real
    requires entry.avgPrice.Some? && exit.avgPrice.Some?
  {
    UnitMove(entry, exit) * lots
  }

  function UnitMove(entry: LegFill, exit: LegFill): real
    requires entry.avgPrice.Some? && exit.avgPrice.Some?
  {
    Sign(entry.side) * (exit.avgPrice.value - entry.avgPrice.value)
  }

  /** The exit fills close the entry fills leg by leg: same size, opposite side, all priced. */
  ghost predicate Closes(entries: seq<LegFill>, exits: seq<LegFill>, lots: real) {
    && |entries| == |exits|
    && forall i :: 0 <= i < |entries| ==> Matches(entries[i], exits[i], lots)
  }

  ghost predicate Matches(entry: LegFill, exit: LegFill, lots: real) {
    && entry.avgPrice.Some? && exit.avgPrice.Some?
    && entry.filled == lots == exit.filled
    && exit.side == Flip(entry.side)
  }

  function SumLegPnl(entries: seq<LegFill>, exits: seq<LegFill>, lots: real): real
    requires |entries| == |exits|
    requires forall i :: 0 <= i < |entries| ==> entries[i].avgPrice.Some? && exits[i].avgPrice.Some?
  {
    if |entries| == 0 then 0.0
    else
      var n := |entries| - 1;
      SumLegPnl(entries[..n], exits[..n], lots) + LegPnl(entries[n], exits[n], lots)
  }

  function SumUnitMoves(entries: seq<LegFill>, exits: seq<LegFill>): real
    requires |entries| == |exits|
    requires forall i :: 0 <= i < |entries| ==> entries[i].avgPrice.Some? && exits[i].avgPrice.Some?
  {
    if |entries| == 0 then 0.0
    else
      var n := |entries| - 1;
      SumUnitMoves(entries[..n], exits[..n]) + UnitMove(entries[n], exits[n])
  }

  lemma {:induction false} SumScales(entries: seq<LegFill>, exits: seq<LegFill>, lots: real)
    requires |entries| == |exits|
    requires forall i :: 0 <= i < |entries| ==> entries[i].avgPrice.Some? && exits[i].avgPrice.Some?
    ensures SumLegPnl(entries, exits, lots) == SumUnitMoves(entries, exits) * lots
  {
    if |entries| > 0 {
      var n := |entries| - 1;
      SumScales(entries[..n], exits[..n], lots);
      Distribute(SumUnitMoves(entries[..n], exits[..n]), UnitMove(entries[n], exits[n]), lots);
    }
  }

  lemma Distribute(a: real, b: real, k: real)
    ensures (a + b) * k == a * k + b * k
  {
  }

  lemma LegConserves(entry: LegFill, exit: LegFill, lots: real)
    requires Matches(entry, exit, lots)
    ensures entry.Premium() + exit.Premium() == -LegPnl(entry, exit, lots)
  {
  }

  lemma {:induction false} LegsConserve(entries: seq<LegFill>, exits: seq<LegFill>, lots: real)
    requires Closes(entries, exits, lots)
    ensures NetPremium(entries) + NetPremium(exits) == -SumLegPnl(entries, exits, lots)
  {
    if |entries| > 0 {
      var n := |entries| - 1;
      assert Matches(entries[n], exits[n], lots);
      LegConserves(entries[n], exits[n], lots);
      assert Closes(entries[..n], exits[..n], lots) by {
        forall i | 0 <= i < n ensures Matches(entries[..n][i], exits[..n][i], lots) {
          assert Matches(entries[i], exits[i], lots);
        }
      }
      LegsConserve(entries[..n], exits[..n], lots);
    }
  }

  /** A round trip booked through the per-lot columns realises exactly the legs' price moves. */
  lemma RealisedIsSumOfLegs(entries: seq<LegFill>, exits: seq<LegFill>, lots: int)
    requires lots >= 1 && Closes(entries, exits, lots as real)
    ensures RealisedPnl(PerLot(NetPremium(entries), lots), lots, exits)
            == SumLegPnl(entries, exits, lots as real)
  {
    SplitRecombines(NetPremium(entries), lots);
    LegsConserve(entries, exits, lots as real);
  }

  /** A premium paid fills one column, a credit received the other, nothing neither; the amounts are positive. */
  lemma OneColumn(net: real, lots: int)
    ensures var c := PerLot(net, lots);
            && (c.paid.Some? <==> net > 0.0) && (c.credit.Some? <==> net < 0.0)
            && (c.paid.Some? ==> c.paid.value > 0.0) && (c.credit.Some? ==> c.credit.value > 0.0)
  {
    var n := (if lots < 1 then 1 else lots) as real;
    DivisionRoundTrip(net, n);
  }
}
