/** Fills exchanged between the executors and the engine (bot/execution/router.py). */
module Router {
  import opened Common

  /** An order's state as the exchange words it. */
  datatype WireState = Pending | Open | PartiallyFilled | Filled | Closed | Cancelled | Rejected {
    /** The exchange may still execute an order in one of these states. */
    predicate Live() {
      this == Pending || this == Open || this == PartiallyFilled
    }
  }

  datatype LegFill = LegFill(symbol: string, side: Side, requested: real, filled: real,
                             avgPrice: Option<real>, legIdx: int, clientId: string,
                             exchangeId: Option<int>, state: WireState)
  {
    predicate IsComplete() {
      state == Filled && filled >= requested - 0.000000001
    }

    /** Cash paid for the fill, negative when received; a fill without a price counts nothing. */
    function Premium(): real {
      if avgPrice.None? then 0.0 else Sign(side) * avgPrice.value * filled
    }
  }

  function NetPremium(fills: seq<LegFill>): real {
    if |fills| == 0 then 0.0 else NetPremium(fills[..|fills| - 1]) + fills[|fills| - 1].Premium()
  }

  /** `EntryResult.total_premium_inr`. */
  method TotalPremium(fills: seq<LegFill>) returns (total: real)
    ensures total == NetPremium(fills)
  {
    total := 0.0;
    for i := 0 to |fills|
      invariant total == NetPremium(fills[..i])
    {
      assert fills[..i + 1][..i] == fills[..i];
      if fills[i].avgPrice.Some? {
        total := total + Sign(fills[i].side) * fills[i].avgPrice.value * fills[i].filled;
      }
    }
    assert fills[..|fills|] == fills;
  }

  /** A fill is complete if it is worded "filled" and short of its request by no more than a billionth. */
  lemma CompleteIff(f: LegFill)
    ensures f.IsComplete() <==> f.state == Filled && f.requested - f.filled <= 0.000000001
  {
  }

  /** A fill without a price adds nothing to the premium. */
  lemma UnpricedAddsNothing(fills: seq<LegFill>, f: LegFill)
    requires f.avgPrice.None?
    ensures NetPremium(fills + [f]) == NetPremium(fills)
  {
    assert (fills + [f])[..|fills|] == fills;
  }
}
