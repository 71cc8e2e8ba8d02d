/**
 Python's `round` (to even on ties) on reals, and the limit prices of the live executor that
 are built from it (bot/execution/live.py).
 */
module Rounding {
  import opened Common

  function RoundHalfEven(x: real): int {
    var f := x.Floor;
    var d := x - f as real;
    if d < 0.5 || (d == 0.5 && f % 2 == 0) then f else f + 1
  }

  lemma NearestInteger(x: real)
    ensures x - 0.5 <= RoundHalfEven(x) as real <= x + 0.5
  {
  }

  lemma RoundMonotone(x: real, y: real)
    requires x <= y
    ensures RoundHalfEven(x) <= RoundHalfEven(y)
  {
    if x.Floor < y.Floor {
    } else {
      assert x.Floor == y.Floor;
    }
  }

  lemma RoundFixesIntegers(k: int)
    ensures RoundHalfEven(k as real) == k
  {
    assert (k as real).Floor == k;
  }

  /** The multiple of `unit` nearest to `x`. */
  function RoundTo(x: real, unit: real): real
    requires unit > 0.0
  {
    RoundHalfEven(x / unit) as real * unit
  }

  lemma RoundToError(x: real, unit: real)
    requires unit > 0.0
    ensures x - unit / 2.0 <= RoundTo(x, unit) <= x + unit / 2.0
  {
    NearestInteger(x / unit);
    Scale(x / unit, RoundHalfEven(x / unit) as real, x, unit);
  }

  lemma Scale(q: real, r: real, x: real, unit: real)
    requires unit > 0.0 && q - 0.5 <= r <= q + 0.5 && q * unit == x
    ensures x - unit / 2.0 <= r * unit <= x + unit / 2.0
  {
    var err := r - q;
    MulMono(-0.5, err, unit);
    MulMono(err, 0.5, unit);
    assert r * unit == x + err * unit by {
      assert r == q + err;
    }
  }

  lemma DivMono(x: real, y: real, unit: real)
    requires x <= y && unit > 0.0
    ensures x / unit <= y / unit
  {
    MulMono(x, y, 1.0 / unit);
    assert x * (1.0 / unit) == x / unit && y * (1.0 / unit) == y / unit;
  }

  lemma RoundToMonotone(x: real, y: real, unit: real)
    requires x <= y && unit > 0.0
    ensures RoundTo(x, unit) <= RoundTo(y, unit)
  {
    DivMono(x, y, unit);
    RoundMonotone(x / unit, y / unit);
    MulMono(RoundHalfEven(x / unit) as real, RoundHalfEven(y / unit) as real, unit);
  }

  /** Multiples of the unit are left alone. */
  lemma RoundToFixes(k: int, unit: real)
    requires unit > 0.0
    ensures RoundTo(k as real * unit, unit) == k as real * unit
  {
    assert (k as real * unit) / unit == k as real;
    RoundFixesIntegers(k);
  }

  // ------------------------------------------------------------------ limit prices

  const EIGHT_DIGITS := 0.00000001

  function RoundTick(value: real, tick: real): real {
    if tick <= 0.0 then value else RoundTo(RoundTo(value, tick), EIGHT_DIGITS)
  }

  lemma RoundTickMonotone(x: real, y: real, tick: real)
    requires x <= y
    ensures RoundTick(x, tick) <= RoundTick(y, tick)
  {
    if tick > 0.0 {
      RoundToMonotone(x, y, tick);
      RoundToMonotone(RoundTo(x, tick), RoundTo(y, tick), EIGHT_DIGITS);
    }
  }

  lemma RoundTickError(x: real, tick: real)
    requires tick > 0.0
    ensures Abs(RoundTick(x, tick) - x) <= tick / 2.0 + EIGHT_DIGITS / 2.0
  {
    RoundToError(x, tick);
    RoundToError(RoundTo(x, tick), EIGHT_DIGITS);
  }

  /** The best bid, ask and mark known for an option; `Mid` as bot/data/chain_cache.py defines it. */
  datatype Quote = Quote(bid: Option<real>, ask: Option<real>, mark: Option<real>) {
    function Mid(): Option<real> {
      if bid.Some? && ask.Some? && ask.value > 0.0 then Some((bid.value + ask.value) / 2.0) else mark
    }
  }

  function MakerLimitPrice(q: Quote, side: Side, tick: real): Option<real> {
    var touch := if side == Buy then q.bid else q.ask;
    if touch.Some? then Some(RoundTick(touch.value, tick))
    else if q.Mid().Some? then Some(RoundTick(q.Mid().value, tick))
    else None
  }

  function IocLimitPrice(q: Quote, side: Side, slipBps: int, tick: real): Option<real> {
    var slip := (MaxInt(0, slipBps) as real) / 10000.0;
    var touch := if side == Buy then q.ask else q.bid;
    var ref := if touch.Some? then touch else q.Mid();
    if ref.None? then None
    else Some(RoundTick(IocTarget(ref.value, side, slip), tick))
  }

  function IocTarget(ref: real, side: Side, slip: real): real {
    ref * (if side == Buy then 1.0 + slip else 1.0 - slip)
  }

  /** A leg that got past the missing-quote check always has both limit prices: the branch that
      rejects for want of an IOC price is never taken. */
  lemma PricesDefined(q: Quote, side: Side, slipBps: int, tick: real)
    requires q.Mid().Some?
    ensures MakerLimitPrice(q, side, tick).Some? && IocLimitPrice(q, side, slipBps, tick).Some?
  {
  }

  /** Rounding a price on one side of a touch that lies on the tick grid never crosses back. */
  lemma RoundBeyondTouch(touch: real, target: real, tick: real, k: int, t: int)
    requires tick > 0.0 && touch == k as real * tick && touch == t as real * EIGHT_DIGITS
    ensures touch <= target ==> touch <= RoundTick(target, tick)
    ensures target <= touch ==> RoundTick(target, tick) <= touch
  {
    RoundToFixes(k, tick);
    RoundToFixes(t, EIGHT_DIGITS);
    assert RoundTick(touch, tick) == touch;
    if touch <= target {
      RoundTickMonotone(touch, target, tick);
    }
    if target <= touch {
      RoundTickMonotone(target, touch, tick);
    }
  }

  lemma SlipDistance(touch: real, side: Side, slip: real) returns (d: real)
    requires 0.0 <= touch && 0.0 <= slip
    ensures 0.0 <= d == touch * slip
    ensures IocTarget(touch, side, slip) == if side == Buy then touch + d else touch - d
  {
    d := touch * slip;
  }

  /** On a book whose touch lies on the tick grid the IOC limit crosses the touch, and it gives up
      no more than the slip budget plus half a tick. */
  lemma IocCrossesWithinBudget(q: Quote, side: Side, slipBps: int, tick: real, touch: real, k: int, t: int)
    returns (price: real, slip: real, give: real)
    requires (if side == Buy then q.ask else q.bid) == Some(touch) && 0.0 <= touch
    requires tick > 0.0 && touch == k as real * tick && touch == t as real * EIGHT_DIGITS
    ensures slip == (MaxInt(0, slipBps) as real) / 10000.0 && give == touch * slip
    ensures IocLimitPrice(q, side, slipBps, tick) == Some(price)
    ensures side == Buy ==> touch <= price <= touch + give + tick / 2.0 + EIGHT_DIGITS / 2.0
    ensures side == Sell ==> touch - give - tick / 2.0 - EIGHT_DIGITS / 2.0 <= price <= touch
  {
    slip := (MaxInt(0, slipBps) as real) / 10000.0;
    give := SlipDistance(touch, side, slip);
    var target := IocTarget(touch, side, slip);
    RoundBeyondTouch(touch, target, tick, k, t);
    RoundTickError(target, tick);
    price := RoundTick(target, tick);
  }

  /** A value halfway between two integers goes to the even one. */
  lemma TiesToEven(n: int)
    ensures RoundHalfEven(n as real + 0.5) % 2 == 0
  {
    assert (n as real + 0.5).Floor == n;
  }

  /** Without a tick nothing is rounded. */
  lemma NoTickNoRounding(x: real, tick: real)
    requires tick <= 0.0
    ensures RoundTick(x, tick) == x
  {
  }

  /** The mid is halfway between bid and ask when both are known and the ask is positive, the mark otherwise. */
  lemma MidIsHalfway(q: Quote)
    ensures q.bid.Some? && q.ask.Some? && q.ask.value > 0.0 ==>
              q.Mid().Some? && q.Mid().value - q.bid.value == q.ask.value - q.Mid().value
    ensures q.bid.None? || q.ask.None? || q.ask.value <= 0.0 ==> q.Mid() == q.mark
  {
  }

  /** On a book with room between its sides the maker order rests at its own side of it: a purchase at the bid,
      below the ask, a sale at the ask, above the bid. It cannot cross. */
  lemma MakerRestsAtTouch(q: Quote, side: Side, tick: real, k: int, t: int)
    requires q.bid.Some? && q.ask.Some? && q.bid.value < q.ask.value && tick > 0.0
    requires var touch := if side == Buy then q.bid.value else q.ask.value;
             touch == k as real * tick && touch == t as real * EIGHT_DIGITS
    ensures MakerLimitPrice(q, side, tick).Some?
    ensures side == Buy ==> MakerLimitPrice(q, side, tick).value == q.bid.value < q.ask.value
    ensures side == Sell ==> MakerLimitPrice(q, side, tick).value == q.ask.value > q.bid.value
  {
    RoundToFixes(k, tick);
    RoundToFixes(t, EIGHT_DIGITS);
  }

  /** Rounding lands on the grid. */
  lemma RoundToLandsOnGrid(x: real, unit: real) returns (k: int)
    requires unit > 0.0
    ensures RoundTo(x, unit) == k as real * unit
  {
    k := RoundHalfEven(x / unit);
  }

  /** A price rounded to ticks is a multiple of the eighth digit, next to the multiple of the tick that is nearest
      to the price. */
  lemma RoundTickLandsOnGrid(x: real, tick: real) returns (k: int, t: int)
    requires tick > 0.0
    ensures RoundTick(x, tick) == t as real * EIGHT_DIGITS
    ensures Abs(k as real * tick - x) <= tick / 2.0
    ensures Abs(RoundTick(x, tick) - k as real * tick) <= EIGHT_DIGITS / 2.0
  {
    k := RoundToLandsOnGrid(x, tick);
    RoundToError(x, tick);
    t := RoundToLandsOnGrid(RoundTo(x, tick), EIGHT_DIGITS);
    RoundToError(RoundTo(x, tick), EIGHT_DIGITS);
  }
}
