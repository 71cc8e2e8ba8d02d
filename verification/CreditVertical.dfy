/** Building a credit vertical and what it can lose (bot/strategies/credit_vertical.py, the premium
    conversion of bot/strategies/base.py and the gates of bot/desk/leg_liquidity.py). */
module CreditVertical {
  import opened Common
  import opened ChainCache
  import Risk

  /** One leg with the mid it was picked at. */
  datatype Leg = Leg(symbol: string, side: Side, call: bool, strike: real, expiry: int, mid: real, lotSize: real)

  /** Amounts per unit of the underlying, and in rupees per lot of the short leg. */
  datatype Spread = Spread(legs: seq<Leg>, width: real, credit: real, maxLoss: real,
                           creditInr: Option<real>, maxLossInr: Option<real>)

  datatype Wing = Wing(target: real, band: Band)

  datatype Rules = Rules(short: Wing, long: Wing, minCredit: real, minOpenInterest: real, greeksRequired: bool)

  /** `MarketState.premium_inr`. */
  function PremiumInr(mid: real, lotSize: real, usdInr: real): Option<real> {
    if lotSize <= 0.0 then None else Some(mid * lotSize * usdInr)
  }

  predicate Liquid(rules: Rules, s: Selection) {
    && (rules.greeksRequired ==> s.quote.delta.Some?)
    && (rules.minOpenInterest > 0.0 ==>
        s.quote.openInterest.Some? && s.quote.openInterest.value >= rules.minOpenInterest)
  }

  function MakeLeg(s: Selection, side: Side): Leg
    requires s.quote.quote.Mid().Some?
  {
    Leg(s.instrument.symbol, side, s.instrument.call, s.instrument.strike, s.instrument.expiry,
        s.quote.quote.Mid().value, s.instrument.lotSize)
  }

  /** The spread on two selected strikes, unless it is mispriced, inverted, illiquid or too thin. */
  function Build(rules: Rules, call: bool, short: Selection, long: Selection, usdInr: real): Option<Spread> {
    if short.quote.quote.Mid().None? || long.quote.quote.Mid().None? then None
    else
      var width := if call then long.instrument.strike - short.instrument.strike
                   else short.instrument.strike - long.instrument.strike;
      if width <= 0.0 then None
      else
        var credit := short.quote.quote.Mid().value - long.quote.quote.Mid().value;
        var sold, bought := MakeLeg(short, Sell), MakeLeg(long, Buy);
        if !Liquid(rules, long) || !Liquid(rules, short) then None
        else
          var maxLoss := width - credit;
          if credit <= 0.0 || maxLoss <= 0.0 || credit < rules.minCredit * width then None
          else
            var lot := short.instrument.lotSize;
            Some(Spread(if call then [sold, bought] else [bought, sold], width, credit, maxLoss,
                        PremiumInr(credit, lot, usdInr), PremiumInr(maxLoss, lot, usdInr)))
  }

  /** A leg passes the desk's checks unless a required delta is missing or the open interest is too low. */
  lemma LiquidIff(rules: Rules, s: Selection)
    ensures Liquid(rules, s) <==>
            && !(rules.greeksRequired && s.quote.delta.None?)
            && (rules.minOpenInterest <= 0.0
                || (s.quote.openInterest.Some? && rules.minOpenInterest <= s.quote.openInterest.value))
  {
  }

  /** A spread is built exactly when both mids are known, the bought strike is the farther one from the money
      (below the sold one for puts, above it for calls), both legs are liquid, and the credit is positive,
      below the width and not too thin. Its figures are the distance of the strikes, the difference of the
      mids, and what is left of the one after the other. */
  lemma BuiltIff(rules: Rules, call: bool, short: Selection, long: Selection, usdInr: real)
    ensures var ms, ml := short.quote.quote.Mid(), long.quote.quote.Mid();
            var ks, kl := short.instrument.strike, long.instrument.strike;
            var s := Build(rules, call, short, long, usdInr);
            && (s.Some? <==>
                  && ms.Some? && ml.Some? && (if call then ks < kl else kl < ks)
                  && Liquid(rules, short) && Liquid(rules, long)
                  && ml.value < ms.value < ml.value + Abs(kl - ks)
                  && rules.minCredit * Abs(kl - ks) <= ms.value - ml.value)
            && (s.Some? ==>
                  && s.value.width == Abs(kl - ks) && s.value.credit == ms.value - ml.value
                  && s.value.maxLoss == s.value.width - s.value.credit
                  && s.value.creditInr == PremiumInr(s.value.credit, short.instrument.lotSize, usdInr)
                  && s.value.maxLossInr == PremiumInr(s.value.maxLoss, short.instrument.lotSize, usdInr))
  {
    hide Liquid;
  }

  /** Rupees per lot, for a positive lot size only. */
  lemma PremiumInrIs(mid: real, lotSize: real, usdInr: real)
    ensures PremiumInr(mid, lotSize, usdInr).Some? <==> lotSize > 0.0
    ensures lotSize > 0.0 ==> PremiumInr(mid, lotSize, usdInr).value == mid * (lotSize * usdInr)
  {
  }

  /** A bullish setup sells a put spread, a bearish one a call spread. */
  predicate SellsCalls(longSetup: bool) {
    !longSetup
  }

  /** The legs are on the selected instruments. */
  lemma BuildLegs(rules: Rules, call: bool, short: Selection, long: Selection, usdInr: real)
    requires Build(rules, call, short, long, usdInr).Some?
    ensures var legs := Build(rules, call, short, long, usdInr).value.legs;
            legs == if call then [MakeLeg(short, Sell), MakeLeg(long, Buy)]
              else [MakeLeg(long, Buy), MakeLeg(short, Sell)]
  {
  }

  /** An eligible strike of the wing whose absolute delta is nearest to the wing's target. */
  ghost predicate Best(cache: Cache, q: Query, wing: Wing, s: Selection)
    reads cache
  {
    && cache.Eligible(q, wing.band, s)
    && forall t :: cache.Eligible(q, wing.band, t) ==> DeltaDistance(s, wing.target) <= DeltaDistance(t, wing.target)
  }

  /** Nothing in the wing's band is quoted. */
  ghost predicate Unfillable(cache: Cache, q: Query, wing: Wing)
    reads cache
  {
    forall s :: !cache.Eligible(q, wing.band, s)
  }

  /** Select both strikes in one bucket and build the spread. Nothing is proposed if a wing cannot be filled;
      otherwise the proposal is that of the best strikes of both wings, if they make a spread at all. Both
      legs then expire at the same instant. */
  method Propose(cache: Cache, rules: Rules, underlying: Risk.Underlying, longSetup: bool, bucket: Bucket, now: int,
                 usdInr: real)
    returns (spread: Option<Spread>)
    ensures var q := Query(underlying, SellsCalls(longSetup), bucket, now);
            if Unfillable(cache, q, rules.short) || Unfillable(cache, q, rules.long) then spread == None
            else exists short, long ::
                   && Best(cache, q, rules.short, short) && Best(cache, q, rules.long, long)
                   && spread == Build(rules, SellsCalls(longSetup), short, long, usdInr)
    ensures spread.Some? && (forall x :: x in cache.instruments ==> x.ExpiresAtClose()) ==>
              |spread.value.legs| == 2 && spread.value.legs[0].expiry == spread.value.legs[1].expiry
    ensures spread.Some? ==> forall i :: 0 <= i < |spread.value.legs| ==>
            spread.value.legs[i].call == SellsCalls(longSetup)
  {
    hide Build;
    var q := Query(underlying, SellsCalls(longSetup), bucket, now);
    var short := cache.GetStrikeByDelta(q, rules.short.target, rules.short.band);
    var long := cache.GetStrikeByDelta(q, rules.long.target, rules.long.band);
    if short.None? || long.None? {
      return None;
    }
    assert Best(cache, q, rules.short, short.value) && Best(cache, q, rules.long, long.value);
    assert !Unfillable(cache, q, rules.short) && !Unfillable(cache, q, rules.long);
    spread := Build(rules, SellsCalls(longSetup), short.value, long.value, usdInr);
    if spread.Some? {
      BuildLegs(rules, SellsCalls(longSetup), short.value, long.value, usdInr);
    }
    if forall x :: x in cache.instruments ==> x.ExpiresAtClose() {
      SameBucketSameExpiry(now, short.value.instrument, long.value.instrument, bucket);
    }
  }

  // ------------------------------------------------------------------ at expiry

  function Payoff(call: bool, strike: real, x: real): real {
    Max(0.0, if call then x - strike else strike - x)
  }

  /** What a leg opened at its mid earns per unit if the underlying settles at `x`. */
  function LegPnl(l: Leg, x: real): real {
    Signed(l.side, Payoff(l.call, l.strike, x) - l.mid)
  }

  function ExpiryPnl(legs: seq<Leg>, x: real): real {
    if |legs| == 0 then 0.0 else ExpiryPnl(legs[..|legs| - 1], x) + LegPnl(legs[|legs| - 1], x)
  }

  /** In rupees per lot, each leg with its own lot size. */
  function ExpiryPnlInr(legs: seq<Leg>, x: real, usdInr: real): real {
    if |legs| == 0 then 0.0
    else ExpiryPnlInr(legs[..|legs| - 1], x, usdInr) + LegPnl(legs[|legs| - 1], x) * legs[|legs| - 1].lotSize * usdInr
  }

  lemma TwoLegs(legs: seq<Leg>, x: real, usdInr: real)
    requires |legs| == 2
    ensures ExpiryPnl(legs, x) == LegPnl(legs[0], x) + LegPnl(legs[1], x)
    ensures ExpiryPnlInr(legs, x, usdInr)
            == LegPnl(legs[0], x) * legs[0].lotSize * usdInr + LegPnl(legs[1], x) * legs[1].lotSize * usdInr
  {
    hide LegPnl;
    assert legs[..1] == [legs[0]] && legs[..1][..0] == [] && legs[..1][0] == legs[0];
    assert ExpiryPnl(legs[..1], x) == LegPnl(legs[0], x);
    assert ExpiryPnlInr(legs[..1], x, usdInr) == LegPnl(legs[0], x) * legs[0].lotSize * usdInr;
  }

  /** Wherever the underlying settles, a proposed spread earns at most its credit and loses at most
      `maxLoss`; both are attained, at the short and at the long strike. */
  lemma LossBounded(rules: Rules, call: bool, short: Selection, long: Selection, usdInr: real, x: real)
    requires Build(rules, call, short, long, usdInr).Some?
    requires short.instrument.call == call == long.instrument.call
    ensures var s := Build(rules, call, short, long, usdInr).value;
            && -s.maxLoss <= ExpiryPnl(s.legs, x) <= s.credit
            && ExpiryPnl(s.legs, long.instrument.strike) == -s.maxLoss < 0.0
            && ExpiryPnl(s.legs, short.instrument.strike) == s.credit > 0.0
  {
    hide ExpiryPnl;
    var s := Build(rules, call, short, long, usdInr).value;
    TwoLegs(s.legs, x, usdInr);
    TwoLegs(s.legs, long.instrument.strike, usdInr);
    TwoLegs(s.legs, short.instrument.strike, usdInr);
  }

  // ------------------------------------------------------------------ in rupees, with lot sizes

  /** The rupee result of the two legs, written with plain numbers: payoffs `ps` and `pl`, mids `ms`
      and `ml`, lot sizes `ls` and `ll` of the short and the long leg. */
  function PairInr(ps: real, ms: real, ls: real, pl: real, ml: real, ll: real, usd: real): real {
    -(ps - ms) * ls * usd + (pl - ml) * ll * usd
  }

  lemma PairInrIs(rules: Rules, call: bool, short: Selection, long: Selection, usdInr: real, x: real)
    requires Build(rules, call, short, long, usdInr).Some?
    requires short.instrument.call == call == long.instrument.call
    ensures var s, i, j := Build(rules, call, short, long, usdInr).value, short.instrument, long.instrument;
            ExpiryPnlInr(s.legs, x, usdInr)
            == PairInr(Payoff(call, i.strike, x), short.quote.quote.Mid().value, i.lotSize,
                       Payoff(call, j.strike, x), long.quote.quote.Mid().value, j.lotSize, usdInr)
  {
    hide ExpiryPnlInr, Payoff;
    TwoLegs(Build(rules, call, short, long, usdInr).value.legs, x, usdInr);
  }

  lemma CommonLot(ps: real, ms: real, pl: real, ml: real, lot: real, usd: real, maxLoss: real)
    requires lot > 0.0 && usd > 0.0 && -(ps - ms) + (pl - ml) >= -maxLoss
    ensures PairInr(ps, ms, lot, pl, ml, lot, usd) >= -(maxLoss * lot * usd)
  {
    var k := lot * usd;
    assert k > 0.0;
    MulMono(-maxLoss, -(ps - ms) + (pl - ml), k);
    Collect(-(ps - ms), pl - ml, lot, usd, k);
    assert -maxLoss * k == -(maxLoss * lot * usd);
  }

  lemma Collect(a: real, b: real, lot: real, usd: real, k: real)
    requires k == lot * usd
    ensures a * lot * usd + b * lot * usd == (a + b) * k
  {
    assert a * lot * usd == a * k;
    assert b * lot * usd == b * k;
  }

  /** At the long strike the short leg has lost the whole width and the long one is worthless: with a
      bigger long lot, more premium was paid than the short leg's lot accounts for. */
  lemma BiggerLongLot(w: real, ms: real, ls: real, ml: real, ll: real, usd: real)
    requires ll > ls && ml > 0.0 && usd > 0.0
    ensures PairInr(w, ms, ls, 0.0, ml, ll, usd) < -((w - (ms - ml)) * ls * usd)
  {
    Excess((ll - ls) * ml, usd);
    assert PairInr(w, ms, ls, 0.0, ml, ll, usd) + (w - (ms - ml)) * ls * usd == -((ll - ls) * ml * usd);
  }

  /** Beyond it by `y` the short leg loses faster than the smaller long lot gains. */
  lemma SmallerLongLot(w: real, y: real, ms: real, ls: real, ml: real, ll: real, usd: real)
    requires ll < ls && y > ml && usd > 0.0
    ensures PairInr(w + y, ms, ls, y, ml, ll, usd) < -((w - (ms - ml)) * ls * usd)
  {
    Excess((ls - ll) * (y - ml), usd);
    assert PairInr(w + y, ms, ls, y, ml, ll, usd) + (w - (ms - ml)) * ls * usd == -((ls - ll) * (y - ml) * usd);
  }

  lemma Excess(e: real, usd: real)
    requires e > 0.0 && usd > 0.0
    ensures e * usd > 0.0
  {
  }

  /** No settlement price loses more rupees per lot than the intent declares. */
  ghost predicate DeclaredLossHolds(s: Spread, usdInr: real) {
    forall x :: x >= 0.0 && s.maxLossInr.Some? ==> ExpiryPnlInr(s.legs, x, usdInr) >= -s.maxLossInr.value
  }

  lemma CommonLotHolds(rules: Rules, call: bool, short: Selection, long: Selection, usdInr: real, x: real)
    requires Build(rules, call, short, long, usdInr).Some? && usdInr > 0.0
    requires short.instrument.call == call == long.instrument.call
    requires short.instrument.lotSize == long.instrument.lotSize > 0.0
    ensures var s := Build(rules, call, short, long, usdInr).value;
            s.maxLossInr.Some? && ExpiryPnlInr(s.legs, x, usdInr) >= -s.maxLossInr.value
  {
    hide ExpiryPnlInr, PairInr;
    var s, i, j := Build(rules, call, short, long, usdInr).value, short.instrument, long.instrument;
    PairInrIs(rules, call, short, long, usdInr, x);
    CommonLot(Payoff(call, i.strike, x), short.quote.quote.Mid().value, Payoff(call, j.strike, x),
              long.quote.quote.Mid().value, i.lotSize, usdInr, s.maxLoss);
  }

  /** The declared maximum loss is computed with the short leg's lot size alone. For a long leg with a
      real price (positive, and below the strike for a put) it bounds the loss at every settlement price
      exactly when the two legs have the same lot size. */
  lemma DeclaredLossIff(rules: Rules, call: bool, short: Selection, long: Selection, usdInr: real)
    requires Build(rules, call, short, long, usdInr).Some? && usdInr > 0.0
    requires short.instrument.call == call == long.instrument.call
    requires short.instrument.lotSize > 0.0 && long.instrument.strike >= 0.0
    requires long.quote.quote.Mid().value > 0.0 && (call || long.quote.quote.Mid().value < long.instrument.strike)
    ensures DeclaredLossHolds(Build(rules, call, short, long, usdInr).value, usdInr)
            <==> short.instrument.lotSize == long.instrument.lotSize
  {
    hide ExpiryPnlInr, PairInr;
    var s, i, j := Build(rules, call, short, long, usdInr).value, short.instrument, long.instrument;
    var ms, ml := short.quote.quote.Mid().value, long.quote.quote.Mid().value;
    if i.lotSize == j.lotSize {
      forall x | x >= 0.0 && s.maxLossInr.Some? ensures ExpiryPnlInr(s.legs, x, usdInr) >= -s.maxLossInr.value {
        CommonLotHolds(rules, call, short, long, usdInr, x);
      }
    } else if i.lotSize < j.lotSize {
      PairInrIs(rules, call, short, long, usdInr, j.strike);
      BiggerLongLot(s.width, ms, i.lotSize, ml, j.lotSize, usdInr);
    } else {
      var y := if call then ml + 1.0 else j.strike;
      var x := if call then j.strike + y else 0.0;
      PairInrIs(rules, call, short, long, usdInr, x);
      SmallerLongLot(s.width, y, ms, i.lotSize, ml, j.lotSize, usdInr);
    }
  }

  // ------------------------------------------------------------------ after the gate

  function IntentOf(underlying: Risk.Underlying, requestedLots: int, s: Spread): Risk.Intent {
    Risk.Intent(Risk.CreditVertical, underlying, requestedLots, None, s.maxLossInr)
  }

  lemma ScaleLoss(lots: real, pnl: real, perLot: real)
    requires lots >= 0.0 && pnl >= -perLot
    ensures lots * -pnl <= lots * perLot
  {
    MulMono(-pnl, perLot, lots);
  }

  lemma UsdPositive(maxLoss: real, lot: real, usd: real)
    requires maxLoss > 0.0 && lot > 0.0 && maxLoss * lot * usd > 0.0
    ensures usd > 0.0
  {
    var k := maxLoss * lot;
    assert k > 0.0;
    if usd <= 0.0 {
      MulMono(usd, 0.0, k);
    }
  }

  /** Once the gate has sized an approved spread, its loss at the quoted mids, times the sized lots, is
      within the strategy's share of the NAV wherever the underlying settles. */
  lemma ApprovedLossWithinShare(rules: Rules, call: bool, short: Selection, long: Selection, usdInr: real, x: real,
                                cfg: Risk.Config, nav: Risk.Nav, acc: Risk.Accounting, u: Risk.Underlying,
                                requested: int,
                                windowOpen: bool, desk: Risk.Desk, z: Risk.Sizing)
    requires Build(rules, call, short, long, usdInr).Some?
    requires short.instrument.call == call == long.instrument.call
    requires short.instrument.lotSize == long.instrument.lotSize
    requires Risk.Gate(cfg, nav, acc, IntentOf(u, requested, Build(rules, call, short, long, usdInr).value), windowOpen,
                       desk, usdInr) == Some(z)
    requires z.decision == Risk.Approved
    ensures Risk.CreditVertical in cfg.strategies
    ensures z.lots as real * -ExpiryPnlInr(Build(rules, call, short, long, usdInr).value.legs, x, usdInr)
            <= nav.now * Risk.Share(cfg.strategies[Risk.CreditVertical])
  {
    hide ExpiryPnlInr, Risk.Gate, Risk.Share;
    var s := Build(rules, call, short, long, usdInr).value;
    var intent := IntentOf(u, requested, s);
    Risk.ApprovalMeans(cfg, nav, acc, intent, windowOpen, desk, usdInr);
    UsdPositive(s.maxLoss, short.instrument.lotSize, usdInr);
    CommonLotHolds(rules, call, short, long, usdInr, x);
    ScaleLoss(z.lots as real, ExpiryPnlInr(s.legs, x, usdInr), s.maxLossInr.value);
  }
}
