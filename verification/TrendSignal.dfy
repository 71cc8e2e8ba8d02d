/** The EMA-separation and range-breakout test (bot/strategies/trend_signal.py). */
module TrendSignal {
  import opened Common
  import opened Indicators

  /** `DirectionalEntry`; only the types of these fields are validated by the configuration. */
  datatype Entry = Entry(emaFast: int, emaSlow: int, atrPeriod: int, priorBars: int, breakoutAtrMult: real)

  /** Parallel price series, one element per bar. */
  datatype Bars = Bars(closes: seq<real>, highs: seq<real>, lows: seq<real>) {
    predicate Valid() {
      |closes| == |highs| == |lows|
    }
  }

  datatype Outcome =
    | InsufficientHistory
    | AtrNotReady
    | Raises  // a ValueError from an indicator period below one or an empty prior window
    | Setup(long: bool, short: bool, sep: real, threshold: real)

  function MinBars(e: Entry): int {
    MaxInt(e.emaSlow, MaxInt(e.atrPeriod + 1, e.priorBars + 2))
  }

  /** The slice xs[-(priorBars + 1) : -1] with Python's treatment of signs and bounds. */
  function PriorWindow(xs: seq<real>, priorBars: int): seq<real> {
    var n := |xs|;
    var start := -(priorBars + 1);
    var lo := if start < 0 then MaxInt(0, n + start) else MinInt(start, n);
    if lo < n - 1 then xs[lo..n - 1] else []
  }

  function Highest(xs: seq<real>): real
    requires |xs| > 0
  {
    if |xs| == 1 then xs[0] else Max(Highest(xs[..|xs| - 1]), xs[|xs| - 1])
  }

  function Lowest(xs: seq<real>): real
    requires |xs| > 0
  {
    if |xs| == 1 then xs[0] else Min(Lowest(xs[..|xs| - 1]), xs[|xs| - 1])
  }

  predicate LongSetup(sep: real, threshold: real, close: real, priorHigh: real) {
    sep > threshold && close > priorHigh + threshold
  }

  predicate ShortSetup(sep: real, threshold: real, close: real, priorLow: real) {
    sep < -threshold && close < priorLow - threshold
  }

  function EmaSep(closes: seq<real>, e: Entry): real
    requires e.emaFast >= 1 && e.emaSlow >= 1 && |closes| > 0
  {
    EmaAt(closes, e.emaFast, |closes| - 1) - EmaAt(closes, e.emaSlow, |closes| - 1)
  }

  function LatestAtr(b: Bars, e: Entry): real
    requires b.Valid() && 1 <= e.atrPeriod <= |b.closes|
  {
    AtrAt(TrueRanges(b.highs, b.lows, b.closes), e.atrPeriod, |b.closes| - 1)
  }

  function Threshold(b: Bars, e: Entry): real
    requires b.Valid() && 1 <= e.atrPeriod <= |b.closes|
  {
    e.breakoutAtrMult * LatestAtr(b, e)
  }

  function Evaluate(b: Bars, e: Entry): Outcome
    requires b.Valid()
  {
    if |b.closes| < MinBars(e) then InsufficientHistory
    else if e.emaFast <= 0 || e.emaSlow <= 0 || e.atrPeriod <= 0 then Raises
    else if |b.closes| < e.atrPeriod then AtrNotReady
    else if |PriorWindow(b.highs, e.priorBars)| == 0 then Raises
    else
      var sep := EmaSep(b.closes, e);
      var threshold := Threshold(b, e);
      var close := b.closes[|b.closes| - 1];
      Setup(LongSetup(sep, threshold, close, Highest(PriorWindow(b.highs, e.priorBars))),
            ShortSetup(sep, threshold, close, Lowest(PriorWindow(b.lows, e.priorBars))),
            sep, threshold)
  }

  /** The warm-up check already rules out an undefined ATR. */
  lemma AtrAlwaysReady(b: Bars, e: Entry)
    requires b.Valid()
    ensures Evaluate(b, e) != AtrNotReady
  {
  }

  // ------------------------------------------------------------------ affine symmetry

  /** All prices mapped by x -> a x + c; a falling map turns highs into lows. */
  function MapBars(a: real, c: real, b: Bars): Bars
    requires b.Valid()
  {
    Bars(MapSeq(a, c, b.closes),
         if a > 0.0 then MapSeq(a, c, b.highs) else MapSeq(a, c, b.lows),
         if a > 0.0 then MapSeq(a, c, b.lows) else MapSeq(a, c, b.highs))
  }

  lemma {:induction false} ExtremesMap(a: real, c: real, xs: seq<real>)
    requires |xs| > 0
    ensures a > 0.0 ==>
              && Highest(MapSeq(a, c, xs)) == Map(a, c, Highest(xs))
              && Lowest(MapSeq(a, c, xs)) == Map(a, c, Lowest(xs))
    ensures a < 0.0 ==>
              && Highest(MapSeq(a, c, xs)) == Map(a, c, Lowest(xs))
              && Lowest(MapSeq(a, c, xs)) == Map(a, c, Highest(xs))
  {
    hide Map;
    if |xs| > 1 {
      var n := |xs| - 1;
      ExtremesMap(a, c, xs[..n]);
      assert MapSeq(a, c, xs)[..n] == MapSeq(a, c, xs[..n]);
      MapOrder(a, c, Highest(xs[..n]), xs[n]);
      MapOrder(a, c, Lowest(xs[..n]), xs[n]);
    }
  }

  lemma MapOrder(a: real, c: real, x: real, y: real)
    ensures a > 0.0 ==> (Map(a, c, x) < Map(a, c, y) <==> x < y) && (Map(a, c, x) == Map(a, c, y) <==> x == y)
    ensures a < 0.0 ==> (Map(a, c, x) < Map(a, c, y) <==> y < x) && (Map(a, c, x) == Map(a, c, y) <==> x == y)
  {
    assert Map(a, c, x) - Map(a, c, y) == a * (x - y);
  }

  lemma WindowMap(a: real, c: real, xs: seq<real>, priorBars: int)
    ensures PriorWindow(MapSeq(a, c, xs), priorBars) == MapSeq(a, c, PriorWindow(xs, priorBars))
  {
    hide Map;
  }

  lemma DistanceMap(a: real, c: real, x: real, y: real)
    ensures Map(a, c, x) - Map(a, c, y) == a * (x - y)
    ensures Abs(Map(a, c, x) - Map(a, c, y)) == Abs(a) * Abs(x - y)
  {
    assert Map(a, c, x) - Map(a, c, y) == a * (x - y);
    AbsProduct(a, x - y);
  }

  lemma AbsProduct(a: real, d: real)
    ensures Abs(a * d) == Abs(a) * Abs(d)
  {
    if a < 0.0 {
      assert (-a) * d == -(a * d);
    }
  }

  lemma ScaleMax(k: real, x: real, y: real, z: real, x': real, y': real, z': real)
    requires k >= 0.0 && x' == k * x && y' == k * y && z' == k * z
    ensures Max(x', Max(y', z')) == k * Max(x, Max(y, z)) == Max(x', Max(z', y'))
  {
    hide Max;
    ScaleMaxOfTwo(k, y, z, y', z');
    ScaleMaxOfTwo(k, z, y, z', y');
    ScaleMaxOfTwo(k, x, Max(y, z), x', Max(y', z'));
    MaxCommutes(y', z');
  }

  lemma MaxCommutes(x: real, y: real)
    ensures Max(x, y) == Max(y, x)
  {
  }

  lemma ScaleMaxOfTwo(k: real, x: real, y: real, x': real, y': real)
    requires k >= 0.0 && x' == k * x && y' == k * y
    ensures Max(x', y') == k * Max(x, y)
  {
    if x < y {
      MulMono(x, y, k);
    } else {
      MulMono(y, x, k);
    }
  }

  lemma RangeOfMap(a: real, c: real, h: real, l: real, p: real)
    requires a != 0.0
    ensures a > 0.0 ==> Range(Map(a, c, h), Map(a, c, l), Map(a, c, p)) == Abs(a) * Range(h, l, p)
    ensures a < 0.0 ==> Range(Map(a, c, l), Map(a, c, h), Map(a, c, p)) == Abs(a) * Range(h, l, p)
  {
    hide Map, Max, Abs;
    SpreadMap(a, c, h, l);
    DistanceMap(a, c, h, p);
    DistanceMap(a, c, l, p);
    var h', l', p' := Map(a, c, h), Map(a, c, l), Map(a, c, p);
    if a > 0.0 {
      ScaleMax(Abs(a), h - l, Abs(h - p), Abs(l - p), h' - l', Abs(h' - p'), Abs(l' - p'));
    } else {
      ScaleMax(Abs(a), h - l, Abs(h - p), Abs(l - p), l' - h', Abs(h' - p'), Abs(l' - p'));
    }
  }

  lemma SpreadMap(a: real, c: real, h: real, l: real)
    ensures 0.0 <= Abs(a)
    ensures a > 0.0 ==> Map(a, c, h) - Map(a, c, l) == Abs(a) * (h - l)
    ensures a < 0.0 ==> Map(a, c, l) - Map(a, c, h) == Abs(a) * (h - l)
  {
    hide Map;
    if a > 0.0 {
      AffineRise(a, c, h, l);
    } else if a < 0.0 {
      AffineFall(a, c, h, l, -a);
    }
  }

  lemma AffineRise(a: real, c: real, h: real, l: real)
    ensures Map(a, c, h) - Map(a, c, l) == a * (h - l)
  {
    assert a * (h - l) == a * h - a * l;
  }

  lemma AffineFall(a: real, c: real, h: real, l: real, k: real)
    requires k == -a
    ensures Map(a, c, l) - Map(a, c, h) == k * (h - l)
  {
    assert a * (h - l) == a * h - a * l;
    assert k * (h - l) == -(a * (h - l));
  }

  /** One bar's range is stretched by |a|, whichever way the map runs. */
  lemma RangeMap(a: real, c: real, b: Bars, i: nat)
    requires b.Valid() && i < |b.closes| && a != 0.0
    ensures var m := MapBars(a, c, b);
            TrueRange(m.highs, m.lows, m.closes, i) == Abs(a) * TrueRange(b.highs, b.lows, b.closes, i)
  {
    hide Map, Range, Abs;
    SpreadMap(a, c, b.highs[i], b.lows[i]);
    if i > 0 {
      RangeOfMap(a, c, b.highs[i], b.lows[i], b.closes[i - 1]);
    }
  }

  lemma AtrMap(a: real, c: real, b: Bars, e: Entry)
    requires b.Valid() && 1 <= e.atrPeriod <= |b.closes| && a != 0.0
    ensures LatestAtr(MapBars(a, c, b), e) == Abs(a) * LatestAtr(b, e)
  {
    hide TrueRange, Map, AtrAt, Abs;
    var m := MapBars(a, c, b);
    var s, t := TrueRanges(b.highs, b.lows, b.closes), TrueRanges(m.highs, m.lows, m.closes);
    forall j | 0 <= j < |b.closes| ensures t[j] == Abs(a) * s[j] {
      RangeMap(a, c, b, j);
    }
    AtrScales(Abs(a), s, t, e.atrPeriod, |b.closes| - 1);
  }

  lemma ThresholdMap(a: real, c: real, b: Bars, e: Entry)
    requires b.Valid() && 1 <= e.atrPeriod <= |b.closes| && a != 0.0
    ensures Threshold(MapBars(a, c, b), e) == Abs(a) * Threshold(b, e)
  {
    hide LatestAtr;
    AtrMap(a, c, b, e);
    Commute(e.breakoutAtrMult, Abs(a), LatestAtr(b, e), LatestAtr(MapBars(a, c, b), e));
  }

  lemma Commute(mult: real, k: real, atr: real, atr': real)
    requires atr' == k * atr
    ensures mult * atr' == k * (mult * atr)
  {
  }

  lemma SepMap(a: real, c: real, b: Bars, e: Entry)
    requires b.Valid() && e.emaFast >= 1 && e.emaSlow >= 1 && |b.closes| > 0
    ensures EmaSep(MapBars(a, c, b).closes, e) == a * EmaSep(b.closes, e)
  {
    hide Map, EmaAt;
    var n := |b.closes| - 1;
    EmaAffine(a, c, b.closes, e.emaFast, n);
    EmaAffine(a, c, b.closes, e.emaSlow, n);
    DistanceMap(a, c, EmaAt(b.closes, e.emaFast, n), EmaAt(b.closes, e.emaSlow, n));
  }

  /** "Above by t" and "below by t" under a rising and under a falling map. */
  lemma GapMap(a: real, c: real, x: real, y: real, t: real, t': real)
    requires a != 0.0 && t' == Abs(a) * t
    ensures a > 0.0 ==> (Map(a, c, x) > Map(a, c, y) + t' <==> x > y + t)
    ensures a > 0.0 ==> (Map(a, c, x) < Map(a, c, y) - t' <==> x < y - t)
    ensures a < 0.0 ==> (Map(a, c, x) > Map(a, c, y) + t' <==> x < y - t)
    ensures a < 0.0 ==> (Map(a, c, x) < Map(a, c, y) - t' <==> x > y + t)
  {
    var k := Abs(a);
    ScaleSign(k, x - y - t);
    ScaleSign(k, x - y + t);
    DistributeThree(k, x, y, t);
    assert Map(a, c, x) - Map(a, c, y) == if a > 0.0 then k * (x - y) else -(k * (x - y));
  }

  lemma DistributeThree(k: real, x: real, y: real, t: real)
    ensures k * (x - y - t) == k * (x - y) - k * t && k * (x - y + t) == k * (x - y) + k * t
  {
  }

  lemma ScaleSign(k: real, x: real)
    requires k > 0.0
    ensures (k * x > 0.0 <==> x > 0.0) && (k * x < 0.0 <==> x < 0.0)
  {
  }

  /** The two setups under a map: a rising one keeps each, a falling one exchanges them. */
  lemma SetupMap(a: real, c: real, sep: real, thr: real, close: real, high: real, low: real, sep': real, thr': real)
    requires a != 0.0 && sep' == a * sep && thr' == Abs(a) * thr
    ensures a > 0.0 ==>
              && (LongSetup(sep', thr', Map(a, c, close), Map(a, c, high)) <==> LongSetup(sep, thr, close, high))
              && (ShortSetup(sep', thr', Map(a, c, close), Map(a, c, low)) <==> ShortSetup(sep, thr, close, low))
    ensures a < 0.0 ==>
              && (LongSetup(sep', thr', Map(a, c, close), Map(a, c, low)) <==> ShortSetup(sep, thr, close, low))
              && (ShortSetup(sep', thr', Map(a, c, close), Map(a, c, high)) <==> LongSetup(sep, thr, close, high))
  {
    GapMap(a, 0.0, sep, 0.0, thr, thr');
    assert Map(a, 0.0, sep) == sep' && Map(a, 0.0, 0.0) == 0.0;
    GapMap(a, c, close, high, thr, thr');
    GapMap(a, c, close, low, thr, thr');
    hide Map;
  }

  /** Mapping every price by a rising line changes nothing; by a falling one, such as a reflection
      about a level, it exchanges the long and the short setup. No other outcome changes. */
  lemma SignalSymmetry(b: Bars, e: Entry, a: real, c: real)
    requires b.Valid() && a != 0.0
    ensures MapBars(a, c, b).Valid()
    ensures var x, y := Evaluate(b, e), Evaluate(MapBars(a, c, b), e);
            if x.Setup? then
              && y.Setup?
              && (a > 0.0 ==> y.long == x.long && y.short == x.short)
              && (a < 0.0 ==> y.long == x.short && y.short == x.long)
              && y.threshold == Abs(a) * x.threshold
            else y == x
  {
    hide Map, EmaSep, Threshold, Highest, Lowest, LongSetup, ShortSetup;
    var m := MapBars(a, c, b);
    WindowMap(a, c, b.highs, e.priorBars);
    WindowMap(a, c, b.lows, e.priorBars);
    if Evaluate(b, e).Setup? {
      assert m.closes[|b.closes| - 1] == Map(a, c, b.closes[|b.closes| - 1]);
      var hs, ls := PriorWindow(b.highs, e.priorBars), PriorWindow(b.lows, e.priorBars);
      assert |hs| == |ls|;
      ExtremesMap(a, c, hs);
      ExtremesMap(a, c, ls);
      SepMap(a, c, b, e);
      ThresholdMap(a, c, b, e);
      SetupMap(a, c, EmaSep(b.closes, e), Threshold(b, e), b.closes[|b.closes| - 1],
               Highest(hs), Lowest(ls), EmaSep(m.closes, e), Threshold(m, e));
    }
  }

  // ------------------------------------------------------------------ exclusivity

  /** Every bar's high is at least its low; its close may lie anywhere. */
  ghost predicate OrdinaryBars(b: Bars) {
    && b.Valid()
    && forall i :: 0 <= i < |b.closes| ==> b.lows[i] <= b.highs[i]
  }

  /** No such price history triggers both setups at once. */
  ghost predicate Exclusive(e: Entry) {
    forall b: Bars :: OrdinaryBars(b) ==> Evaluate(b, e).Setup? ==> !(Evaluate(b, e).long && Evaluate(b, e).short)
  }

  /** All prices zero, except that the last bar ranges over [-1, 1]. */
  function Spike(n: nat): Bars
    requires n > 0
  {
    var zeros := seq(n, _ => 0.0);
    Bars(zeros, zeros[n - 1 := 1.0], zeros[n - 1 := -1.0])
  }

  lemma SpikeRange(n: nat, i: nat)
    requires 1 < n && i < n
    ensures var b := Spike(n); TrueRange(b.highs, b.lows, b.closes, i) == if i == n - 1 then 2.0 else 0.0
  {
  }

  lemma SpikeAtr(n: nat, e: Entry)
    requires 1 <= e.atrPeriod < n
    ensures LatestAtr(Spike(n), e) == 2.0 / e.atrPeriod as real
  {
    hide AtrAt, TrueRange;
    var b := Spike(n);
    var tr := TrueRanges(b.highs, b.lows, b.closes);
    forall i | 0 <= i < n ensures tr[i] == if i == n - 1 then 2.0 else 0.0 {
      SpikeRange(n, i);
    }
    AtrBounded(tr, e.atrPeriod, n - 2, 0.0, 0.0);
    AtrUnfolds(tr, e.atrPeriod, n - 1);
  }

  lemma SpikeSep(n: nat, e: Entry)
    requires n > 0 && e.emaFast >= 1 && e.emaSlow >= 1
    ensures EmaSep(Spike(n).closes, e) == 0.0
  {
    EmaBounded(Spike(n).closes, e.emaFast, n - 1, 0.0, 0.0);
    EmaBounded(Spike(n).closes, e.emaSlow, n - 1, 0.0, 0.0);
  }

  lemma {:induction false} ZeroExtremes(xs: seq<real>)
    requires |xs| > 0 && forall i :: 0 <= i < |xs| ==> xs[i] == 0.0
    ensures Highest(xs) == 0.0 == Lowest(xs)
  {
    if |xs| > 1 {
      ZeroExtremes(xs[..|xs| - 1]);
    }
  }

  /** Only the first bar's range matters: the later true ranges cannot be negative. */
  lemma NeverBoth(b: Bars, e: Entry)
    requires b.Valid() && (|b.closes| > 0 ==> b.lows[0] <= b.highs[0]) && Evaluate(b, e).Setup?
             && e.breakoutAtrMult >= 0.0
    ensures !(Evaluate(b, e).long && Evaluate(b, e).short)
  {
    hide EmaSep, Highest, Lowest, PriorWindow, AtrAt, TrueRanges;
    AtrNonNegative(b.highs, b.lows, b.closes, e.atrPeriod, |b.closes| - 1);
    NonNegativeThreshold(e.breakoutAtrMult, LatestAtr(b, e));
  }

  lemma SpikeTriggersBoth(e: Entry)
    requires e.emaFast >= 1 && e.emaSlow >= 1 && e.atrPeriod >= 1 && e.priorBars >= 1
    requires e.breakoutAtrMult < 0.0
    ensures var b := Spike(MinBars(e));
            OrdinaryBars(b) && Evaluate(b, e).Setup? && Evaluate(b, e).long && Evaluate(b, e).short
  {
    hide EmaSep, Threshold, Highest, Lowest, PriorWindow;
    var n := MinBars(e);
    SpikeThreshold(n, e);
    SpikeSep(n, e);
    SpikeWindow(n, e);
  }

  lemma SpikeThreshold(n: nat, e: Entry)
    requires 1 <= e.atrPeriod < n && e.breakoutAtrMult < 0.0
    ensures Threshold(Spike(n), e) < 0.0
  {
    hide LatestAtr;
    SpikeAtr(n, e);
    NegativeThreshold(e.breakoutAtrMult, e.atrPeriod as real, LatestAtr(Spike(n), e));
  }

  lemma SpikeWindow(n: nat, e: Entry)
    requires 1 <= e.priorBars < n
    ensures var b := Spike(n);
            && |PriorWindow(b.highs, e.priorBars)| > 0 && |PriorWindow(b.lows, e.priorBars)| > 0
            && Highest(PriorWindow(b.highs, e.priorBars)) == 0.0 && Lowest(PriorWindow(b.lows, e.priorBars)) == 0.0
  {
    hide Highest, Lowest;
    var b := Spike(n);
    ZeroExtremes(PriorWindow(b.highs, e.priorBars));
    ZeroExtremes(PriorWindow(b.lows, e.priorBars));
  }

  /** The two setups exclude each other exactly when the breakout multiplier is not negative. */
  lemma ExclusiveIff(e: Entry)
    requires e.emaFast >= 1 && e.emaSlow >= 1 && e.atrPeriod >= 1 && e.priorBars >= 1
    ensures Exclusive(e) <==> e.breakoutAtrMult >= 0.0
  {
    hide Evaluate;
    if e.breakoutAtrMult >= 0.0 {
      forall b: Bars | OrdinaryBars(b) && Evaluate(b, e).Setup?
        ensures !(Evaluate(b, e).long && Evaluate(b, e).short)
      {
        NeverBoth(b, e);
      }
    } else {
      SpikeTriggersBoth(e);
    }
  }

  lemma NonNegativeThreshold(mult: real, atr: real)
    requires mult >= 0.0 && atr >= 0.0
    ensures mult * atr >= 0.0
  {
  }

  lemma NegativeThreshold(mult: real, period: real, atr: real)
    requires mult < 0.0 && period > 0.0 && atr == 2.0 / period
    ensures mult * atr < 0.0
  {
    assert 2.0 / period > 0.0;
  }

  // ------------------------------------------------------------------ what the setups mean

  predicate Configured(e: Entry) {
    e.emaFast >= 1 && e.emaSlow >= 1 && e.atrPeriod >= 1 && e.priorBars >= 1
  }

  /** A sensible configuration gets an answer exactly when there are enough bars for the slow average, for the
      ATR and one more, and for the prior window and two more. */
  lemma AnsweredIff(b: Bars, e: Entry)
    requires b.Valid() && Configured(e)
    ensures Evaluate(b, e).Setup? <==>
            |b.closes| >= e.emaSlow && |b.closes| > e.atrPeriod && |b.closes| > e.priorBars + 1
    ensures !Evaluate(b, e).Setup? ==> Evaluate(b, e) == InsufficientHistory
  {
    hide EmaSep, Threshold, Highest, Lowest, LongSetup, ShortSetup;
  }

  /** The prior window holds the `priorBars` bars before the last one. */
  lemma WindowIs(xs: seq<real>, priorBars: int)
    requires 1 <= priorBars && priorBars + 1 < |xs|
    ensures PriorWindow(xs, priorBars) == xs[|xs| - 1 - priorBars..|xs| - 1]
  {
  }

  lemma {:induction false} AboveHighest(xs: seq<real>, y: real)
    requires |xs| > 0
    ensures y > Highest(xs) <==> forall j :: 0 <= j < |xs| ==> y > xs[j]
  {
    if |xs| > 1 {
      AboveHighest(xs[..|xs| - 1], y);
      assert xs == xs[..|xs| - 1] + [xs[|xs| - 1]];
    }
  }

  lemma {:induction false} BelowLowest(xs: seq<real>, y: real)
    requires |xs| > 0
    ensures y < Lowest(xs) <==> forall j :: 0 <= j < |xs| ==> y < xs[j]
  {
    if |xs| > 1 {
      BelowLowest(xs[..|xs| - 1], y);
      assert xs == xs[..|xs| - 1] + [xs[|xs| - 1]];
    }
  }

  /** The margin both tests ask for: the multiple of the latest ATR. */
  function Margin(b: Bars, e: Entry): real
    requires b.Valid() && Configured(e) && Evaluate(b, e).Setup?
  {
    e.breakoutAtrMult * AtrAt(TrueRanges(b.highs, b.lows, b.closes), e.atrPeriod, |b.closes| - 1)
  }

  /** Long exactly when the fast average is above the slow one by more than the margin and the last close is
      above every high of the prior window by more than the margin; short exactly when it is the other way
      round with the lows. */
  lemma SetupsMean(b: Bars, e: Entry)
    requires b.Valid() && Configured(e) && Evaluate(b, e).Setup?
    ensures var n, t := |b.closes| - 1, Margin(b, e);
            && e.priorBars <= n
            && (Evaluate(b, e).long <==>
                  && EmaAt(b.closes, e.emaFast, n) > EmaAt(b.closes, e.emaSlow, n) + t
                  && forall j :: n - e.priorBars <= j < n ==> b.closes[n] > b.highs[j] + t)
            && (Evaluate(b, e).short <==>
                  && EmaAt(b.closes, e.emaFast, n) < EmaAt(b.closes, e.emaSlow, n) - t
                  && forall j :: n - e.priorBars <= j < n ==> b.closes[n] < b.lows[j] - t)
  {
    hide Highest, Lowest, EmaAt, AtrAt, TrueRanges;
    AnsweredIff(b, e);
    var n, t := |b.closes| - 1, Margin(b, e);
    var hs, ls := PriorWindow(b.highs, e.priorBars), PriorWindow(b.lows, e.priorBars);
    WindowIs(b.highs, e.priorBars);
    WindowIs(b.lows, e.priorBars);
    AboveHighest(hs, b.closes[n] - t);
    BelowLowest(ls, b.closes[n] + t);
    assert forall j :: n - e.priorBars <= j < n ==> b.highs[j] == hs[j - (n - e.priorBars)];
    assert forall j :: n - e.priorBars <= j < n ==> b.lows[j] == ls[j - (n - e.priorBars)];
    assert forall j :: 0 <= j < |hs| ==> hs[j] == b.highs[j + (n - e.priorBars)];
    assert forall j :: 0 <= j < |ls| ==> ls[j] == b.lows[j + (n - e.priorBars)];
  }

  /** Rising prices never give a short setup, falling prices never a long one. */
  lemma TrendIsFollowed(b: Bars, e: Entry)
    requires b.Valid() && Configured(e) && e.emaFast <= e.emaSlow && e.breakoutAtrMult >= 0.0
    requires Evaluate(b, e).Setup? && b.lows[0] <= b.highs[0]
    ensures Rising(b.closes) ==> !Evaluate(b, e).short
    ensures Rising(MapSeq(-1.0, 0.0, b.closes)) ==> !Evaluate(b, e).long
  {
    hide Evaluate, EmaAt, AtrAt, TrueRange;
    var n := |b.closes| - 1;
    AnsweredIff(b, e);
    SetupsMean(b, e);
    AtrNonNegative(b.highs, b.lows, b.closes, e.atrPeriod, n);
    NonNegativeThreshold(e.breakoutAtrMult, AtrAt(TrueRanges(b.highs, b.lows, b.closes), e.atrPeriod, n));
    if Rising(b.closes) {
      FastLeads(b.closes, e.emaFast, e.emaSlow, n);
    }
    var down := MapSeq(-1.0, 0.0, b.closes);
    if Rising(down) {
      FastLeads(down, e.emaFast, e.emaSlow, n);
      EmaAffine(-1.0, 0.0, b.closes, e.emaFast, n);
      EmaAffine(-1.0, 0.0, b.closes, e.emaSlow, n);
    }
  }

  const FLAT_THEN_UP := Bars([0.0, 0.0, 10.0], [0.0, 0.0, 10.0], [0.0, 0.0, 10.0])

  /** A plain upward breakout is a long setup and no short one. */
  lemma BreakoutIsLong()
    ensures var e := Entry(1, 2, 1, 1, 0.1);
            Evaluate(FLAT_THEN_UP, e).Setup? && Evaluate(FLAT_THEN_UP, e).long && !Evaluate(FLAT_THEN_UP, e).short
  {
    hide Evaluate, EmaAt, AtrAt, TrueRanges;
    var b, e := FLAT_THEN_UP, Entry(1, 2, 1, 1, 0.1);
    AnsweredIff(b, e);
    SetupsMean(b, e);
    FlatThenUpMargin();
    FlatThenUpAverages();
    assert Margin(b, e) == 1.0;
  }

  lemma FlatThenUpMargin()
    ensures AtrAt(TrueRanges(FLAT_THEN_UP.highs, FLAT_THEN_UP.lows, FLAT_THEN_UP.closes), 1, 2) == 10.0
  {
    hide AtrAt, TrueRange;
    var b := FLAT_THEN_UP;
    TrueRangeIsSpan(b.highs, b.lows, b.closes, 2);
    AtrOfOne(TrueRanges(b.highs, b.lows, b.closes), 2);
  }

  lemma FlatThenUpAverages()
    ensures EmaAt(FLAT_THEN_UP.closes, 1, 2) == 10.0 && 3.0 * EmaAt(FLAT_THEN_UP.closes, 2, 2) == 20.0
  {
    EmaOfOne(FLAT_THEN_UP.closes, 2);
    assert EmaAt(FLAT_THEN_UP.closes, 2, 0) == 0.0;
    assert EmaAt(FLAT_THEN_UP.closes, 2, 1) == 0.0;
    assert Alpha(2) * 3.0 == 2.0;
  }

  lemma AtrOfOne(tr: seq<real>, i: nat)
    requires i < |tr|
    ensures AtrAt(tr, 1, i) == tr[i]
  {
    if i == 0 {
      assert Sum(tr, 0) == 0.0;
    } else {
      NoWeight(AtrAt(tr, 1, i - 1), tr[i]);
    }
  }

  lemma NoWeight(a: real, x: real)
    ensures (a * 0.0 + x) / 1.0 == x
  {
  }

  lemma EmaOfOne(values: seq<real>, i: nat)
    requires i < |values|
    ensures EmaAt(values, 1, i) == values[i]
  {
    assert Alpha(1) == 1.0;
  }
}
