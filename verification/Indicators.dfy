/** EMA and Wilder's ATR as recurrences, and the array loops that fill them (bot/data/candles.py). */
module Indicators {
  import opened Common

  function Alpha(period: int): real
    requires period >= 1
  {
    2.0 / (period as real + 1.0)
  }

  /** A step of the moving average: `alpha` of the new value, the rest of the old average. */
  function Blend(alpha: real, value: real, average: real): real {
    alpha * value + (1.0 - alpha) * average
  }

  function EmaAt(values: seq<real>, period: int, i: nat): real
    requires period >= 1 && i < |values|
  {
    if i == 0 then values[0] else Blend(Alpha(period), values[i], EmaAt(values, period, i - 1))
  }

  /** The `ema` loop; a period below one raises. */
  method Ema(values: seq<real>, period: int) returns (r: Option<array<real>>)
    ensures r.None? <==> period <= 0
    ensures r.Some? ==>
              && r.value.Length == |values|
              && forall i :: 0 <= i < |values| ==> r.value[i] == EmaAt(values, period, i)
  {
    if period <= 0 {
      return None;
    }
    var out := new real[|values|];
    if |values| == 0 {
      return Some(out);
    }
    var alpha := 2.0 / (period as real + 1.0);
    out[0] := values[0];
    for i := 1 to |values|
      invariant forall k :: 0 <= k < i ==> out[k] == EmaAt(values, period, k)
    {
      out[i] := Blend(alpha, values[i], out[i - 1]);
    }
    return Some(out);
  }

  lemma AlphaIsWeight(period: int)
    requires period >= 1
    ensures 0.0 < Alpha(period) <= 1.0
  {
    var d := period as real + 1.0;
    assert 2.0 / d * d == 2.0;
    MulMono(2.0 / d, 2.0 / d, d);
  }

  lemma AboveFloor(u: real, w: real, x: real, y: real, lo: real)
    requires 0.0 <= u && 0.0 <= w && u + w == 1.0 && lo <= x && lo <= y
    ensures lo <= u * x + w * y
  {
    var p, q := (x - lo) * u, (y - lo) * w;
    assert p >= 0.0 && q >= 0.0;
    assert u * x + w * y - lo * (u + w) == p + q;
  }

  lemma BlendBetween(alpha: real, value: real, average: real, lo: real, hi: real)
    requires 0.0 <= alpha <= 1.0 && lo <= value <= hi && lo <= average <= hi
    ensures lo <= Blend(alpha, value, average) <= hi
  {
    AboveFloor(alpha, 1.0 - alpha, value, average, lo);
    AboveFloor(alpha, 1.0 - alpha, -value, -average, -hi);
    assert alpha * -value + (1.0 - alpha) * -average == -Blend(alpha, value, average);
  }

  /** Every EMA value lies within any bounds of the inputs up to it. */
  lemma {:induction false} EmaBounded(values: seq<real>, period: int, i: nat, lo: real, hi: real)
    requires period >= 1 && i < |values|
    requires forall k :: 0 <= k <= i ==> lo <= values[k] <= hi
    ensures lo <= EmaAt(values, period, i) <= hi
  {
    if i > 0 {
      EmaBounded(values, period, i - 1, lo, hi);
      AlphaIsWeight(period);
      BlendBetween(Alpha(period), values[i], EmaAt(values, period, i - 1), lo, hi);
    }
  }

  // ------------------------------------------------------------------ true range and ATR

  function TrueRange(highs: seq<real>, lows: seq<real>, closes: seq<real>, i: nat): real
    requires i < |highs| == |lows| == |closes|
  {
    if i == 0 then highs[0] - lows[0] else Range(highs[i], lows[i], closes[i - 1])
  }

  /** A bar's range, stretched to the prior close. */
  function Range(high: real, low: real, prior: real): real {
    Max(high - low, Max(Abs(high - prior), Abs(low - prior)))
  }

  function TrueRanges(highs: seq<real>, lows: seq<real>, closes: seq<real>): seq<real>
    requires |highs| == |lows| == |closes|
  {
    seq(|closes|, i requires 0 <= i < |closes| => TrueRange(highs, lows, closes, i))
  }

  function Sum(s: seq<real>, n: nat): real
    requires n <= |s|
  {
    if n == 0 then 0.0 else Sum(s, n - 1) + s[n - 1]
  }

  function Mean(s: seq<real>, n: nat): real
    requires 1 <= n <= |s|
  {
    Sum(s, n) / n as real
  }

  function Wilder(period: int, average: real, range: real): real
    requires period >= 1
  {
    (average * (period as real - 1.0) + range) / period as real
  }

  /** Wilder's average of the ranges, defined from bar `period - 1` on. */
  function AtrAt(tr: seq<real>, period: int, i: nat): real
    requires 1 <= period <= i + 1 <= |tr|
  {
    if i == period - 1 then Mean(tr, period)
    else Wilder(period, AtrAt(tr, period, i - 1), tr[i])
  }

  method FillRanges(highs: seq<real>, lows: seq<real>, closes: seq<real>) returns (tr: array<real>)
    requires |highs| == |lows| == |closes| > 0
    ensures fresh(tr) && tr.Length == |closes| && tr[..] == TrueRanges(highs, lows, closes)
  {
    var n := |closes|;
    tr := new real[n];
    tr[0] := highs[0] - lows[0];
    for i := 1 to n
      invariant forall k :: 0 <= k < i ==> tr[k] == TrueRange(highs, lows, closes, k)
    {
      tr[i] := Range(highs[i], lows[i], closes[i - 1]);
    }
  }

  method MeanOf(tr: seq<real>, n: nat) returns (mean: real)
    requires 1 <= n <= |tr|
    ensures mean == Mean(tr, n)
  {
    var sum := 0.0;
    for i := 0 to n
      invariant sum == Sum(tr, i)
    {
      sum := sum + tr[i];
    }
    mean := sum / n as real;
  }

  lemma AtrUnfolds(tr: seq<real>, period: int, i: nat)
    requires 1 <= period <= i + 1 <= |tr|
    ensures AtrAt(tr, period, i) ==
            if i == period - 1 then Mean(tr, period) else Wilder(period, AtrAt(tr, period, i - 1), tr[i])
  {
  }

  /** Smooth the ranges: undefined (None) until `period` of them have passed. */
  method Smooth(tr: seq<real>, period: int) returns (out: array<Option<real>>)
    requires period >= 1
    ensures out.Length == |tr|
    ensures forall i :: 0 <= i < |tr| ==> out[i] == if i < period - 1 then None else Some(AtrAt(tr, period, i))
  {
    hide Wilder, Mean, AtrAt;
    var n := |tr|;
    out := new Option<real>[n](_ => None);
    if n < period {
      return;
    }
    var average := MeanOf(tr, period);
    AtrUnfolds(tr, period, period - 1);
    out[period - 1] := Some(average);
    for i := period to n
      invariant average == AtrAt(tr, period, i - 1)
      invariant forall k :: 0 <= k < period - 1 || i <= k < n ==> out[k] == None
      invariant forall k :: period - 1 <= k < i ==> out[k] == Some(AtrAt(tr, period, k))
    {
      average := Wilder(period, average, tr[i]);
      AtrUnfolds(tr, period, i);
      out[i] := Some(average);
    }
  }

  /** `atr`; a period below one raises. */
  method Atr(highs: seq<real>, lows: seq<real>, closes: seq<real>, period: int) returns (r: Option<array<Option<real>>>)
    requires |highs| == |lows| == |closes|
    ensures r.None? <==> period <= 0
    ensures r.Some? ==>
              && r.value.Length == |closes|
              && forall i :: 0 <= i < |closes| ==>
                   r.value[i] == if i < period - 1 then None
                                 else Some(AtrAt(TrueRanges(highs, lows, closes), period, i))
  {
    if period <= 0 {
      return None;
    }
    if |closes| == 0 {
      var empty := new Option<real>[0];
      return Some(empty);
    }
    var tr := FillRanges(highs, lows, closes);
    var out := Smooth(tr[..], period);
    return Some(out);
  }

  /** Only the first range can be negative, and only when the first bar has high < low. */
  lemma RangesNonNegative(highs: seq<real>, lows: seq<real>, closes: seq<real>, i: nat)
    requires i < |highs| == |lows| == |closes| && highs[0] >= lows[0]
    ensures TrueRange(highs, lows, closes, i) >= 0.0
  {
  }

  lemma {:induction false} SumBounded(s: seq<real>, n: nat, lo: real, hi: real)
    requires n <= |s| && forall k :: 0 <= k < n ==> lo <= s[k] <= hi
    ensures lo * n as real <= Sum(s, n) <= hi * n as real
  {
    if n > 0 {
      SumBounded(s, n - 1, lo, hi);
      assert lo * n as real == lo * (n - 1) as real + lo;
      assert hi * n as real == hi * (n - 1) as real + hi;
    }
  }

  lemma WilderBetween(period: int, average: real, range: real, lo: real, hi: real)
    requires period >= 1 && lo <= average <= hi && lo <= range <= hi
    ensures lo <= Wilder(period, average, range) <= hi
  {
    var p := period as real;
    MulMono(lo, average, p - 1.0);
    MulMono(average, hi, p - 1.0);
    assert lo * (p - 1.0) + lo == lo * p && hi * (p - 1.0) + hi == hi * p;
    QuotientBetween(average * (p - 1.0) + range, p, lo, hi);
  }

  /** Every defined ATR value lies within any bounds of the ranges up to it. */
  lemma {:induction false} AtrBounded(tr: seq<real>, period: int, i: nat, lo: real, hi: real)
    requires 1 <= period <= i + 1 <= |tr|
    requires forall k :: 0 <= k <= i ==> lo <= tr[k] <= hi
    ensures lo <= AtrAt(tr, period, i) <= hi
  {
    if i == period - 1 {
      SumBounded(tr, period, lo, hi);
      QuotientBetween(Sum(tr, period), period as real, lo, hi);
    } else {
      AtrBounded(tr, period, i - 1, lo, hi);
      WilderBetween(period, AtrAt(tr, period, i - 1), tr[i], lo, hi);
    }
  }

  function Largest(s: seq<real>, n: nat): real
    requires 1 <= n <= |s|
    ensures forall k :: 0 <= k < n ==> s[k] <= Largest(s, n)
  {
    if n == 1 then s[0] else Max(Largest(s, n - 1), s[n - 1])
  }

  /** If the first bar's high is not below its low, the ATR is never negative and never above the largest
      range so far. */
  lemma AtrNonNegative(highs: seq<real>, lows: seq<real>, closes: seq<real>, period: int, i: nat)
    requires |highs| == |lows| == |closes| && 1 <= period <= i + 1 <= |closes| && highs[0] >= lows[0]
    ensures 0.0 <= AtrAt(TrueRanges(highs, lows, closes), period, i) <= Largest(TrueRanges(highs, lows, closes), i + 1)
  {
    var tr := TrueRanges(highs, lows, closes);
    forall k | 0 <= k <= i ensures 0.0 <= tr[k] {
      RangesNonNegative(highs, lows, closes, k);
    }
    AtrBounded(tr, period, i, 0.0, Largest(tr, i + 1));
  }

  // ------------------------------------------------------------------ affine maps

  function Map(a: real, b: real, x: real): real {
    a * x + b
  }

  function MapSeq(a: real, b: real, s: seq<real>): seq<real> {
    seq(|s|, i requires 0 <= i < |s| => Map(a, b, s[i]))
  }

  lemma BlendAffine(a: real, b: real, alpha: real, value: real, average: real)
    ensures Blend(alpha, Map(a, b, value), Map(a, b, average)) == Map(a, b, Blend(alpha, value, average))
  {
    var w := 1.0 - alpha;
    assert alpha * (a * value + b) == a * (alpha * value) + alpha * b;
    assert w * (a * average + b) == a * (w * average) + w * b;
    assert alpha * b + w * b == b;
    assert a * (alpha * value + w * average) == a * (alpha * value) + a * (w * average);
  }

  /** The EMA commutes with every affine map of the prices. */
  lemma {:induction false} EmaAffine(a: real, b: real, values: seq<real>, period: int, i: nat)
    requires period >= 1 && i < |values|
    ensures EmaAt(MapSeq(a, b, values), period, i) == Map(a, b, EmaAt(values, period, i))
  {
    hide Map, Blend, Alpha;
    if i > 0 {
      EmaAffine(a, b, values, period, i - 1);
      BlendAffine(a, b, Alpha(period), values[i], EmaAt(values, period, i - 1));
    }
  }

  lemma WilderScales(k: real, period: int, average: real, range: real, average': real, range': real)
    requires period >= 1 && average' == k * average && range' == k * range
    ensures Wilder(period, average', range') == k * Wilder(period, average, range)
  {
    var p := period as real;
    assert average' * (p - 1.0) + range' == k * (average * (p - 1.0) + range);
    ScaleQuotient(k, average * (p - 1.0) + range, p);
  }

  lemma ScaleQuotient(k: real, x: real, n: real)
    requires n != 0.0
    ensures (k * x) / n == k * (x / n)
  {
  }

  lemma ScaledQuotient(k: real, x: real, x': real, n: real)
    requires n != 0.0 && x' == k * x
    ensures x' / n == k * (x / n)
  {
    ScaleQuotient(k, x, n);
  }

  lemma {:induction false} SumScales(k: real, s: seq<real>, t: seq<real>, n: nat)
    requires n <= |s| == |t| && forall i :: 0 <= i < n ==> t[i] == k * s[i]
    ensures Sum(t, n) == k * Sum(s, n)
  {
    if n > 0 {
      SumScales(k, s, t, n - 1);
      assert k * (Sum(s, n - 1) + s[n - 1]) == k * Sum(s, n - 1) + k * s[n - 1];
    }
  }

  /** The ATR is proportional to the ranges. */
  lemma {:induction false} AtrScales(k: real, s: seq<real>, t: seq<real>, period: int, i: nat)
    requires 1 <= period <= i + 1 <= |s| == |t| && forall j :: 0 <= j <= i ==> t[j] == k * s[j]
    ensures AtrAt(t, period, i) == k * AtrAt(s, period, i)
  {
    hide Wilder;
    if i == period - 1 {
      SumScales(k, s, t, period);
      ScaledQuotient(k, Sum(s, period), Sum(t, period), period as real);
    } else {
      AtrScales(k, s, t, period, i - 1);
      WilderScales(k, period, AtrAt(s, period, i - 1), s[i], AtrAt(t, period, i - 1), t[i]);
    }
  }

  // ------------------------------------------------------------------ independent forms

  function Power(x: real, n: nat): real {
    if n == 0 then 1.0 else Power(x, n - 1) * x
  }

  /** What value `j` contributes to the average at `i`: a share `a` of it, faded once for every later value;
      the first value has all the weight that is left. */
  function Term(values: seq<real>, a: real, i: nat, j: nat): real
    requires j <= i < |values|
  {
    if j == 0 then Power(1.0 - a, i) * values[0] else a * Power(1.0 - a, i - j) * values[j]
  }

  function WeightedSum(values: seq<real>, a: real, i: nat, j: nat): real
    requires j <= i < |values|
  {
    if j == 0 then Term(values, a, i, 0) else WeightedSum(values, a, i, j - 1) + Term(values, a, i, j)
  }

  lemma TermFades(values: seq<real>, a: real, b: real, i: nat, j: nat)
    requires j <= i && i + 1 < |values| && b == 1.0 - a
    ensures Term(values, a, i + 1, j) == Term(values, a, i, j) * b
  {
    if j == 0 {
      FadeFirst(Power(b, i), values[0], b);
    } else {
      Fade(a, Power(b, i - j), values[j], b);
    }
  }

  lemma Fade(a: real, p: real, v: real, b: real)
    ensures a * (p * b) * v == (a * p * v) * b
  {
  }

  lemma FadeFirst(p: real, v: real, b: real)
    ensures (p * b) * v == (p * v) * b
  {
  }

  lemma Distribute(x: real, y: real, b: real)
    ensures (x + y) * b == x * b + y * b
  {
  }

  /** One more value fades the earlier ones. */
  lemma {:induction false} WeightsShift(values: seq<real>, a: real, b: real, i: nat, j: nat)
    requires j <= i && i + 1 < |values| && b == 1.0 - a
    ensures WeightedSum(values, a, i + 1, j) == WeightedSum(values, a, i, j) * b
  {
    hide Term;
    TermFades(values, a, b, i, j);
    if j > 0 {
      WeightsShift(values, a, b, i, j - 1);
      Distribute(WeightedSum(values, a, i, j - 1), Term(values, a, i, j), b);
    }
  }

  lemma LastTerm(values: seq<real>, a: real, i: nat)
    requires i < |values|
    ensures Term(values, a, i, i) == if i == 0 then values[0] else a * values[i]
  {
    assert Power(1.0 - a, 0) == 1.0;
  }

  /** The EMA is the exponentially weighted mean with weight 2 / (period + 1). */
  lemma {:induction false} EmaIsWeightedSum(values: seq<real>, period: int, a: real, i: nat)
    requires period >= 1 && i < |values| && a * (period as real + 1.0) == 2.0
    ensures EmaAt(values, period, i) == WeightedSum(values, a, i, i)
  {
    AlphaIs(period, a);
    hide Alpha, Term, Blend;
    LastTerm(values, a, i);
    if i > 0 {
      EmaIsWeightedSum(values, period, a, i - 1);
      var b := 1.0 - a;
      WeightsShift(values, a, b, i - 1, i - 1);
      BlendIs(a, b, values[i], EmaAt(values, period, i - 1), WeightedSum(values, a, i, i - 1), Term(values, a, i, i));
    }
  }

  lemma BlendIs(a: real, b: real, v: real, e: real, w: real, t: real)
    requires b == 1.0 - a && w == e * b && t == a * v
    ensures Blend(a, v, e) == w + t
  {
  }

  lemma AlphaIs(period: int, a: real)
    requires period >= 1 && a * (period as real + 1.0) == 2.0
    ensures Alpha(period) == a
  {
    var d := period as real + 1.0;
    assert a == 2.0 / d;
  }

  /** A true range is the span of the bar together with the prior close. */
  lemma TrueRangeIsSpan(highs: seq<real>, lows: seq<real>, closes: seq<real>, i: nat)
    requires |highs| == |lows| == |closes| && i < |closes| && highs[i] >= lows[i]
    ensures TrueRange(highs, lows, closes, i)
            == if i == 0 then highs[0] - lows[0] else Max(highs[i], closes[i - 1]) - Min(lows[i], closes[i - 1])
  {
  }

  /** The averages before each of the ranges period..i, added up. */
  function PriorAverages(tr: seq<real>, period: int, i: nat): real
    requires 1 <= period <= i + 1 <= |tr|
    decreases i
  {
    if i == period - 1 then 0.0 else PriorAverages(tr, period, i - 1) + AtrAt(tr, period, i - 1)
  }

  /** Wilder's average conserves: `period` averages are all the ranges so far less the averages they replaced. */
  lemma {:induction false} AtrConserves(tr: seq<real>, period: int, i: nat)
    requires 1 <= period <= i + 1 <= |tr|
    ensures period as real * AtrAt(tr, period, i) == Sum(tr, i + 1) - PriorAverages(tr, period, i)
  {
    hide Wilder, Mean;
    if i == period - 1 {
      MeanIs(tr, period);
    } else {
      AtrConserves(tr, period, i - 1);
      WilderIs(period, AtrAt(tr, period, i - 1), tr[i]);
    }
  }

  lemma MeanIs(tr: seq<real>, period: int)
    requires 1 <= period <= |tr|
    ensures period as real * Mean(tr, period) == Sum(tr, period)
  {
    hide Sum;
    Undivide(Sum(tr, period), period as real);
  }

  lemma WilderIs(period: int, average: real, range: real)
    requires period >= 1
    ensures period as real * Wilder(period, average, range) == period as real * average - average + range
  {
    Undivide(average * (period as real - 1.0) + range, period as real);
    LessOne(average, period as real);
  }

  lemma LessOne(a: real, p: real)
    ensures a * (p - 1.0) == p * a - a
  {
  }

  // ------------------------------------------------------------------ trends

  lemma ShorterWeighsMore(fast: int, slow: int)
    requires 1 <= fast <= slow
    ensures Alpha(slow) <= Alpha(fast)
  {
    var f, s := fast as real + 1.0, slow as real + 1.0;
    Undivide(2.0, f);
    Undivide(2.0, s);
    Inverse(f, s, 2.0 / f, 2.0 / s);
  }

  lemma Inverse(f: real, s: real, a: real, b: real)
    requires 0.0 < f <= s && 0.0 < a && a * f == 2.0 && b * s == 2.0
    ensures b <= a
  {
    MulMono(f, s, a);
    LeScale(b, a, s);
  }

  lemma BlendOrder(af: real, asl: real, c: real, f: real, s: real)
    requires 0.0 <= asl <= af && asl <= 1.0 && s <= f <= c
    ensures Blend(asl, c, s) <= Blend(af, c, f)
  {
    MulMono(asl, af, c - f);
    MulMono(s, f, 1.0 - asl);
    assert Blend(af, c, f) - f == af * (c - f);
    assert Blend(asl, c, f) - f == asl * (c - f);
    assert Blend(asl, c, s) == asl * c + (1.0 - asl) * s;
    assert Blend(asl, c, f) == asl * c + (1.0 - asl) * f;
  }

  /** No value up to `i` is below its predecessor. */
  ghost predicate Rising(values: seq<real>) {
    forall j, k :: 0 <= j <= k < |values| ==> values[j] <= values[k]
  }

  /** On rising prices the faster average is never below the slower one, and neither is above the last price. */
  lemma {:induction false} FastLeads(values: seq<real>, fast: int, slow: int, i: nat)
    requires 1 <= fast <= slow && i < |values| && Rising(values)
    ensures EmaAt(values, slow, i) <= EmaAt(values, fast, i) <= values[i]
  {
    EmaBounded(values, fast, i, values[0], values[i]);
    if i > 0 {
      FastLeads(values, fast, slow, i - 1);
      AlphaIsWeight(slow);
      ShorterWeighsMore(fast, slow);
      BlendOrder(Alpha(fast), Alpha(slow), values[i], EmaAt(values, fast, i - 1), EmaAt(values, slow, i - 1));
    }
  }
}
