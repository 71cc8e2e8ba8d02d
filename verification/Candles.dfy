/**
 The streaming tick aggregator (bot/data/candles.py) and the batch definition it refines.

 A candle is stamped `bucket * period`; the model keeps the bucket.
 */
module Candles {
  import opened Common

  datatype Tick = Tick(epoch: int, price: real, volume: real)

  datatype Candle = Candle(bucket: int, open: real, high: real, low: real, close: real, volume: real, nTicks: nat)

  function PeriodOf(timeframe: string): Option<int> {
    match timeframe
    case "1m" => Some(60)
    case "5m" => Some(300)
    case "15m" => Some(900)
    case "1h" => Some(3600)
    case "4h" => Some(14400)
    case "1d" => Some(86400)
    case _ => None
  }

  function BucketOf(t: Tick, period: int): int
    requires period > 0
  {
    t.epoch / period
  }

  /** A candle as `_open_new` builds it: flat, and counting one tick even when it is a filler. */
  function Fresh(bucket: int, price: real, volume: real): Candle {
    Candle(bucket, price, price, price, price, volume, 1)
  }

  function Merge(c: Candle, t: Tick): Candle {
    c.(high := Max(c.high, t.price), low := Min(c.low, t.price), close := t.price,
    volume := c.volume + t.volume, nTicks := c.nTicks + 1)
  }

  /** Flat candles at `price` for the buckets from, from+1, ..., to-1. */
  function Fillers(from: int, to: int, price: real): seq<Candle> {
    if to <= from then [] else seq(to - from, i => Fresh(from + i, price, 0.0))
  }

  // ------------------------------------------------------------------ the batch definition

  /** Ticks arrive with non-decreasing buckets. */
  ghost predicate Ordered(ticks: seq<Tick>, period: int)
    requires period > 0
  {
    forall i, j :: 0 <= i <= j < |ticks| ==> BucketOf(ticks[i], period) <= BucketOf(ticks[j], period)
  }

  function InBucket(ticks: seq<Tick>, b: int, period: int): seq<Tick>
    requires period > 0
  {
    if |ticks| == 0 then []
    else
      var t := ticks[|ticks| - 1];
      InBucket(ticks[..|ticks| - 1], b, period) + if BucketOf(t, period) == b then [t] else []
  }

  /** The price of the last tick that came before bucket `b`. */
  function PriceBefore(ticks: seq<Tick>, b: int, period: int): real
    requires period > 0
  {
    if |ticks| == 0 then 0.0
    else if BucketOf(ticks[|ticks| - 1], period) < b then ticks[|ticks| - 1].price
    else PriceBefore(ticks[..|ticks| - 1], b, period)
  }

  function Highest(ticks: seq<Tick>): real
    requires |ticks| > 0
  {
    if |ticks| == 1 then ticks[0].price else Max(Highest(ticks[..|ticks| - 1]), ticks[|ticks| - 1].price)
  }

  function Lowest(ticks: seq<Tick>): real
    requires |ticks| > 0
  {
    if |ticks| == 1 then ticks[0].price else Min(Lowest(ticks[..|ticks| - 1]), ticks[|ticks| - 1].price)
  }

  function Volume(ticks: seq<Tick>): real {
    if |ticks| == 0 then 0.0 else Volume(ticks[..|ticks| - 1]) + ticks[|ticks| - 1].volume
  }

  /** True OHLCV of a bucket that has ticks, a flat filler at the prior close otherwise. */
  function CandleFor(ticks: seq<Tick>, b: int, period: int): Candle
    requires period > 0
  {
    var own := InBucket(ticks, b, period);
    if |own| == 0 then Fresh(b, PriceBefore(ticks, b, period), 0.0)
    else Candle(b, own[0].price, Highest(own), Lowest(own), own[|own| - 1].price, Volume(own), |own|)
  }

  function FirstBucket(ticks: seq<Tick>, period: int): int
    requires period > 0 && |ticks| > 0
  {
    BucketOf(ticks[0], period)
  }

  function LastBucket(ticks: seq<Tick>, period: int): int
    requires period > 0 && |ticks| > 0
  {
    BucketOf(ticks[|ticks| - 1], period)
  }

  /** One candle for every bucket from the first tick's to the last tick's. */
  function Batch(ticks: seq<Tick>, period: int): seq<Candle>
    requires period > 0 && |ticks| > 0
    requires FirstBucket(ticks, period) <= LastBucket(ticks, period)
  {
    var b := FirstBucket(ticks, period);
    seq(LastBucket(ticks, period) - b + 1, i => CandleFor(ticks, b + i, period))
  }

  /** `Highest` and `Lowest` are what their names say. */
  lemma {:induction false} Extremes(ticks: seq<Tick>)
    requires |ticks| > 0
    ensures forall i :: 0 <= i < |ticks| ==> Lowest(ticks) <= ticks[i].price <= Highest(ticks)
    ensures exists i :: 0 <= i < |ticks| && ticks[i].price == Highest(ticks)
    ensures exists i :: 0 <= i < |ticks| && ticks[i].price == Lowest(ticks)
  {
    if |ticks| == 1 {
      assert ticks[0].price == Highest(ticks) == Lowest(ticks);
    } else {
      var n := |ticks| - 1;
      var front := ticks[..n];
      Extremes(front);
      var h :| 0 <= h < n && front[h].price == Highest(front);
      var l :| 0 <= l < n && front[l].price == Lowest(front);
      assert ticks[h] == front[h] && ticks[l] == front[l];
      assert ticks[if Highest(front) < ticks[n].price then n else h].price == Highest(ticks);
      assert ticks[if ticks[n].price < Lowest(front) then n else l].price == Lowest(ticks);
      forall i | 0 <= i < |ticks| ensures Lowest(ticks) <= ticks[i].price <= Highest(ticks) {
        if i < n {
          assert front[i] == ticks[i];
        }
      }
    }
  }

  // ------------------------------------------------------------------ the stream

  /** What one tick does: the candles it closes and the candle left open. */
  function Absorb(current: Option<Candle>, t: Tick, period: int): (seq<Candle>, Candle)
    requires period > 0
  {
    var b := BucketOf(t, period);
    if current.None? then ([], Fresh(b, t.price, t.volume))
    else if b == current.value.bucket then ([], Merge(current.value, t))
    else ([current.value] + Fillers(current.value.bucket + 1, b, current.value.close), Fresh(b, t.price, t.volume))
  }

  /** All candles closed so far, then the open one. */
  function Stream(ticks: seq<Tick>, period: int): seq<Candle>
    requires period > 0
    ensures |ticks| > 0 ==> |Stream(ticks, period)| > 0
  {
    if |ticks| == 0 then []
    else
      var before := Stream(ticks[..|ticks| - 1], period);
      var t := ticks[|ticks| - 1];
      if |before| == 0 then var (closes, open) := Absorb(None, t, period); closes + [open]
      else
        var (closes, open) := Absorb(Some(before[|before| - 1]), t, period);
        before[..|before| - 1] + closes + [open]
  }

  /** Ticks of other buckets do not change a candle, and nor do ticks that are not earlier. */
  lemma CandleUnchanged(ticks: seq<Tick>, t: Tick, b: int, period: int)
    requires period > 0 && BucketOf(t, period) > b
    ensures CandleFor(ticks + [t], b, period) == CandleFor(ticks, b, period)
  {
    hide BucketOf;
    assert (ticks + [t])[..|ticks|] == ticks;
    assert InBucket(ticks + [t], b, period) == InBucket(ticks, b, period);
  }

  lemma CandleGrows(ticks: seq<Tick>, t: Tick, period: int)
    requires period > 0 && |InBucket(ticks, BucketOf(t, period), period)| > 0
    ensures var b := BucketOf(t, period);
            CandleFor(ticks + [t], b, period) == Merge(CandleFor(ticks, b, period), t)
  {
    var b := BucketOf(t, period);
    assert (ticks + [t])[..|ticks|] == ticks;
    var own := InBucket(ticks, b, period);
    assert InBucket(ticks + [t], b, period) == own + [t];
    assert (own + [t])[..|own|] == own;
  }

  lemma {:induction false} NothingLater(ticks: seq<Tick>, b: int, period: int)
    requires period > 0 && forall i :: 0 <= i < |ticks| ==> BucketOf(ticks[i], period) < b
    ensures InBucket(ticks, b, period) == []
  {
    if |ticks| > 0 {
      NothingLater(ticks[..|ticks| - 1], b, period);
    }
  }

  /** A tick in a later bucket: true candle for its bucket, fillers at the last price before it. */
  lemma CandleStarts(ticks: seq<Tick>, t: Tick, b: int, period: int)
    requires period > 0 && |ticks| > 0 && Ordered(ticks, period)
    requires LastBucket(ticks, period) < b <= BucketOf(t, period)
    ensures CandleFor(ticks + [t], b, period) ==
            if b == BucketOf(t, period) then Fresh(b, t.price, t.volume)
            else Fresh(b, ticks[|ticks| - 1].price, 0.0)
  {
    hide BucketOf;
    assert (ticks + [t])[..|ticks|] == ticks;
    NothingLater(ticks, b, period);
    if b == BucketOf(t, period) {
      assert InBucket(ticks + [t], b, period) == [t];
      assert Volume([t]) == t.volume by {
        assert [t][..0] == [];
      }
    } else {
      assert InBucket(ticks + [t], b, period) == [];
      assert PriceBefore(ticks + [t], b, period) == PriceBefore(ticks, b, period);
    }
  }

  /** The open candle of the batch holds the last tick, so it is never a filler. */
  lemma LastIsTrue(ticks: seq<Tick>, period: int)
    requires period > 0 && |ticks| > 0
    ensures |InBucket(ticks, LastBucket(ticks, period), period)| > 0
    ensures CandleFor(ticks, LastBucket(ticks, period), period).close == ticks[|ticks| - 1].price
  {
  }

  /** One more tick turns the batch into what `Absorb` makes of it. */
  lemma BatchStep(ticks: seq<Tick>, t: Tick, period: int)
    requires period > 0 && |ticks| > 0 && Ordered(ticks + [t], period)
    ensures Ordered(ticks, period) && FirstBucket(ticks, period) <= LastBucket(ticks, period) <= BucketOf(t, period)
    ensures var old' := Batch(ticks, period);
            var (closes, open) := Absorb(Some(old'[|old'| - 1]), t, period);
            Batch(ticks + [t], period) == old'[..|old'| - 1] + closes + [open]
  {
    var all := ticks + [t];
    forall i, j | 0 <= i <= j < |ticks| ensures BucketOf(ticks[i], period) <= BucketOf(ticks[j], period) {
      assert all[i] == ticks[i] && all[j] == ticks[j];
    }
    assert all[|ticks| - 1] == ticks[|ticks| - 1] && all[|ticks|] == t && all[0] == ticks[0];
    var first, last, b := FirstBucket(ticks, period), LastBucket(ticks, period), BucketOf(t, period);
    var before, after := Batch(ticks, period), Batch(all, period);
    LastIsTrue(ticks, period);
    var n := |before| - 1;
    assert before[n] == CandleFor(ticks, last, period);
    var (closes, open) := Absorb(Some(before[n]), t, period);
    var built := before[..n] + closes + [open];
    assert |built| == |after|;
    forall i | 0 <= i < |after| ensures after[i] == built[i] {
      BatchStepAt(ticks, t, first + i, period);
    }
  }

  /** The same, one bucket at a time. */
  lemma BatchStepAt(ticks: seq<Tick>, t: Tick, x: int, period: int)
    requires period > 0 && |ticks| > 0 && Ordered(ticks, period)
    requires FirstBucket(ticks, period) <= x <= BucketOf(t, period) && LastBucket(ticks, period) <= BucketOf(t, period)
    ensures var last, b := LastBucket(ticks, period), BucketOf(t, period);
            CandleFor(ticks + [t], x, period) ==
            if x < last || (x == last && x < b) then CandleFor(ticks, x, period)
            else if x == last then Merge(CandleFor(ticks, x, period), t)
            else if x == b then Fresh(b, t.price, t.volume)
            else Fresh(x, ticks[|ticks| - 1].price, 0.0)
  {
    var last, b := LastBucket(ticks, period), BucketOf(t, period);
    if x < b && x <= last {
      CandleUnchanged(ticks, t, x, period);
    } else if x == last {
      LastIsTrue(ticks, period);
      CandleGrows(ticks, t, period);
    } else {
      CandleStarts(ticks, t, x, period);
    }
  }

  lemma StreamOfOne(t: Tick, period: int)
    requires period > 0
    ensures Stream([t], period) == [Fresh(BucketOf(t, period), t.price, t.volume)]
  {
    assert [t][..0] == [];
  }

  lemma BatchOfOne(t: Tick, period: int)
    requires period > 0
    ensures Batch([t], period) == [Fresh(BucketOf(t, period), t.price, t.volume)]
  {
    hide BucketOf;
    var b := BucketOf(t, period);
    assert [t][..0] == [];
    assert InBucket([t], b, period) == [t] by {
      assert InBucket([t][..0], b, period) == [];
    }
    assert Volume([t]) == t.volume;
    assert CandleFor([t], b, period) == Fresh(b, t.price, t.volume);
  }

  /** The refinement: on ordered ticks the stream is the batch. */
  lemma {:induction false} StreamIsBatch(ticks: seq<Tick>, period: int)
    requires period > 0 && |ticks| > 0 && Ordered(ticks, period)
    ensures FirstBucket(ticks, period) <= LastBucket(ticks, period)
    ensures Stream(ticks, period) == Batch(ticks, period)
  {
    var n := |ticks| - 1;
    var front, t := ticks[..n], ticks[n];
    assert ticks == front + [t];
    if n == 0 {
      assert ticks == [t];
      StreamOfOne(t, period);
      BatchOfOne(t, period);
    } else {
      BatchStep(front, t, period);
      StreamIsBatch(front, period);
    }
  }

  // ------------------------------------------------------------------ the object

  class CandleAggregator {
    const period: int
    const history: nat
    var closed: seq<Candle>
    var current: Option<Candle>
    var emitted: seq<Candle>  // what the on_close callback has received, oldest first

    ghost predicate Valid() reads this {
      period > 0 && history >= 1 && closed == Last(emitted, history)
    }

    constructor Make(period: int, history: nat)
      requires period > 0 && history >= 1
      ensures Valid() && this.period == period && this.history == history
      ensures closed == [] && current == None && emitted == []
    {
      this.period, this.history := period, history;
      closed, current, emitted := [], None, [];
    }

    /** An unknown timeframe is refused; otherwise the new aggregator has seen nothing, so that feeding it
        starts the stream. A history of zero would break gap filling. */
    static method Create(timeframe: string, history: nat) returns (r: Result<CandleAggregator, string>)
      requires history >= 1
      ensures r.Err? <==> PeriodOf(timeframe).None?
      ensures r.Ok? ==>
                && fresh(r.value) && r.value.Valid()
                && r.value.period == PeriodOf(timeframe).value && r.value.history == history
                && r.value.emitted == [] && r.value.current == None
    {
      var period := PeriodOf(timeframe);
      if period.None? {
        return Err("unknown timeframe");
      }
      var agg := new CandleAggregator.Make(period.value, history);
      return Ok(agg);
    }

    method CloseCurrent()
      requires Valid() && current.Some?
      modifies this`closed, this`current, this`emitted
      ensures Valid() && current == None
      ensures emitted == old(emitted) + [old(current).value]
      ensures |closed| > 0 && closed[|closed| - 1] == old(current).value
    {
      LastAppend(emitted, current.value, history);
      closed := Last(closed + [current.value], history);
      emitted := emitted + [current.value];
      current := None;
    }

    /** Close one flat candle per bucket between `prior` and `bucket`. */
    method FillGap(prior: Candle, bucket: int)
      requires Valid() && current == None && |closed| > 0 && closed[|closed| - 1] == prior
      modifies this`closed, this`current, this`emitted
      ensures Valid() && current == None
      ensures emitted == old(emitted) + Fillers(prior.bucket + 1, bucket, prior.close)
    {
      var missing := prior.bucket + 1;
      while missing < bucket
        invariant missing == prior.bucket + 1 || prior.bucket + 1 < missing <= bucket
        invariant Valid() && current == None && |closed| > 0 && closed[|closed| - 1].close == prior.close
        invariant emitted == old(emitted) + Fillers(prior.bucket + 1, missing, prior.close)
        decreases bucket - missing
      {
        current := Some(Fresh(missing, closed[|closed| - 1].close, 0.0));
        CloseCurrent();
        assert Fillers(prior.bucket + 1, missing + 1, prior.close)
            == Fillers(prior.bucket + 1, missing, prior.close) + [Fresh(missing, prior.close, 0.0)];
        missing := missing + 1;
      }
      assert Fillers(prior.bucket + 1, missing, prior.close) == Fillers(prior.bucket + 1, bucket, prior.close);
    }

    /** One tick closes and opens exactly the candles `Absorb` names, in order, each reported once
        to the callback; `closed` keeps the most recent `history` of them. */
    method AddTick(t: Tick)
      requires Valid()
      modifies this`closed, this`current, this`emitted
      ensures Valid() && current.Some?
      ensures emitted == old(emitted) + Absorb(old(current), t, period).0
      ensures current.value == Absorb(old(current), t, period).1
    {
      var bucket := BucketOf(t, period);
      if current.None? {
        current := Some(Fresh(bucket, t.price, t.volume));
        return;
      }
      if bucket == current.value.bucket {
        current := Some(Merge(current.value, t));
        return;
      }
      var prior := current.value;
      CloseCurrent();
      FillGap(prior, bucket);
      current := Some(Fresh(bucket, t.price, t.volume));
    }

    /** End the open candle early; the next tick then starts afresh, with no gap filling. */
    method ForceClose() returns (c: Option<Candle>)
      requires Valid()
      modifies this`closed, this`current, this`emitted
      ensures Valid() && current == None && c == old(current)
      ensures emitted == old(emitted) + if c.Some? then [c.value] else []
    {
      c := current;
      if current.Some? {
        CloseCurrent();
      }
    }
  }

  lemma LastAppend<T>(s: seq<T>, x: T, n: nat)
    requires n >= 1
    ensures Last(Last(s, n) + [x], n) == Last(s + [x], n)
  {
  }

  /** Feeding a fresh aggregator any ordered ticks leaves, in `closed` and `current`, the
      history-bounded end of the batch, having reported every other candle exactly once. */
  method Feed(timeframe: string, history: nat, ticks: seq<Tick>) returns (r: Result<CandleAggregator, string>)
    requires history >= 1 && |ticks| > 0
    requires PeriodOf(timeframe).Some? ==> Ordered(ticks, PeriodOf(timeframe).value)
    ensures r.Err? <==> PeriodOf(timeframe).None?
    ensures r.Ok? ==> FirstBucket(ticks, PeriodOf(timeframe).value) <= LastBucket(ticks, PeriodOf(timeframe).value)
    ensures r.Ok? ==>
              var batch := Batch(ticks, PeriodOf(timeframe).value);
              && r.value.emitted == batch[..|batch| - 1]
              && r.value.closed == Last(batch[..|batch| - 1], history)
              && r.value.current == Some(batch[|batch| - 1])
  {
    r := CandleAggregator.Create(timeframe, history);
    if r.Err? {
      return;
    }
    var agg := r.value;
    for i := 0 to |ticks|
      invariant agg.Valid() && agg.period == PeriodOf(timeframe).value && agg.history == history && fresh(agg)
      invariant agg.current.Some? <==> i > 0
      invariant i == 0 ==> agg.emitted == []
      invariant i > 0 ==> Stream(ticks[..i], agg.period) == agg.emitted + [agg.current.value]
    {
      assert ticks[..i + 1][..i] == ticks[..i];
      agg.AddTick(ticks[i]);
    }
    assert ticks[..|ticks|] == ticks;
    StreamIsBatch(ticks, agg.period);
  }

  /** The timeframes nest: five and fifteen minutes, four quarters to the hour, four hours, twenty-four to the
      day; there are no others. */
  lemma TimeframesNest(timeframe: string)
    ensures PeriodOf("1m") == Some(60) && PeriodOf("5m") == Some(5 * 60) && PeriodOf("15m") == Some(15 * 60)
    ensures PeriodOf("1h") == Some(4 * PeriodOf("15m").value) && PeriodOf("4h") == Some(4 * PeriodOf("1h").value)
    ensures PeriodOf("1d") == Some(24 * PeriodOf("1h").value)
    ensures PeriodOf(timeframe).Some? ==> timeframe in {"1m", "5m", "15m", "1h", "4h", "1d"}
  {
  }
}
