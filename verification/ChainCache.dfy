/**
 Expiry buckets and strike selection (bot/data/chain_cache.py). Instants are seconds since the Unix
 epoch; a date is a day number.
 */
module ChainCache {
  import opened Common
  import opened Calendar
  import Risk
  import Rounding

  // ------------------------------------------------------------------ expiry buckets

  datatype Bucket = D1 | D2 | W1 | W2 | W3

  const EXPIRY_TIME := 63000  // 17:30

  function Day(t: int): int {
    t / DAY
  }

  /** Monday is 0; day 0 of the epoch was a Thursday. */
  function Weekday(day: int): int {
    (day + 3) % 7
  }

  function DaysToFriday(day: int): int {
    var d := (4 - Weekday(day)) % 7;
    if d == 0 then 7 else d
  }

  function BucketFor(now: int, expiry: int): Option<Bucket> {
    if expiry <= now then None
    else
      var days := Day(expiry) - Day(now);
      if days == 0 then Some(D1)
      else if days == 1 then Some(D2)
      else
        var friday := Day(now) + DaysToFriday(Day(now));
        if Day(expiry) == friday then Some(W1)
        else if Day(expiry) == friday + 7 then Some(W2)
        else if Day(expiry) == friday + 14 then Some(W3)
        else None
  }

  /** The only date a bucket can stand for, seen from `today`; the nearest Friday has no weekly bucket of
      its own on a Thursday, when it is D2. */
  function BucketDate(today: int, b: Bucket): Option<int> {
    match b
    case D1 => Some(today)
    case D2 => Some(today + 1)
    case W1 => if Weekday(today) == 3 then None else Some(today + DaysToFriday(today))
    case W2 => Some(today + DaysToFriday(today) + 7)
    case W3 => Some(today + DaysToFriday(today) + 14)
  }

  /** A bucket holds exactly the future instants of its one date, so that any two expiries of a bucket
      fall on one date, a Friday for the weekly ones. */
  lemma BucketIsOneDate(now: int, expiry: int, b: Bucket)
    ensures BucketFor(now, expiry) == Some(b) <==> expiry > now && BucketDate(Day(now), b) == Some(Day(expiry))
    ensures BucketFor(now, expiry) == Some(b) && b != D1 && b != D2 ==> Weekday(Day(expiry)) == 4
  {
    var friday := Day(now) + DaysToFriday(Day(now));
    assert Weekday(friday) == 4 && 1 <= friday - Day(now) <= 7;
    assert friday == Day(now) + 1 <==> Weekday(Day(now)) == 3;
  }

  // ------------------------------------------------------------------ instruments and quotes

  datatype Instrument = Instrument(symbol: string, underlying: Risk.Underlying, call: bool, strike: real, expiry: int,
                                   lotSize: real, active: bool)
  {
    /** Expiries are parsed from dates in symbols and set to 17:30. */
    predicate ExpiresAtClose() {
      expiry % DAY == EXPIRY_TIME
    }
  }

  datatype OptionQuote = OptionQuote(quote: Rounding.Quote, delta: Option<real>, openInterest: Option<real>)

  datatype Selection = Selection(instrument: Instrument, quote: OptionQuote)

  /** A common expiry instant. */
  lemma SameBucketSameExpiry(now: int, a: Instrument, b: Instrument, bucket: Bucket)
    requires a.ExpiresAtClose() && b.ExpiresAtClose()
    requires BucketFor(now, a.expiry) == Some(bucket) && BucketFor(now, b.expiry) == Some(bucket)
    ensures a.expiry == b.expiry
  {
    BucketIsOneDate(now, a.expiry, bucket);
    BucketIsOneDate(now, b.expiry, bucket);
  }

  // ------------------------------------------------------------------ stable sorting

  /** `x` after everything that does not come after it. */
  function Insert<T>(x: T, s: seq<T>, key: T -> real): seq<T> {
    if |s| == 0 || key(s[|s| - 1]) <= key(x) then s + [x]
    else Insert(x, s[..|s| - 1], key) + [s[|s| - 1]]
  }

  function StableSort<T>(s: seq<T>, key: T -> real): seq<T> {
    if |s| == 0 then [] else Insert(s[|s| - 1], StableSort(s[..|s| - 1], key), key)
  }

  ghost predicate Sorted<T>(s: seq<T>, key: T -> real) {
    forall i, j :: 0 <= i < j < |s| ==> key(s[i]) <= key(s[j])
  }

  /** `i` is the first of the smallest elements. */
  ghost predicate FirstSmallest<T>(s: seq<T>, key: T -> real, i: nat) {
    && i < |s|
    && (forall j :: 0 <= j < |s| ==> key(s[i]) <= key(s[j]))
    && (forall j :: 0 <= j < i ==> key(s[i]) < key(s[j]))
  }

  lemma {:induction false} InsertKeeps<T>(x: T, s: seq<T>, key: T -> real)
    ensures multiset(Insert(x, s, key)) == multiset(s) + multiset{x}
    ensures |Insert(x, s, key)| == |s| + 1
  {
    if |s| > 0 && key(s[|s| - 1]) > key(x) {
      InsertKeeps(x, s[..|s| - 1], key);
      assert s == s[..|s| - 1] + [s[|s| - 1]];
    }
  }

  lemma {:induction false} InsertHead<T>(x: T, s: seq<T>, key: T -> real)
    requires Sorted(s, key)
    ensures |Insert(x, s, key)| > 0
    ensures Insert(x, s, key)[0] == if |s| == 0 || key(x) < key(s[0]) then x else s[0]
  {
    if |s| > 0 && key(s[|s| - 1]) > key(x) {
      InsertHead(x, s[..|s| - 1], key);
    }
  }

  lemma {:induction false} InsertSorts<T>(x: T, s: seq<T>, key: T -> real)
    requires Sorted(s, key)
    ensures Sorted(Insert(x, s, key), key)
  {
    if |s| > 0 && key(s[|s| - 1]) > key(x) {
      var init, last := s[..|s| - 1], s[|s| - 1];
      InsertSorts(x, init, key);
      InsertKeeps(x, init, key);
      var r := Insert(x, init, key);
      forall i | 0 <= i < |r| ensures key(r[i]) <= key(last) {
        assert r[i] in multiset(r);
        assert r[i] == x || r[i] in init;
      }
    }
  }

  /** Sorting sorts and keeps the elements. */
  lemma {:induction false} SortSorts<T>(s: seq<T>, key: T -> real)
    ensures Sorted(StableSort(s, key), key)
    ensures multiset(StableSort(s, key)) == multiset(s) && |StableSort(s, key)| == |s|
  {
    hide Insert, Sorted;
    if |s| == 0 {
      NoneIsSorted(key);
    } else {
      var init, x := s[..|s| - 1], s[|s| - 1];
      SortSorts(init, key);
      assert s == init + [x];
      InsertKeeps(x, StableSort(init, key), key);
      InsertSorts(x, StableSort(init, key), key);
    }
  }

  lemma NoneIsSorted<T>(key: T -> real)
    ensures Sorted([], key)
  {
  }

  /** The first of the smallest comes to the front. */
  lemma {:induction false} SortHead<T>(s: seq<T>, key: T -> real) returns (i: nat)
    requires |s| > 0
    ensures i < |s| && FirstSmallest(s, key, i)
    ensures |StableSort(s, key)| > 0 && StableSort(s, key)[0] == s[i]
  {
    hide Insert, FirstSmallest, Sorted;
    var init, x := s[..|s| - 1], s[|s| - 1];
    var t := StableSort(init, key);
    SortSorts(init, key);
    InsertHead(x, t, key);
    if |init| == 0 {
      i := 0;
      OneIsSmallest(s, key);
    } else {
      var k := SortHead(init, key);
      i := if key(x) < key(init[k]) then |s| - 1 else k;
      SmallestGrows(s, key, k);
    }
  }

  lemma OneIsSmallest<T>(s: seq<T>, key: T -> real)
    requires |s| == 1
    ensures FirstSmallest(s, key, 0)
  {
  }

  lemma SmallestGrows<T>(s: seq<T>, key: T -> real, k: nat)
    requires |s| > 0 && FirstSmallest(s[..|s| - 1], key, k)
    ensures FirstSmallest(s, key, if key(s[|s| - 1]) < key(s[k]) then |s| - 1 else k)
  {
    var init := s[..|s| - 1];
    assert forall j :: 0 <= j < |init| ==> s[j] == init[j];
  }

  function ByStrike(): Instrument -> real {
    (x: Instrument) => x.strike
  }

  function ByDistance(spot: real): Instrument -> real {
    (x: Instrument) => Abs(x.strike - spot)
  }

  function ByDelta(target: real): Selection -> real {
    (x: Selection) => DeltaDistance(x, target)
  }

  function DeltaDistance(x: Selection, target: real): real {
    if x.quote.delta.Some? then Abs(Abs(x.quote.delta.value) - target) else 0.0
  }

  // ------------------------------------------------------------------ the pickers

  /** What a query asks for. */
  datatype Query = Query(underlying: Risk.Underlying, call: bool, bucket: Bucket, now: int) {
    predicate Matches(x: Instrument) {
      x.active && x.underlying == underlying && x.call == call && BucketFor(now, x.expiry) == Some(bucket)
    }
  }

  /** A band of absolute deltas; a missing bound does not restrict. */
  datatype Band = Band(low: Option<real>, high: Option<real>) {
    predicate Holds(d: real) {
      (low.Some? ==> low.value <= Abs(d)) && (high.Some? ==> Abs(d) <= high.value)
    }
  }

  function Filter(instruments: seq<Instrument>, q: Query): seq<Instrument> {
    if |instruments| == 0 then []
    else
      var x := instruments[|instruments| - 1];
      Filter(instruments[..|instruments| - 1], q) + if q.Matches(x) then [x] else []
  }

  /** The matching instruments in strike order. */
  function Listing(instruments: seq<Instrument>, q: Query): seq<Instrument> {
    StableSort(Filter(instruments, q), ByStrike())
  }

  class Cache {
    /** The instruments in the order of the dictionary that holds them; a symbol occurs once. */
    var instruments: seq<Instrument>
    var quotes: map<string, OptionQuote>

    ghost predicate Valid()
      reads this
    {
      forall i, j :: 0 <= i < j < |instruments| ==> instruments[i].symbol != instruments[j].symbol
    }

    /** A quote pushed by the WebSocket client: it decides whether its own strike can be picked, and changes
        nothing for any other strike. */
    method UpsertQuote(symbol: string, q: OptionQuote)
      modifies this`quotes
      ensures forall query, band, s: Selection :: s.instrument.symbol != symbol ==>
                (Eligible(query, band, s) <==> old(Eligible(query, band, s)))
      ensures forall query, band, s: Selection :: s.instrument.symbol == symbol ==>
                (Eligible(query, band, s) <==>
                   && s.instrument in instruments && query.Matches(s.instrument)
                   && s.quote == q && q.delta.Some? && band.Holds(q.delta.value))
    {
      quotes := quotes[symbol := q];
    }

    method InstrumentsFor(q: Query) returns (r: seq<Instrument>)
      ensures r == Listing(instruments, q)
    {
      var matching: seq<Instrument> := [];
      for i := 0 to |instruments|
        invariant matching == Filter(instruments[..i], q)
      {
        assert instruments[..i + 1][..i] == instruments[..i];
        if q.Matches(instruments[i]) {
          matching := matching + [instruments[i]];
        }
      }
      assert instruments[..|instruments|] == instruments;
      r := StableSort(matching, ByStrike());
    }

    /** The strike `offset` places above the nearest to the spot in strike order; nothing exactly when
        nothing matches, that place does not exist, or it has no quote. */
    method GetAtmStrike(q: Query, spot: real, offset: int) returns (r: Option<Selection>)
      requires Valid()
      ensures var list := Listing(instruments, q);
              forall k: nat :: FirstSmallest(list, ByDistance(spot), k) ==>
                r == if 0 <= k + offset < |list| && list[k + offset].symbol in quotes
                     then Some(Selection(list[k + offset], quotes[list[k + offset].symbol]))
                     else None
      ensures Listing(instruments, q) == [] ==> r == None
    {
      hide StableSort, Filter;
      var list := InstrumentsFor(q);
      if |list| == 0 {
        return None;
      }
      ghost var k := SortHead(list, ByDistance(spot));
      var byDistance := StableSort(list, ByDistance(spot));
      var atm := byDistance[0];
      assert forall n: nat :: FirstSmallest(list, ByDistance(spot), n) ==> n == k by {
        FirstIsUnique(list, ByDistance(spot), k);
      }
      var chosen := atm;
      if offset != 0 {
        var i := IndexOf(list, atm.symbol, k);
        assert list[i] == list[k] by {
          ListingMatches(instruments, q);
          assert list[i] in list && list[k] in list;
        }
        assert i == k;
        if !(0 <= i + offset < |list|) {
          return None;
        }
        chosen := list[i + offset];
      }
      if chosen.symbol !in quotes {
        return None;
      }
      r := Some(Selection(chosen, quotes[chosen.symbol]));
    }

    /** The quoted strike in the band whose absolute delta is nearest to the target; nothing exactly
        when no matching instrument has a delta in the band. */
    method GetStrikeByDelta(q: Query, target: real, band: Band) returns (r: Option<Selection>)
      ensures r.Some? ==> Eligible(q, band, r.value)
      ensures r.Some? ==> forall s :: Eligible(q, band, s) ==>
              DeltaDistance(r.value, target) <= DeltaDistance(s, target)
      ensures r.Some? ==>
                && r.value.instrument in instruments && r.value.instrument.active
                && r.value.instrument.symbol in quotes && r.value.quote == quotes[r.value.instrument.symbol]
                && r.value.quote.delta.Some?
                && (band.low.Some? ==> band.low.value <= Abs(r.value.quote.delta.value))
                && (band.high.Some? ==> Abs(r.value.quote.delta.value) <= band.high.value)
      ensures r.None? <==> forall s :: !Eligible(q, band, s)
    {
      hide StableSort, Filter;
      var list := InstrumentsFor(q);
      ListingMatches(instruments, q);
      var candidates: seq<Selection> := [];
      for i := 0 to |list|
        invariant forall s :: s in candidates <==> Eligible(q, band, s) && s.instrument in list[..i]
      {
        assert list[i] in list;
        var x := list[i];
        if x.symbol in quotes && quotes[x.symbol].delta.Some? && band.Holds(quotes[x.symbol].delta.value) {
          candidates := candidates + [Selection(x, quotes[x.symbol])];
        }
      }
      assert list[..|list|] == list;
      if |candidates| == 0 {
        assert forall s :: s !in candidates;
        return None;
      }
      ghost var k := SortHead(candidates, ByDelta(target));
      var sorted := StableSort(candidates, ByDelta(target));
      r := Some(sorted[0]);
      assert sorted[0] in candidates;
      forall s | Eligible(q, band, s) ensures DeltaDistance(r.value, target) <= DeltaDistance(s, target) {
        assert s in candidates;
        var j :| 0 <= j < |candidates| && candidates[j] == s;
        assert ByDelta(target)(candidates[k]) <= ByDelta(target)(candidates[j]);
      }
    }

    ghost predicate Eligible(q: Query, band: Band, s: Selection)
      reads this
    {
      && s.instrument in instruments && q.Matches(s.instrument)
      && s.instrument.symbol in quotes && s.quote == quotes[s.instrument.symbol]
      && s.quote.delta.Some? && band.Holds(s.quote.delta.value)
    }
  }

  lemma SameElements<T>(s: seq<T>, r: seq<T>)
    requires multiset(s) == multiset(r)
    ensures forall x :: x in s <==> x in r
  {
    forall x ensures x in s <==> x in r {
      assert x in s <==> x in multiset(s);
      assert x in r <==> x in multiset(r);
    }
  }

  method IndexOf(list: seq<Instrument>, symbol: string, ghost k: nat) returns (i: nat)
    requires k < |list| && list[k].symbol == symbol
    ensures i <= k && list[i].symbol == symbol
  {
    i := 0;
    while list[i].symbol != symbol
      invariant i <= k
      decreases k - i
    {
      i := i + 1;
    }
  }

  lemma FirstIsUnique<T>(s: seq<T>, key: T -> real, k: nat)
    requires FirstSmallest(s, key, k)
    ensures forall n: nat :: FirstSmallest(s, key, n) ==> n == k
  {
    forall n: nat | FirstSmallest(s, key, n) ensures n == k {
      assert key(s[n]) <= key(s[k]) && key(s[k]) <= key(s[n]);
    }
  }

  /** The listing is in strike order and holds the matching instruments, no others. */
  lemma ListingMatches(instruments: seq<Instrument>, q: Query)
    ensures Sorted(Listing(instruments, q), ByStrike())
    ensures forall x :: x in Listing(instruments, q) <==> x in instruments && q.Matches(x)
    ensures forall x :: x in Listing(instruments, q) <==>
              && x in instruments && x.active && x.underlying == q.underlying && x.call == q.call
              && BucketFor(q.now, x.expiry) == Some(q.bucket)
  {
    hide StableSort, Sorted;
    FilterMatches(instruments, q);
    SortSorts(Filter(instruments, q), ByStrike());
    SameElements(Filter(instruments, q), Listing(instruments, q));
  }

  lemma {:induction false} FilterMatches(instruments: seq<Instrument>, q: Query)
    ensures forall x :: x in Filter(instruments, q) <==> x in instruments && q.Matches(x)
  {
    if |instruments| > 0 {
      FilterMatches(instruments[..|instruments| - 1], q);
      assert instruments == instruments[..|instruments| - 1] + [instruments[|instruments| - 1]];
    }
  }

  /** Hence, with no offset, the choice is a matching strike nearest to the spot, and the lowest of
      those if there are several. */
  lemma AtmIsNearest(instruments: seq<Instrument>, q: Query, spot: real, k: nat, x: Instrument)
    requires FirstSmallest(Listing(instruments, q), ByDistance(spot), k)
    requires x in instruments && q.Matches(x)
    ensures var atm := Listing(instruments, q)[k];
            && atm in instruments && q.Matches(atm)
            && Abs(atm.strike - spot) <= Abs(x.strike - spot)
            && (Abs(x.strike - spot) == Abs(atm.strike - spot) ==> atm.strike <= x.strike)
  {
    hide Listing;
    ListingMatches(instruments, q);
    assert Listing(instruments, q)[k] in Listing(instruments, q);
    NearestIsLowest(Listing(instruments, q), spot, k);
  }

  /** In strike order the first of the nearest is the lowest of the nearest. */
  lemma NearestIsLowest(list: seq<Instrument>, spot: real, k: nat)
    requires Sorted(list, ByStrike()) && FirstSmallest(list, ByDistance(spot), k)
    ensures forall x :: x in list ==>
              && Abs(list[k].strike - spot) <= Abs(x.strike - spot)
              && (Abs(x.strike - spot) == Abs(list[k].strike - spot) ==> list[k].strike <= x.strike)
  {
    forall x | x in list ensures Abs(list[k].strike - spot) <= Abs(x.strike - spot)
      && (Abs(x.strike - spot) == Abs(list[k].strike - spot) ==> list[k].strike <= x.strike)
    {
      var j :| 0 <= j < |list| && list[j] == x;
      assert ByDistance(spot)(list[k]) <= ByDistance(spot)(list[j]);
      if k < j {
        assert ByStrike()(list[k]) <= ByStrike()(list[j]);
      } else if j < k {
        assert ByDistance(spot)(list[k]) < ByDistance(spot)(list[j]);
      }
    }
  }

  /** The calendar: the epoch began on a Thursday, and 13 May 2024 was a Monday. */
  lemma KnownDates()
    ensures Weekday(0) == 3 && Weekday(19856) == 0
    ensures Day(19856 * DAY + EXPIRY_TIME) == 19856 && EXPIRY_TIME == 17 * 3600 + 30 * 60
  {
  }

  /** Which deltas a band admits, and how the picker measures: by the absolute delta, whatever its sign. */
  lemma BandAndDistance(band: Band, x: Selection, d: real, target: real)
    requires x.quote.delta == Some(d)
    ensures band.Holds(d) <==>
            !(band.low.Some? && Abs(d) < band.low.value) && !(band.high.Some? && Abs(d) > band.high.value)
    ensures band.Holds(d) <==> band.Holds(-d)
    ensures DeltaDistance(x, target) == Max(Abs(d) - target, target - Abs(d))
  {
  }
}
