/** Greeks of the open book (bot/desk/portfolio_greeks.py). */
module PortfolioGreeks {
  import opened Common

  datatype Greeks = Greeks(delta: real, gamma: real, theta: real, vega: real)

  const NONE := Greeks(0.0, 0.0, 0.0, 0.0)

  function Add(a: Greeks, b: Greeks): Greeks {
    Greeks(a.delta + b.delta, a.gamma + b.gamma, a.theta + b.theta, a.vega + b.vega)
  }

  datatype Quote = Quote(delta: Option<real>, gamma: Option<real>, theta: Option<real>, vega: Option<real>)

  /** A leg; `side` is None when its word is neither "buy" nor "sell". */
  datatype Leg = Leg(symbol: string, side: Option<Side>, lots: int)

  /** An open trade with its legs. */
  datatype Row = Row(underlying: string, lots: int, legs: seq<Leg>)

  /** The leg's signed size in units of the underlying. */
  function Scale(row: Row, leg: Leg, lotSizes: map<string, real>): real
    requires leg.side.Some?
  {
    Sign(leg.side.value) * (if leg.lots != 0 then leg.lots else row.lots) as real
    * (if leg.symbol in lotSizes then lotSizes[leg.symbol] else 1.0)
  }

  /** What a leg adds; None when it has no quote, no greek at all, or no side. */
  function Contribution(row: Row, leg: Leg, quotes: map<string, Quote>, lotSizes: map<string, real>): Option<Greeks> {
    if leg.symbol !in quotes || leg.side.None? then None
    else
      var q := quotes[leg.symbol];
      if q == Quote(None, None, None, None) then None
      else
        var k := Scale(row, leg, lotSizes);
        Some(Greeks(k * OrZero(q.delta), k * OrZero(q.gamma), k * OrZero(q.theta), k * OrZero(q.vega)))
  }

  function OrNone(g: Option<Greeks>): Greeks {
    if g.Some? then g.value else NONE
  }

  /** All of a trade's greeks, from its first `n` legs. */
  function SumLegs(row: Row, n: nat, quotes: map<string, Quote>, lotSizes: map<string, real>): Greeks
    requires n <= |row.legs|
  {
    if n == 0 then NONE
    else Add(SumLegs(row, n - 1, quotes, lotSizes), OrNone(Contribution(row, row.legs[n - 1], quotes, lotSizes)))
  }

  /** The greeks of the last of the first `n` legs that has any. */
  function LastOfLegs(row: Row, n: nat, quotes: map<string, Quote>, lotSizes: map<string, real>): Greeks
    requires n <= |row.legs|
  {
    if n == 0 then NONE
    else
      var c := Contribution(row, row.legs[n - 1], quotes, lotSizes);
      if c.Some? then c.value else LastOfLegs(row, n - 1, quotes, lotSizes)
  }

  function CountKnown(row: Row, n: nat, quotes: map<string, Quote>, lotSizes: map<string, real>): nat
    requires n <= |row.legs|
  {
    if n == 0 then 0
    else
      var known := Contribution(row, row.legs[n - 1], quotes, lotSizes).Some?;
      CountKnown(row, n - 1, quotes, lotSizes) + if known then 1 else 0
  }

  function SumRows(rows: seq<Row>, quotes: map<string, Quote>, lotSizes: map<string, real>): Greeks {
    if |rows| == 0 then NONE
    else
      var row := rows[|rows| - 1];
      Add(SumRows(rows[..|rows| - 1], quotes, lotSizes), SumLegs(row, |row.legs|, quotes, lotSizes))
  }

  /** The true greeks of an underlying. */
  function TrueFor(rows: seq<Row>, u: string, quotes: map<string, Quote>, lotSizes: map<string, real>): Greeks {
    if |rows| == 0 then NONE
    else
      var row, before := rows[|rows| - 1], TrueFor(rows[..|rows| - 1], u, quotes, lotSizes);
      if row.underlying == u then Add(before, SumLegs(row, |row.legs|, quotes, lotSizes)) else before
  }

  /** Only the last usable leg of every trade. */
  function LastFor(rows: seq<Row>, u: string, quotes: map<string, Quote>, lotSizes: map<string, real>): Greeks {
    if |rows| == 0 then NONE
    else
      var row, before := rows[|rows| - 1], LastFor(rows[..|rows| - 1], u, quotes, lotSizes);
      if row.underlying == u then Add(before, LastOfLegs(row, |row.legs|, quotes, lotSizes)) else before
  }

  function CountAll(rows: seq<Row>, quotes: map<string, Quote>, lotSizes: map<string, real>): (int, int) {
    if |rows| == 0 then (0, 0)
    else
      var row, before := rows[|rows| - 1], CountAll(rows[..|rows| - 1], quotes, lotSizes);
      var known := CountKnown(row, |row.legs|, quotes, lotSizes);
      (before.0 + known, before.1 + |row.legs| - known)
  }

  function Lookup(book: map<string, Greeks>, u: string): Greeks {
    if u in book then book[u] else NONE
  }

  /** The total is the sum over all legs. The entry of an underlying is not: every leg is added to the
      value from before its trade, so that only the last usable leg of each trade remains. */
  method FromOpenTrades(rows: seq<Row>, quotes: map<string, Quote>, lotSizes: map<string, real>)
    returns (totals: Greeks, byUnderlying: map<string, Greeks>, known: int, missing: int)
    ensures totals == SumRows(rows, quotes, lotSizes)
    ensures forall u :: Lookup(byUnderlying, u) == LastFor(rows, u, quotes, lotSizes)
    ensures (known, missing) == CountAll(rows, quotes, lotSizes)
  {
    totals, byUnderlying, known, missing := NONE, map[], 0, 0;
    for i := 0 to |rows|
      invariant totals == SumRows(rows[..i], quotes, lotSizes)
      invariant forall u :: Lookup(byUnderlying, u) == LastFor(rows[..i], u, quotes, lotSizes)
      invariant (known, missing) == CountAll(rows[..i], quotes, lotSizes)
    {
      hide Add, SumLegs, LastOfLegs, CountKnown;
      assert rows[..i + 1][..i] == rows[..i];
      ghost var book := byUnderlying;
      var row := rows[i];
      var bucket := Lookup(byUnderlying, row.underlying);
      var entry, n;
      totals, entry, n := AddTrade(row, totals, bucket, quotes, lotSizes);
      byUnderlying := byUnderlying[row.underlying := entry];
      known, missing := known + n, missing + |row.legs| - n;
      forall u ensures Lookup(byUnderlying, u) == if u == row.underlying then entry else Lookup(book, u) {
      }
    }
    assert rows[..|rows|] == rows;
  }

  /** One trade's legs: the running total, and the entry of its underlying, which starts at `bucket`. */
  method AddTrade(row: Row, total: Greeks, bucket: Greeks, quotes: map<string, Quote>, lotSizes: map<string, real>)
    returns (totals: Greeks, entry: Greeks, known: int)
    ensures totals == Add(total, SumLegs(row, |row.legs|, quotes, lotSizes))
    ensures entry == Add(bucket, LastOfLegs(row, |row.legs|, quotes, lotSizes))
    ensures known == CountKnown(row, |row.legs|, quotes, lotSizes)
  {
    hide Contribution;
    totals, entry, known := total, bucket, 0;
    for j := 0 to |row.legs|
      invariant totals == Add(total, SumLegs(row, j, quotes, lotSizes))
      invariant entry == Add(bucket, LastOfLegs(row, j, quotes, lotSizes))
      invariant known == CountKnown(row, j, quotes, lotSizes)
    {
      var c := Contribution(row, row.legs[j], quotes, lotSizes);
      if c.Some? {
        known := known + 1;
        totals := Add(totals, c.value);
        entry := Add(bucket, c.value);
      }
    }
  }

  // ------------------------------------------------------------------ when an underlying's entry is right

  /** Legs of a trade as the engine stores them: distinct symbols, positive sizes. */
  ghost predicate WellFormed(row: Row, lotSizes: map<string, real>) {
    && row.lots > 0
    && (forall i :: 0 <= i < |row.legs| ==> row.legs[i].lots >= 0)
    && (forall i, j :: 0 <= i < j < |row.legs| ==> row.legs[i].symbol != row.legs[j].symbol)
    && (forall s :: s in lotSizes ==> lotSizes[s] > 0.0)
  }

  ghost predicate OneSided(row: Row) {
    forall i, j :: 0 <= i < j < |row.legs| ==> row.legs[i].side.None? || row.legs[j].side.None?
  }

  lemma {:induction false} LastIsSum(row: Row, n: nat, quotes: map<string, Quote>, lotSizes: map<string, real>)
    requires n <= |row.legs| && OneSided(row)
    ensures LastOfLegs(row, n, quotes, lotSizes) == SumLegs(row, n, quotes, lotSizes)
    ensures (forall i :: 0 <= i < n ==> row.legs[i].side.None?) ==> SumLegs(row, n, quotes, lotSizes) == NONE
  {
    hide Add, Contribution;
    if n > 0 {
      LastIsSum(row, n - 1, quotes, lotSizes);
      var c := Contribution(row, row.legs[n - 1], quotes, lotSizes);
      NoSideNoGreeks(row, row.legs[n - 1], quotes, lotSizes);
      AddNone(OrNone(c));
      AddNone(SumLegs(row, n - 1, quotes, lotSizes));
    }
  }

  lemma NoSideNoGreeks(row: Row, leg: Leg, quotes: map<string, Quote>, lotSizes: map<string, real>)
    ensures leg.side.None? ==> Contribution(row, leg, quotes, lotSizes).None?
  {
  }

  lemma AddNone(g: Greeks)
    ensures Add(g, NONE) == g == Add(NONE, g)
  {
  }

  /** Two quotes that tell the legs `a` and `b` apart: only `a` has a delta. */
  function Probe(row: Row, a: nat, b: nat): map<string, Quote>
    requires a < |row.legs| && b < |row.legs|
  {
    map[row.legs[a].symbol := Quote(Some(1.0), None, None, None)]
    [row.legs[b].symbol := Quote(Some(0.0), None, None, None)]
  }

  lemma {:induction false} ProbeSums(row: Row, a: nat, b: nat, n: nat, lotSizes: map<string, real>)
    requires WellFormed(row, lotSizes) && a < b < |row.legs| && n <= |row.legs|
    requires row.legs[a].side.Some? && row.legs[b].side.Some?
    ensures SumLegs(row, n, Probe(row, a, b), lotSizes).delta
            == if n > a then Scale(row, row.legs[a], lotSizes) else 0.0
    ensures n > b ==> LastOfLegs(row, n, Probe(row, a, b), lotSizes).delta == 0.0
  {
    hide Scale, Contribution, Probe;
    if n > 0 {
      ProbeSums(row, a, b, n - 1, lotSizes);
      ProbeOne(row, a, b, n - 1, lotSizes);
    }
  }

  /** Under the probe the leg `a` contributes its size, `b` nothing, and the others are missing. */
  lemma ProbeOne(row: Row, a: nat, b: nat, i: nat, lotSizes: map<string, real>)
    requires WellFormed(row, lotSizes) && a < b < |row.legs| && i < |row.legs|
    requires row.legs[a].side.Some? && row.legs[b].side.Some?
    ensures var c := Contribution(row, row.legs[i], Probe(row, a, b), lotSizes);
            && (c.Some? <==> i == a || i == b)
            && (c.Some? ==> c.value.delta == if i == a then Scale(row, row.legs[a], lotSizes) else 0.0)
  {
    hide Scale;
    assert row.legs[a].symbol != row.legs[b].symbol;
    if i != a && i != b {
      assert row.legs[i].symbol != row.legs[a].symbol && row.legs[i].symbol != row.legs[b].symbol;
    } else {
      var k := Scale(row, row.legs[i], lotSizes);
      assert k * 1.0 == k && k * 0.0 == 0.0;
    }
  }

  lemma ScaleNonZero(row: Row, leg: Leg, lotSizes: map<string, real>)
    requires row.lots > 0 && leg.lots >= 0 && leg.side.Some? && forall s :: s in lotSizes ==> lotSizes[s] > 0.0
    ensures Scale(row, leg, lotSizes) != 0.0
  {
    var n := (if leg.lots != 0 then leg.lots else row.lots) as real;
    var k := if leg.symbol in lotSizes then lotSizes[leg.symbol] else 1.0;
    assert n * k > 0.0;
    assert Scale(row, leg, lotSizes) == Sign(leg.side.value) * (n * k);
  }

  /** A trade is counted in full under every market exactly when at most one of its legs has a side: one
      leg's greeks survive, so straddles and spreads are always undercounted by some market. */
  lemma TradeCountedIff(row: Row, lotSizes: map<string, real>)
    requires WellFormed(row, lotSizes)
    ensures OneSided(row) <==>
            forall quotes :: LastOfLegs(row, |row.legs|, quotes, lotSizes) == SumLegs(row, |row.legs|, quotes, lotSizes)
  {
    hide Scale, Contribution, Probe;
    var n := |row.legs|;
    if OneSided(row) {
      forall quotes ensures LastOfLegs(row, n, quotes, lotSizes) == SumLegs(row, n, quotes, lotSizes) {
        LastIsSum(row, n, quotes, lotSizes);
      }
    } else {
      var a, b :| 0 <= a < b < n && row.legs[a].side.Some? && row.legs[b].side.Some?;
      ProbeSums(row, a, b, n, lotSizes);
      ScaleNonZero(row, row.legs[a], lotSizes);
      assert LastOfLegs(row, n, Probe(row, a, b), lotSizes) != SumLegs(row, n, Probe(row, a, b), lotSizes);
    }
  }

  /** A book of such trades has right entries for every underlying. */
  lemma {:induction false} BookCounted(rows: seq<Row>, u: string, quotes: map<string, Quote>,
                                       lotSizes: map<string, real>)
    requires forall i :: 0 <= i < |rows| && rows[i].underlying == u ==> OneSided(rows[i])
    ensures LastFor(rows, u, quotes, lotSizes) == TrueFor(rows, u, quotes, lotSizes)
  {
    hide OneSided, LastOfLegs, SumLegs;
    if |rows| > 0 {
      BookCounted(rows[..|rows| - 1], u, quotes, lotSizes);
      var row := rows[|rows| - 1];
      if row.underlying == u {
        LastIsSum(row, |row.legs|, quotes, lotSizes);
      }
    }
  }

  // ------------------------------------------------------------------ totals and counts

  /** A leg counts exactly if it is quoted with at least one greek and has a side. */
  lemma CountsIff(row: Row, leg: Leg, quotes: map<string, Quote>, lotSizes: map<string, real>)
    ensures Contribution(row, leg, quotes, lotSizes).Some? <==>
            && leg.side.Some? && leg.symbol in quotes
            && var q := quotes[leg.symbol]; q.delta.Some? || q.gamma.Some? || q.theta.Some? || q.vega.Some?
  {
    hide Scale;
  }

  /** The legs among the first `n` that count. */
  function KnownLegs(row: Row, n: nat, quotes: map<string, Quote>, lotSizes: map<string, real>): set<int>
    requires n <= |row.legs|
  {
    set j | 0 <= j < n && Counts(row, j, quotes, lotSizes)
  }

  predicate Counts(row: Row, j: int, quotes: map<string, Quote>, lotSizes: map<string, real>) {
    0 <= j < |row.legs| && Contribution(row, row.legs[j], quotes, lotSizes).Some?
  }

  lemma {:induction false} KnownCounted(row: Row, n: nat, quotes: map<string, Quote>, lotSizes: map<string, real>)
    requires n <= |row.legs|
    ensures CountKnown(row, n, quotes, lotSizes) == |KnownLegs(row, n, quotes, lotSizes)|
  {
    hide Contribution;
    if n > 0 {
      KnownCounted(row, n - 1, quotes, lotSizes);
      OneMoreLeg(row, n - 1, quotes, lotSizes);
    }
  }

  lemma OneMoreLeg(row: Row, n: nat, quotes: map<string, Quote>, lotSizes: map<string, real>)
    requires n < |row.legs|
    ensures |KnownLegs(row, n + 1, quotes, lotSizes)|
            == |KnownLegs(row, n, quotes, lotSizes)| + if Counts(row, n, quotes, lotSizes) then 1 else 0
  {
    hide Counts;
    var before := KnownLegs(row, n, quotes, lotSizes);
    assert KnownLegs(row, n + 1, quotes, lotSizes)
        == if Counts(row, n, quotes, lotSizes) then before + {n} else before;
  }

  function CountLegs(rows: seq<Row>): nat {
    if |rows| == 0 then 0 else CountLegs(rows[..|rows| - 1]) + |rows[|rows| - 1].legs|
  }

  /** Every leg of the book is counted once, as known or as missing. */
  lemma {:induction false} LegsCounted(rows: seq<Row>, quotes: map<string, Quote>, lotSizes: map<string, real>)
    ensures CountAll(rows, quotes, lotSizes).0 + CountAll(rows, quotes, lotSizes).1 == CountLegs(rows)
    ensures |rows| == 1 ==>
              CountAll(rows, quotes, lotSizes).0 == CountKnown(rows[0], |rows[0].legs|, quotes, lotSizes)
  {
    hide CountKnown;
    if |rows| > 0 {
      LegsCounted(rows[..|rows| - 1], quotes, lotSizes);
    }
  }

  /** The true greeks of the underlyings in `us`, added up. */
  function SumFor(us: seq<string>, rows: seq<Row>, quotes: map<string, Quote>, lotSizes: map<string, real>): Greeks {
    if |us| == 0 then NONE
    else Add(SumFor(us[..|us| - 1], rows, quotes, lotSizes), TrueFor(rows, us[|us| - 1], quotes, lotSizes))
  }

  lemma AddRegroups(a: Greeks, b: Greeks, c: Greeks)
    ensures Add(Add(a, b), c) == Add(a, Add(b, c)) == Add(Add(a, c), b)
  {
  }

  lemma {:induction false} SumForStep(us: seq<string>, rows: seq<Row>, quotes: map<string, Quote>, lotSizes: map<string,
                                      real>)
    requires |rows| > 0 && forall i, j :: 0 <= i < j < |us| ==> us[i] != us[j]
    ensures var row := rows[|rows| - 1];
            var before := SumFor(us, rows[..|rows| - 1], quotes, lotSizes);
            SumFor(us, rows, quotes, lotSizes)
            == if row.underlying in us then Add(before, SumLegs(row, |row.legs|, quotes, lotSizes)) else before
  {
    hide Add, SumLegs;
    if |us| > 0 {
      var init, u, row := us[..|us| - 1], us[|us| - 1], rows[|rows| - 1];
      SumForStep(init, rows, quotes, lotSizes);
      assert us == init + [u];
      assert u !in init;
      AddRegroups(SumFor(init, rows[..|rows| - 1], quotes, lotSizes), TrueFor(rows[..|rows| - 1], u, quotes, lotSizes),
                  SumLegs(row, |row.legs|, quotes, lotSizes));
    }
  }

  lemma {:induction false} NoRowsNoGreeks(us: seq<string>, quotes: map<string, Quote>, lotSizes: map<string, real>)
    ensures SumFor(us, [], quotes, lotSizes) == NONE
  {
    if |us| > 0 {
      NoRowsNoGreeks(us[..|us| - 1], quotes, lotSizes);
    }
  }

  /** The book's total is the sum of its underlyings' true greeks. */
  lemma {:induction false} TotalIsSum(us: seq<string>, rows: seq<Row>, quotes: map<string, Quote>, lotSizes: map<string,
                                      real>)
    requires forall i, j :: 0 <= i < j < |us| ==> us[i] != us[j]
    requires forall row :: row in rows ==> row.underlying in us
    ensures SumRows(rows, quotes, lotSizes) == SumFor(us, rows, quotes, lotSizes)
  {
    hide Add, SumLegs, SumFor;
    if |rows| == 0 {
      NoRowsNoGreeks(us, quotes, lotSizes);
      assert rows == [];
    } else {
      assert rows == rows[..|rows| - 1] + [rows[|rows| - 1]];
      TotalIsSum(us, rows[..|rows| - 1], quotes, lotSizes);
      SumForStep(us, rows, quotes, lotSizes);
      assert rows[|rows| - 1] in rows;
    }
  }
}
