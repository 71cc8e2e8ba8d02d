/** The daily rollup (bot/analytics/daily.py): one row per strategy and one for the whole book. Times are
    seconds since the epoch in UTC. */
module DailyRollup {
  import opened Common
  import opened Calendar

  const GLOBAL_KEY := "__global__"

  datatype Trade = Trade(strategy: string, closed: bool, exitTs: Option<int>, realised: Option<real>,
                         fees: Option<real>, deltaPnl: Option<real>, thetaPnl: Option<real>,
                         rMultiple: Option<real>, slippage: Option<real>)

  datatype Totals = Totals(trades: nat, wins: nat, losses: nat, gross: real, fees: real, net: real, delta: real,
                           theta: real)

  /** A row of `daily_pnl`. */
  datatype Stats = Stats(totals: Totals, avgR: Option<real>, winRate: Option<real>, avgSlippage: Option<real>)

  const ZERO := Totals(0, 0, 0, 0.0, 0.0, 0.0, 0.0, 0.0)

  function Add(a: Totals, b: Totals): Totals {
    Totals(a.trades + b.trades, a.wins + b.wins, a.losses + b.losses, a.gross + b.gross, a.fees + b.fees,
           a.net + b.net, a.delta + b.delta, a.theta + b.theta)
  }

  /** What one trade contributes. */
  function Single(t: Trade): Totals {
    var r := OrZero(t.realised);
    Totals(1, if r > 0.0 then 1 else 0, if r < 0.0 then 1 else 0, r, OrZero(t.fees), r - OrZero(t.fees),
           OrZero(t.deltaPnl), OrZero(t.thetaPnl))
  }

  // ------------------------------------------------------------------ one summary

  function Sum(ts: seq<Trade>, f: Trade -> Option<real>): real {
    if |ts| == 0 then 0.0 else Sum(ts[..|ts| - 1], f) + OrZero(f(ts[|ts| - 1]))
  }

  function Known(ts: seq<Trade>, f: Trade -> Option<real>): nat {
    if |ts| == 0 then 0 else Known(ts[..|ts| - 1], f) + if f(ts[|ts| - 1]).Some? then 1 else 0
  }

  function Mean(ts: seq<Trade>, f: Trade -> Option<real>): Option<real> {
    if Known(ts, f) == 0 then None else Some(Sum(ts, f) / Known(ts, f) as real)
  }

  function CountIf(ts: seq<Trade>, p: Trade -> bool): nat {
    if |ts| == 0 then 0 else CountIf(ts[..|ts| - 1], p) + if p(ts[|ts| - 1]) then 1 else 0
  }

  function RealisedOf(): Trade -> Option<real> { (t: Trade) => t.realised }
  function FeesOf(): Trade -> Option<real> { (t: Trade) => t.fees }
  function DeltaOf(): Trade -> Option<real> { (t: Trade) => t.deltaPnl }
  function ThetaOf(): Trade -> Option<real> { (t: Trade) => t.thetaPnl }
  function ROf(): Trade -> Option<real> { (t: Trade) => t.rMultiple }
  function SlippageOf(): Trade -> Option<real> { (t: Trade) => t.slippage }
  function IsWin(): Trade -> bool { (t: Trade) => OrZero(t.realised) > 0.0 }
  function IsLoss(): Trade -> bool { (t: Trade) => OrZero(t.realised) < 0.0 }

  /** `_summarise`: each column from its own pass over the trades. */
  function Summarise(ts: seq<Trade>): Stats {
    var gross, fees, wins := Sum(ts, RealisedOf()), Sum(ts, FeesOf()), CountIf(ts, IsWin());
    Stats(Totals(|ts|, wins, CountIf(ts, IsLoss()), gross, fees, gross - fees, Sum(ts, DeltaOf()), Sum(ts, ThetaOf())),
          Mean(ts, ROf()), if |ts| == 0 then None else Some(wins as real / |ts| as real), Mean(ts, SlippageOf()))
  }

  /** The totals are the sum of the trades' contributions. */
  lemma SummariseStep(ts: seq<Trade>, t: Trade)
    ensures Summarise(ts + [t]).totals == Add(Summarise(ts).totals, Single(t))
  {
    assert (ts + [t])[..|ts|] == ts;
  }

  // ------------------------------------------------------------------ grouping

  function OfStrategy(ts: seq<Trade>, id: string): seq<Trade> {
    if |ts| == 0 then []
    else OfStrategy(ts[..|ts| - 1], id) + if ts[|ts| - 1].strategy == id then [ts[|ts| - 1]] else []
  }

  /** The per-strategy totals added up over the strategies in `ids`. */
  function SumOver(ids: seq<string>, ts: seq<Trade>): Totals {
    if |ids| == 0 then ZERO
    else Add(SumOver(ids[..|ids| - 1], ts), Summarise(OfStrategy(ts, ids[|ids| - 1])).totals)
  }

  ghost predicate NoRepeats(ids: seq<string>) {
    forall i, j :: 0 <= i < j < |ids| ==> ids[i] != ids[j]
  }

  /** `ids` names every strategy with a trade, each once. */
  ghost predicate Enumerates(ids: seq<string>, ts: seq<Trade>) {
    && NoRepeats(ids)
    && (forall t :: t in ts ==> t.strategy in ids)
  }

  lemma OfStrategyStep(ts: seq<Trade>, t: Trade, id: string)
    ensures OfStrategy(ts + [t], id) == OfStrategy(ts, id) + if t.strategy == id then [t] else []
  {
    assert (ts + [t])[..|ts|] == ts;
  }

  lemma {:induction false} SumOverStep(ids: seq<string>, ts: seq<Trade>, t: Trade)
    requires NoRepeats(ids)
    ensures SumOver(ids, ts + [t]) == if t.strategy in ids then Add(SumOver(ids, ts), Single(t)) else SumOver(ids, ts)
  {
    hide Summarise, Single, Add, OfStrategy;
    if |ids| > 0 {
      var init, id := ids[..|ids| - 1], ids[|ids| - 1];
      SumOverStep(init, ts, t);
      OfStrategyStep(ts, t, id);
      assert ids == init + [id];
      var before, own := SumOver(init, ts), Summarise(OfStrategy(ts, id)).totals;
      if t.strategy == id {
        assert t.strategy !in init;
        SummariseStep(OfStrategy(ts, id), t);
        AddRegroups(before, own, Single(t));
      } else {
        assert OfStrategy(ts, id) + [] == OfStrategy(ts, id);
        AddRegroups(before, own, Single(t));
      }
    }
  }

  lemma AddRegroups(a: Totals, b: Totals, c: Totals)
    ensures Add(a, Add(b, c)) == Add(Add(a, b), c) == Add(Add(a, c), b)
  {
  }

  lemma {:induction false} SumOverNothing(ids: seq<string>)
    ensures SumOver(ids, []) == ZERO
  {
    if |ids| > 0 {
      SumOverNothing(ids[..|ids| - 1]);
    }
  }

  /** The row of the whole book is the sum of the strategies' rows, in every column that adds up and for
      every set of trades. */
  lemma {:induction false} GlobalIsSum(ids: seq<string>, ts: seq<Trade>)
    requires Enumerates(ids, ts)
    ensures Summarise(ts).totals == SumOver(ids, ts)
  {
    hide Summarise, SumOver;
    if |ts| == 0 {
      SumOverNothing(ids);
      NothingSummarised();
    } else {
      var init, t := ts[..|ts| - 1], ts[|ts| - 1];
      assert ts == init + [t];
      GlobalIsSum(ids, init);
      SummariseStep(init, t);
      SumOverStep(ids, init, t);
    }
  }

  lemma NothingSummarised()
    ensures Summarise([]).totals == ZERO
  {
  }

  // ------------------------------------------------------------------ the rollup

  /** Closed trades whose exit falls on the given UTC date. */
  predicate OnDate(t: Trade, date: int) {
    t.closed && t.exitTs.Some? && date * DAY <= t.exitTs.value < (date + 1) * DAY
  }

  function Selected(ts: seq<Trade>, date: int): seq<Trade> {
    if |ts| == 0 then []
    else Selected(ts[..|ts| - 1], date) + if OnDate(ts[|ts| - 1], date) then [ts[|ts| - 1]] else []
  }

  method Select(ts: seq<Trade>, date: int) returns (r: seq<Trade>)
    ensures r == Selected(ts, date)
  {
    r := [];
    for i := 0 to |ts|
      invariant r == Selected(ts[..i], date)
    {
      assert ts[..i + 1][..i] == ts[..i];
      if OnDate(ts[i], date) {
        r := r + [ts[i]];
      }
    }
    assert ts[..|ts|] == ts;
  }

  /** The strategies in the order in which they first occur. */
  function Strategies(ts: seq<Trade>): seq<string> {
    if |ts| == 0 then []
    else
      var before, id := Strategies(ts[..|ts| - 1]), ts[|ts| - 1].strategy;
      if id in before then before else before + [id]
  }

  /** Trades by strategy, and the keys in the dictionary's order. */
  method Group(ts: seq<Trade>) returns (groups: map<string, seq<Trade>>, keys: seq<string>)
    ensures Grouped(groups, ts) && keys == Strategies(ts)
  {
    groups, keys := map[], [];
    for i := 0 to |ts|
      invariant Grouped(groups, ts[..i]) && keys == Strategies(ts[..i])
      invariant forall id :: id in groups <==> id in keys
    {
      hide OfStrategy;
      ghost var before := groups;
      var t := ts[i];
      ghost var upto := ts[..i + 1];
      assert upto == ts[..i] + [t] && upto[..i] == ts[..i];
      if t.strategy !in groups {
        keys := keys + [t.strategy];
      }
      groups := groups[t.strategy := (if t.strategy in groups then groups[t.strategy] else []) + [t]];
      forall id ensures GroupOk(groups, upto, id) {
        assert GroupOk(before, ts[..i], id);
        OfStrategyStep(ts[..i], t, id);
      }
    }
    assert ts[..|ts|] == ts;
  }

  /** The dictionary holds each strategy's trades in order, and no empty list. */
  ghost predicate Grouped(groups: map<string, seq<Trade>>, ts: seq<Trade>) {
    forall id :: GroupOk(groups, ts, id)
  }

  ghost predicate GroupOk(groups: map<string, seq<Trade>>, ts: seq<Trade>, id: string) {
    if id in groups then groups[id] == OfStrategy(ts, id) != [] else OfStrategy(ts, id) == []
  }

  lemma {:induction false} OwnStrategyIsFound(ts: seq<Trade>, t: Trade)
    requires t in ts
    ensures OfStrategy(ts, t.strategy) != []
  {
    if ts[|ts| - 1] != t {
      OwnStrategyIsFound(ts[..|ts| - 1], t);
    }
  }

  lemma {:induction false} StrategiesAreKeys(ts: seq<Trade>)
    ensures NoRepeats(Strategies(ts))
    ensures forall id :: id in Strategies(ts) <==> OfStrategy(ts, id) != []
  {
    if |ts| > 0 {
      StrategiesAreKeys(ts[..|ts| - 1]);
    }
  }

  // ------------------------------------------------------------------ the order of the report

  /** Lexicographic order of strings. */
  predicate Before(a: string, b: string) {
    |a| == 0 || (|b| > 0 && (a[0] < b[0] || (a[0] == b[0] && Before(a[1..], b[1..]))))
  }

  lemma {:induction false} BeforeIsTotal(a: string, b: string)
    ensures Before(a, b) || Before(b, a)
  {
    if |a| > 0 && |b| > 0 {
      BeforeIsTotal(a[1..], b[1..]);
    }
  }

  lemma {:induction false} BeforeIsTransitive(a: string, b: string, c: string)
    requires Before(a, b) && Before(b, c)
    ensures Before(a, c)
  {
    if |a| > 0 && a[0] == b[0] == c[0] {
      BeforeIsTransitive(a[1..], b[1..], c[1..]);
    }
  }

  ghost predicate InOrder(ids: seq<string>) {
    forall i, j :: 0 <= i < j < |ids| ==> Before(ids[i], ids[j])
  }

  function InsertName(x: string, ids: seq<string>): seq<string> {
    if |ids| == 0 || Before(ids[|ids| - 1], x) then ids + [x]
    else InsertName(x, ids[..|ids| - 1]) + [ids[|ids| - 1]]
  }

  function SortNames(ids: seq<string>): seq<string> {
    if |ids| == 0 then [] else InsertName(ids[|ids| - 1], SortNames(ids[..|ids| - 1]))
  }

  lemma {:induction false} InsertNameKeeps(x: string, ids: seq<string>)
    requires NoRepeats(ids) && x !in ids
    ensures NoRepeats(InsertName(x, ids)) && forall y :: y in InsertName(x, ids) <==> y == x || y in ids
  {
    hide Before;
    if |ids| > 0 && !Before(ids[|ids| - 1], x) {
      var init, last := ids[..|ids| - 1], ids[|ids| - 1];
      assert ids == init + [last];
      assert last !in init;
      InsertNameKeeps(x, init);
    }
  }

  lemma {:induction false} InsertNameSorts(x: string, ids: seq<string>)
    requires InOrder(ids) && NoRepeats(ids) && x !in ids
    ensures InOrder(InsertName(x, ids))
  {
    hide Before;
    if |ids| > 0 {
      var init, last := ids[..|ids| - 1], ids[|ids| - 1];
      if Before(last, x) {
        forall i | 0 <= i < |init| ensures Before(ids[i], x) {
          BeforeIsTransitive(ids[i], last, x);
        }
      } else {
        BeforeIsTotal(last, x);
        InsertNameSorts(x, init);
        InsertNameKeeps(x, init);
        var r := InsertName(x, init);
        forall i | 0 <= i < |r| ensures Before(r[i], last) {
          assert r[i] in r;
          assert r[i] == x || r[i] in init;
        }
      }
    }
  }

  /** Sorting keeps the names and puts them in order. */
  lemma {:induction false} SortNamesSorts(ids: seq<string>)
    requires NoRepeats(ids)
    ensures InOrder(SortNames(ids)) && NoRepeats(SortNames(ids)) && forall y :: y in SortNames(ids) <==> y in ids
  {
    hide InOrder, InsertName;
    if |ids| == 0 {
      NoneInOrder();
    } else {
      var init, last := ids[..|ids| - 1], ids[|ids| - 1];
      assert ids == init + [last];
      SortNamesSorts(init);
      InsertNameKeeps(last, SortNames(init));
      InsertNameSorts(last, SortNames(init));
    }
  }

  lemma NoneInOrder()
    ensures InOrder([])
  {
  }

  /** The strategies of the report: those with a selected trade, each once, in order. */
  function Names(trades: seq<Trade>, date: int): seq<string> {
    SortNames(Strategies(Selected(trades, date)))
  }

  lemma NamesAreStrategies(trades: seq<Trade>, date: int)
    ensures InOrder(Names(trades, date)) && NoRepeats(Names(trades, date))
    ensures forall id :: id in Names(trades, date) <==> OfStrategy(Selected(trades, date), id) != []
    ensures Enumerates(Names(trades, date), Selected(trades, date))
  {
    hide InOrder, NoRepeats, SortNames, Strategies, OfStrategy;
    var selected := Selected(trades, date);
    StrategiesAreKeys(selected);
    SortNamesSorts(Strategies(selected));
    forall t | t in selected ensures t.strategy in Names(trades, date) {
      OwnStrategyIsFound(selected, t);
    }
  }

  lemma {:induction false} SelectedIsFromTrades(trades: seq<Trade>, date: int, t: Trade)
    requires t in Selected(trades, date)
    ensures t in trades
  {
    if t in Selected(trades[..|trades| - 1], date) {
      SelectedIsFromTrades(trades[..|trades| - 1], date, t);
    }
  }

  lemma {:induction false} NoSuchStrategy(ts: seq<Trade>, id: string)
    requires forall t :: t in ts ==> t.strategy != id
    ensures OfStrategy(ts, id) == []
  {
    if |ts| > 0 {
      NoSuchStrategy(ts[..|ts| - 1], id);
    }
  }

  class DailyPnlTable {
    var rows: map<(int, string), Stats>

    /** Write the book's row and one row for each strategy with a trade that day, in order. Afterwards the
        book's row is the sum of those strategies' rows; no other row has changed. */
    method Run(trades: seq<Trade>, date: int)
      requires forall t :: t in trades ==> t.strategy != GLOBAL_KEY
      modifies this
      ensures rows == Upserted(old(rows), trades, date, Names(trades, date))
      ensures (date, GLOBAL_KEY) in rows
      ensures rows[(date, GLOBAL_KEY)].totals == SumStored(rows, date, Names(trades, date))
    {
      hide OfStrategy, SortNames, Strategies, InOrder, NoRepeats, Summarise;
      var selected := Select(trades, date);
      var groups, keys := Group(selected);
      var ids := SortNames(keys);
      NamesAreStrategies(trades, date);
      NoGlobal(trades, date);
      rows := rows[(date, GLOBAL_KEY) := Summarise(selected)];
      for i := 0 to |ids|
        invariant rows == Upserted(old(rows), trades, date, ids[..i])
      {
        assert ids[..i + 1][..i] == ids[..i];
        assert ids[i] in ids && GroupOk(groups, selected, ids[i]);
        rows := rows[(date, ids[i]) := Summarise(groups[ids[i]])];
      }
      assert ids[..|ids|] == ids;
      UpsertedRow(old(rows), trades, date, ids);
      StoredIsSum(old(rows), trades, date, ids);
      GlobalIsSum(ids, selected);
    }
  }

  lemma NoGlobal(trades: seq<Trade>, date: int)
    requires forall t :: t in trades ==> t.strategy != GLOBAL_KEY
    ensures GLOBAL_KEY !in Names(trades, date)
  {
    hide OfStrategy, Selected, Names;
    NamesAreStrategies(trades, date);
    forall t | t in Selected(trades, date) ensures t.strategy != GLOBAL_KEY {
      SelectedIsFromTrades(trades, date, t);
    }
    NoSuchStrategy(Selected(trades, date), GLOBAL_KEY);
  }

  /** The table after a run. */
  function Upserted(rows: map<(int, string), Stats>, trades: seq<Trade>, date: int, ids: seq<string>)
    : map<(int, string), Stats>
  {
    if |ids| == 0 then rows[(date, GLOBAL_KEY) := Summarise(Selected(trades, date))]
    else
      var id := ids[|ids| - 1];
      Upserted(rows, trades, date, ids[..|ids| - 1])[(date, id) := Summarise(OfStrategy(Selected(trades, date), id))]
  }

  /** The stored rows of the strategies in `ids`, added up. */
  ghost function SumStored(rows: map<(int, string), Stats>, date: int, ids: seq<string>): Totals {
    if |ids| == 0 then ZERO
    else
      var id := ids[|ids| - 1];
      Add(SumStored(rows, date, ids[..|ids| - 1]), if (date, id) in rows then rows[(date, id)].totals else ZERO)
  }

  /** The rows a run writes, and that it writes no others. */
  lemma {:induction false} UpsertedRow(rows: map<(int, string), Stats>, trades: seq<Trade>, date: int, ids: seq<string>)
    requires NoRepeats(ids)
    requires GLOBAL_KEY !in ids
    ensures var r := Upserted(rows, trades, date, ids);
            && (date, GLOBAL_KEY) in r && r[(date, GLOBAL_KEY)] == Summarise(Selected(trades, date))
            && (forall id :: id in ids ==>
                (date, id) in r && r[(date, id)] == Summarise(OfStrategy(Selected(trades, date), id)))
            && (forall k :: k in r <==> k in rows || k == (date, GLOBAL_KEY) || (k.0 == date && k.1 in ids))
            && (forall k :: k in rows && k != (date, GLOBAL_KEY) && !(k.0 == date && k.1 in ids) ==> r[k] == rows[k])
  {
    hide Summarise, Selected, OfStrategy;
    if |ids| > 0 {
      var init, id := ids[..|ids| - 1], ids[|ids| - 1];
      assert ids == init + [id];
      UpsertedRow(rows, trades, date, init);
    }
  }

  lemma {:induction false} StoredPart(r: map<(int, string), Stats>, ts: seq<Trade>, date: int, ids: seq<string>)
    requires forall id :: id in ids ==> (date, id) in r && r[(date, id)] == Summarise(OfStrategy(ts, id))
    ensures SumStored(r, date, ids) == SumOver(ids, ts)
  {
    hide Summarise, OfStrategy;
    if |ids| > 0 {
      assert ids == ids[..|ids| - 1] + [ids[|ids| - 1]];
      StoredPart(r, ts, date, ids[..|ids| - 1]);
    }
  }

  lemma StoredIsSum(rows: map<(int, string), Stats>, trades: seq<Trade>, date: int, ids: seq<string>)
    requires NoRepeats(ids)
    requires GLOBAL_KEY !in ids
    ensures SumStored(Upserted(rows, trades, date, ids), date, ids) == SumOver(ids, Selected(trades, date))
  {
    hide Summarise, Selected, OfStrategy;
    UpsertedRow(rows, trades, date, ids);
    StoredPart(Upserted(rows, trades, date, ids), Selected(trades, date), date, ids);
  }

  /** Running the rollup again on the same trades changes nothing. */
  lemma RerunChangesNothing(rows: map<(int, string), Stats>, trades: seq<Trade>, date: int, ids: seq<string>)
    requires NoRepeats(ids)
    requires GLOBAL_KEY !in ids
    ensures var once := Upserted(rows, trades, date, ids); Upserted(once, trades, date, ids) == once
  {
    hide Summarise, Selected, OfStrategy, Upserted;
    var once := Upserted(rows, trades, date, ids);
    var twice := Upserted(once, trades, date, ids);
    UpsertedRow(rows, trades, date, ids);
    UpsertedRow(once, trades, date, ids);
    assert once.Keys == twice.Keys;
    forall k | k in once ensures twice[k] == once[k] {
      if k.0 == date && k.1 in ids {
        assert k == (date, k.1);
      }
    }
  }

  // ------------------------------------------------------------------ the schedule

  /** The loop runs the rollup once per IST date, between 22:35 and 23:00 IST. */
  predicate RollupTime(now: int) {
    var clock := (now + IST_OFFSET) % DAY;
    22 * 3600 + 35 * 60 <= clock < 23 * 3600
  }

  /** The run at `now` counts a trade that exits at `exit`. */
  predicate CountedBy(now: int, exit: int) {
    exit <= now && IstDate(now) * DAY <= exit < (IstDate(now) + 1) * DAY
  }

  /** The date of the window is an IST date, its bounds are UTC midnights, and the run happens before the
      UTC day is over. So some run counts an exit exactly when the run of the exit's own UTC date comes
      after it: what closes later that day, up to UTC midnight, is in no daily row. */
  lemma CountedIff(runs: set<int>, exit: int)
    requires forall now :: now in runs ==> RollupTime(now)
    ensures (exists now :: now in runs && CountedBy(now, exit)) <==>
            (exists now :: now in runs && now / DAY == exit / DAY && exit <= now)
  {
    forall now | now in runs ensures CountedBy(now, exit) <==> now / DAY == exit / DAY && exit <= now {
      assert RollupTime(now);
      assert IstDate(now) == now / DAY;
    }
  }

  /** No schedule of runs counts a trade that closes at or after 17:30 UTC. */
  lemma LateExitsAreNeverCounted(runs: set<int>, exit: int)
    requires forall now :: now in runs ==> RollupTime(now)
    requires exit % DAY >= 23 * 3600 - IST_OFFSET
    ensures forall now :: now in runs ==> !CountedBy(now, exit)
  {
    forall now | now in runs ensures !CountedBy(now, exit) {
      assert RollupTime(now);
    }
  }

  // ------------------------------------------------------------------ selection and averages

  /** The window is the UTC date: a trade is selected exactly if it is closed and its exit falls on that date. */
  lemma {:induction false} SelectedIff(trades: seq<Trade>, date: int, t: Trade)
    ensures t in Selected(trades, date) <==> t in trades && t.closed && t.exitTs.Some? && t.exitTs.value / DAY == date
  {
    if |trades| > 0 {
      SelectedIff(trades[..|trades| - 1], date, t);
      assert trades == trades[..|trades| - 1] + [trades[|trades| - 1]];
      if t == trades[|trades| - 1] && t.exitTs.Some? {
        DateOfExit(t.exitTs.value, date);
      }
    }
  }

  lemma DateOfExit(x: int, date: int)
    ensures date * DAY <= x < (date + 1) * DAY <==> x / DAY == date
  {
  }

  /** `x` added up `n` times. */
  function Repeated(x: real, n: nat): real {
    if n == 0 then 0.0 else Repeated(x, n - 1) + x
  }

  lemma {:induction false} RepeatedIs(x: real, n: nat)
    ensures Repeated(x, n) == x * n as real
  {
    if n > 0 {
      RepeatedIs(x, n - 1);
      OneMore((n - 1) as real, x);
    }
  }

  /** An average is missing exactly if no trade has the figure, and lies within any bounds of the figures. */
  lemma MeanBetween(ts: seq<Trade>, f: Trade -> Option<real>, lo: real, hi: real)
    requires forall t :: t in ts && f(t).Some? ==> lo <= f(t).value <= hi
    ensures Mean(ts, f).None? <==> forall t :: t in ts ==> f(t).None?
    ensures Mean(ts, f).Some? ==> lo <= Mean(ts, f).value <= hi
  {
    hide Sum, Known, Repeated;
    SumBetween(ts, f, lo, hi);
    RepeatedIs(lo, Known(ts, f));
    RepeatedIs(hi, Known(ts, f));
    if Known(ts, f) > 0 {
      QuotientBetween(Sum(ts, f), Known(ts, f) as real, lo, hi);
    }
  }

  lemma {:induction false} SumBetween(ts: seq<Trade>, f: Trade -> Option<real>, lo: real, hi: real)
    requires forall t :: t in ts && f(t).Some? ==> lo <= f(t).value <= hi
    ensures Repeated(lo, Known(ts, f)) <= Sum(ts, f) <= Repeated(hi, Known(ts, f))
    ensures Known(ts, f) == 0 <==> forall t :: t in ts ==> f(t).None?
  {
    if |ts| > 0 {
      var init, last := ts[..|ts| - 1], ts[|ts| - 1];
      assert ts == init + [last];
      SumBetween(init, f, lo, hi);
      assert last in ts;
    }
  }

  /** The wins, losses and scratches of a book are all its trades. */
  lemma {:induction false} WinsAndLosses(ts: seq<Trade>)
    ensures CountIf(ts, IsWin()) + CountIf(ts, IsLoss()) + CountIf(ts, IsFlat()) == |ts|
  {
    if |ts| > 0 {
      WinsAndLosses(ts[..|ts| - 1]);
    }
  }

  /** The win rate is the wins among all trades; without trades there is none. */
  lemma WinRateIs(ts: seq<Trade>)
    ensures |ts| > 0 ==> Summarise(ts).winRate.Some?
    ensures |ts| > 0 ==> Summarise(ts).winRate.value * |ts| as real == CountIf(ts, IsWin()) as real
    ensures |ts| == 0 ==> Summarise(ts).winRate == None
  {
    hide CountIf, Sum, Mean;
    if |ts| > 0 {
      Undivide(CountIf(ts, IsWin()) as real, |ts| as real);
    }
  }

  function IsFlat(): Trade -> bool { (t: Trade) => OrZero(t.realised) == 0.0 }

  /** In UTC the rollup runs between 17:05 and 17:30. */
  lemma RollupInUtc(now: int)
    ensures RollupTime(now) <==> 17 * 3600 + 5 * 60 <= now % DAY < 17 * 3600 + 30 * 60
  {
  }
}
