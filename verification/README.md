# Verified model of the options bot

A Dafny model of the parts of the bot whose promises span whole runs: the live multi-leg entry, the
tick loop with its risk gate, NAV and drawdown breaker, the boot reconciler, the candle stream and the
trend signal, the exit engine, the token bucket, and the arithmetic of premiums, spreads and daily
totals. `dafny verify dfyconfig.toml` checks everything.

Floats are `real`. Clock, quotes, random draws, strategy proposals, the executor's answers and the
exchange are arbitrary inputs, so every statement holds for all of them. Tables are sequences and maps,
and each committed session is one step. Where the original updates objects in loops, the model has a
class or a method with loops, tied by its `ensures` to a specification function; the theorems are about
those functions and about every run of them.

| file | what it models |
|---|---|
| `Common`, `Calendar`, `Rounding`, `Router` | shared types; dates; `round` to ticks and digits, limit prices; fills |
| `LiveEntry`, `EntryOutcome` | the concurrent maker / cancel / IOC protocol with its rollback as a state machine against an adversarial exchange; whole runs and what they leave |
| `Risk`, `RiskGate` | loss caps, gate, sizing; exactly when the gate approves and how much |
| `Engine`, `EngineLoop` | the tick loop as a function over states; the same as classes with loops |
| `EngineAccounting`, `EngineBreaker`, `EngineBoot`, `EngineTrades`, `EngineCooldown`, `EngineCalendar` | theorems about every run of the engine, its boots and its ticks |
| `Reconcile`, `ReconcileProofs` | the boot reconciler and its guarantees |
| `Candles`, `Indicators`, `TrendSignal` | streaming candles against a batch definition; EMA and ATR; the breakout test |
| `Exits`, `ExitProofs` | the exit engine with `manage`; theorems about the life of a position |
| `RateLimit` | the token bucket |
| `Premium`, `DryExecution` | per-lot columns and realised PnL; simulated fills |
| `ChainCache`, `CreditVertical` | expiry buckets and strike pickers; spreads and what they can lose |
| `DailyRollup`, `PortfolioGreeks` | daily rows; greeks of the open book |

## Where the code departs from what it promises

The model follows the code. Each departure below is stated exactly, usually as an if-and-only-if.

- The IOC order repeats the full size after a partly filled maker order (bot/execution/live.py:182-203), a
  maker order whose cancel failed stays live, and the rollback does not cancel the open remainder of a
  partly filled IOC order (bot/execution/live.py:367-388). An entry is all-or-nothing for good exactly when
  every leg is accounted for: `AllOrNothingIff`, `ResidueDecides`, `RollbackSparesOrders`; `DoubleFill`,
  `LateMaker` and `LateRemainder` are runs of the three failing families. A leg that raises is never
  rolled back: `RaisedLegIsLeftAlone`, `RaisedHolds`. What a failed entry still holds is never closed or
  booked by the engine: `EndedIsFinal`.
- The bucket built by the REST client (bot/exchange/rest.py:79-86) lets twice the documented number of
  requests through in ten seconds: `EnforcesIff`, `DocumentedWindowIsExceeded`.
- The reconciler looks up open orders only, so a filled order that the exchange shows otherwise goes
  unnoticed: `OnlyOpenOrdersAreLookedUp`. A filled leg beside a canceled one passes: `HalfFilledReportedIff`,
  `NakedLegPasses`. A failed lookup counts as canceled, the fill of a canceled order is dropped, and
  both can close a trade: `CanceledForSureIff`, `FailedLookupsCloseTrade`, `PartialFillIsDropped`. The
  exchange's own words for ended orders halt the boot: `ForeignWordsHalt`. A second run is silent exactly
  when the open list shows only open-type states: `IdempotentIff`.
- Resuming clears the history row and leaves `circuit_breaker.json`, so the next boot is tripped again:
  `ResumeAloneDoesNotClear`, `BootsUntrippedIff`. A negative NAV cannot be written to `nav_history`, so the
  loop dies there before the trip is recorded: `TickBreaker`.
- A rollup that read the flag before a trip and commits after it clears the trip from the history; only the
  marker then keeps the breaker: `HistoryLatchesIff`, `RollupOvertakesTrip`.
- The weekly anchor moves on Tuesdays (IST) as long as the loop ticks through midnight: `WeeklyAnchor`.
- A restart forgets the cooldowns: `RestartForgetsCooldowns`.
- The chandelier compares the underlying's price with an option premium. A call whose chandelier lies at or
  above its target closes on its next quote, whatever it is: `ChandelierForcesClose`, `ChandelierExample`.
- Trailing stops of a put move down, so that a later stop closes at fewer quotes: `PutStopsLoosen`.
- A stop persisted with a position is overwritten by the runtime's own, so a restart forgets it:
  `PersistedStopIsForgotten`.
- The engine drops the legs' sides when it rebuilds a position (bot/runtime/engine.py:278-284). The unwind
  cost of a spread is then right exactly when its sold legs are worthless, and every spread is closed as a
  reached target on its first tick: `UnwindCostIff`, `SpreadClosesAtOnce`.
- The declared maximum loss of a spread uses the short leg's lot size; it bounds the loss exactly when both
  legs have the same one: `DeclaredLossIff`.
- The daily window mixes IST dates with UTC midnights and is evaluated before the UTC day ends; later exits
  are in no daily row: `CountedIff`, `LateExitsAreNeverCounted`.
- Greeks per underlying keep one leg of every trade: `TradeCountedIff`.
- Splitting a premium over fewer than one lot loses it: `SplitRecombines`. A negative breakout multiplier
  lets both setups hold at once: `ExclusiveIff`. The nearest Friday has no weekly bucket on a Thursday:
  `BucketIsOneDate`.

## Model

| member | source | states |
|---|---|---|
| `LiveEntry.NextKeepsInv` | bot/execution/live.py:61-237 | every step of any leg, of the rollback and of the exchange keeps the invariant tying each leg's control point, its maker, IOC and close orders, the stage of the entry and the true position of its symbol |
| `LiveEntry.NextOnlyLeg` | bot/execution/live.py:61-80 | concurrency: a step of one leg, its rollback included, touches no other leg's state, orders or symbol |
| `LiveEntry.FinishedStays` | bot/execution/live.py:77-110 | once all legs are in, only the rollback and the exchange act, and no leg's report changes |
| `LiveEntry.FillShowsOrder` | bot/execution/live.py:457-480 | a report repeats symbol, side and size of its leg and what the order shows, with a price exactly if something was filled and the order has one |
| `EntryOutcome.Exposure` | bot/execution/live.py:112-203 | in every reachable state, during and after the rollback too, a finished leg's true position is its reported fill plus what its abandoned maker order filled plus what its IOC order filled after the report, less what the rollback took off; nothing is late after a terminal report |
| `EntryOutcome.ExposureBounded` | bot/execution/live.py:112-203 | in every reachable state, exceptions and open remainders included, a leg is never on the wrong side and never beyond twice its size |
| `EntryOutcome.EndsIff` | bot/execution/live.py:112-203 | exactly which steps end a leg with a report: no quote, a placement answered with a whole fill, a poll that finds the maker order filled or the IOC order ended, the end of the IOC wait |
| `EntryOutcome.LegCourse` | bot/execution/live.py:112-219 | the course of a leg: how long it waits for each order, exactly when it gives up on the maker order, and that it then cancels once and falls back |
| `EntryOutcome.MakerFillEndsLeg` | bot/execution/live.py:153-162 | a maker order shown filled by a poll or by its placement ends its leg, reported in full and without an IOC order |
| `EntryOutcome.NoSecondOrder` | bot/execution/live.py:153-162 | in every continuation such a leg never gets an IOC order and holds exactly its size less what a rollback took off |
| `EntryOutcome.TimeoutReports` | bot/execution/live.py:195-219 | when the IOC wait runs out the leg reports what its last poll showed, or the placement's reply if that poll found nothing |
| `EntryOutcome.FillsNeverShrink` | bot/execution/live.py:112-237 | over any run what an order has filled it keeps |
| `EntryOutcome.FinishedIsSettled` | bot/execution/live.py:112-237 | unless the maker cancel failed or the IOC order was still open when its wait ended, a finished leg has no entry order left that could fill |
| `EntryOutcome.SettledForever` | bot/execution/live.py:61-110 | once settled, nothing the other legs, the rollback or the exchange do changes a leg's report or its entry orders |
| `EntryOutcome.WaitForOrder` | bot/execution/live.py:205-219 | the poll loop returns the first terminal reply before the deadline, else the last reply, and polls no later than the deadline |
| `EntryOutcome.Venue.PlaceReduceOnly` | bot/execution/live.py:367-388 | a close of a position held on the leg's side moves it towards zero, never through it, by at most the size asked for, and moves no other symbol |
| `EntryOutcome.RunRollback` | bot/execution/live.py:363-407 | the loop, with the exchange acting between its awaits, ends in the state of the run model: over with one recorded action per fill, or aborted exactly when an exception that it does not catch escapes |
| `EntryOutcome.RollbackIsRun` | bot/execution/live.py:363-407 | whatever the loop does with the exchange acting in between is a run of the machine |
| `EntryOutcome.RollbackTakes` | bot/execution/live.py:367-388 | one round takes off the close's execution up to the reported size; the reduce-only limit never binds; an unknown instrument or a refused close takes off nothing |
| `EntryOutcome.RollbackCancels` | bot/execution/live.py:388-404 | a confirmed cancel ends the IOC order of a leg that reported nothing, any other leaves it; the maker order is spared and nothing is closed |
| `EntryOutcome.EveryFillIsHandled` | bot/execution/live.py:363-407 | a run from the start of the rollback to its end handles every fill |
| `EntryOutcome.RollbackSparesOrders` | bot/execution/live.py:367-388 | the rollback cancels nothing of a leg that reported a fill or raised: its entry orders stay as they are, open remainders included |
| `EntryOutcome.FinishEntry` | bot/execution/live.py:81-110 | success exactly when every leg is complete, and then nothing is touched; otherwise the whole group is rolled back, unless an exception escapes |
| `EntryOutcome.RaisedLegIsLeftAlone` | bot/execution/live.py:81-94 | in every reachable state a leg that raised holds all its orders filled: no close is ever placed for it |
| `EntryOutcome.FinalLeg` | bot/execution/live.py:61-110 | with cancels that worked, a resolved IOC order and an executed close, a leg holds for ever exactly what its cancelled maker order filled, on top of the full size on success |
| `EntryOutcome.ResidueDecides` | bot/execution/live.py:61-203 | if that is so of all legs, the entry is all-or-nothing for good exactly when no cancelled maker order had filled |
| `EntryOutcome.StaysIff` | bot/execution/live.py:61-110 | from any reachable finished state, the position stays as reported under everything the exchange may still do exactly when every leg is accounted for: nothing filled beyond the report, nothing that can still fill, closes executed in full |
| `EntryOutcome.AllOrNothingIff` | bot/execution/live.py:61-110 | the same for every run that has returned a result, whatever exceptions the legs raised and however cancels and closes were answered |
| `EntryOutcome.DoubleFill` | bot/execution/live.py:161-203 | a legal run that reports success for one lot and holds two |
| `EntryOutcome.LateMaker` | bot/execution/live.py:166-203 | a legal run that ends exactly as reported, without residue, after a failed cancel, and is doubled afterwards |
| `EntryOutcome.LateRemainder` | bot/execution/live.py:195-203 | a legal run in which a failed entry ends flat and the open remainder of its partly filled IOC order fills after the rollback |
| `EntryOutcome.RaisedHolds` | bot/execution/live.py:81-94 | a legal run whose placement raised after being filled: it reports failure and holds the full size |
| `EntryOutcome.OrdinaryEntry` | bot/execution/live.py:61-162 | a legal run of an ordinary entry: one order, exactly the size, and it stays so |
| `Rounding.RoundToError` | bot/execution/live.py:483-486 | rounding to a grid moves a price by at most half a step |
| `Rounding.RoundToMonotone` | bot/execution/live.py:483-486 | rounding keeps order |
| `Rounding.RoundTickError` | bot/execution/live.py:483-486 | tick rounding followed by eight-digit rounding moves a price by at most half of both |
| `Rounding.RoundTickLandsOnGrid` | bot/execution/live.py:483-486 | a rounded price is a multiple of the eighth digit next to the nearest multiple of the tick |
| `Rounding.TiesToEven` | bot/execution/live.py:483-486 | a value halfway between two integers goes to the even one |
| `Rounding.NoTickNoRounding` | bot/execution/live.py:483-486 | without a positive tick nothing is rounded |
| `Rounding.MidIsHalfway` | bot/data/chain_cache.py:76-80 | the mid is halfway between bid and ask if both are known and the ask is positive, the mark otherwise |
| `Rounding.PricesDefined` | bot/execution/live.py:410-427 | which quotes give a maker and an IOC price |
| `Rounding.MakerRestsAtTouch` | bot/execution/live.py:410-415 | on the tick grid a maker purchase rests at the bid below the ask, a sale at the ask above the bid |
| `Rounding.IocCrossesWithinBudget` | bot/execution/live.py:417-427 | the IOC price reaches the touch and stays within the slip budget when both lie on the tick grid |
| `Router.TotalPremium` | bot/execution/router.py:92-101 | the loop computes the net premium, buys positive, sales negative, unpriced fills nothing |
| `Router.CompleteIff` | bot/execution/router.py:64-67 | complete exactly if worded filled and short by no more than a billionth |
| `Router.UnpricedAddsNothing` | bot/execution/router.py:92-101 | a fill without a price leaves the premium as it is |
| `Engine.LatestOf` | bot/runtime/nav_state.py:34-37 | the latest history date |
| `EngineAccounting.ExitKeeps` | bot/runtime/engine.py:580-646 | booking an exit keeps NAV equal to base plus booked PnL, and both concurrency limits |
| `EngineAccounting.EnterKeeps` | bot/runtime/engine.py:324-420 | entering an approved intent keeps the book's invariant |
| `EngineAccounting.TickKeeps` | bot/runtime/engine.py:887-1107 | a whole tick of exits, entries, sync and peak update keeps NAV equal to base plus booked PnL, both concurrency limits and the risk bound of each open trade |
| `EngineAccounting.RestartKeeps` | bot/runtime/nav_state.py:28-70 | reconciling and restarting keep it and rebuild exactly the same NAV |
| `EngineAccounting.BookAlwaysOk` | bot/runtime/engine.py:887-1107 | the invariant holds at every boundary of every run of ticks, rollups, resumes and restarts |
| `EngineAccounting.FirstBootOk` | bot/runtime/nav_state.py:28-70 | the base case: a first boot on an empty trades table starts at the base NAV and satisfies the invariant |
| `EngineAccounting.RestartRebuildsNav` | bot/runtime/nav_state.py:18-31 | after any run NAV is base plus the realised PnL of closed trades, and a restart with or without reconciled trades rebuilds it |
| `EngineAccounting.CloseSilently` | bot/execution/reconcile.py:196-211 | trades closed by the reconciler leave the booked total alone and lower the open counts |
| `EngineAccounting.ReachableRisk` | bot/runtime/engine.py:1016-1078 | in every reachable state both concurrency limits hold, and the approved risk of open trades is at most the highest entry NAV times `max_per_strategy` times the summed strategy shares |
| `EngineAccounting.EndedIsFinal` | bot/runtime/engine.py:255-264 | a row that is not open is never touched again by any run, so what an ERRORED entry still holds is never closed nor booked |
| `EngineAccounting.FailedEntryIsErrored` | bot/runtime/engine.py:405-412 | a failed entry's row is ERRORED at once and books nothing |
| `EngineTrades.ExitIs` | bot/runtime/engine.py:546-646 | one CLOSE: row, NAV and cooldown after it, for success and failure and for every strategy; nothing else changes |
| `EngineTrades.ExitsAre` | bot/runtime/engine.py:940-1000 | row by row, exactly the open trades with a CLOSE that succeeded are closed, with what their cashflows leave |
| `EngineTrades.ConsiderIs` | bot/runtime/engine.py:1041-1077 | an accepted proposal adds its row (strategy, underlying, largest size that fits, columns that give back the net premium, or ERRORED), any other adds nothing |
| `EngineTrades.EveryAcceptedOpens` | bot/runtime/engine.py:1041-1078 | no accepted proposal of a tick is passed over |
| `EngineTrades.TickIs` | bot/runtime/engine.py:887-1107 | a tick's table: the rows it found as its exits left them, and behind them those of its entries |
| `EngineTrades.ReconcileClosesExactly` | bot/execution/reconcile.py:196-211 | reconciling closes exactly the open trades it was told to, without a PnL |
| `EngineBreaker.SyncBreaker` | bot/runtime/nav_state.py:83-138 | when the sync trips, what it persists, and when it dies on a negative NAV |
| `EngineBreaker.TickBreaker` | bot/runtime/engine.py:887-1107 | a tick trips exactly on a lifetime loss from the earlier peak, raises the peak, survives exactly when tripped or its NAV can be judged and stored, and opens nothing once tripped |
| `EngineBreaker.PeakBeforeOrAfter` | bot/runtime/engine.py:1080-1104 | judging before the peak update is judging against the maximum that includes the new NAV |
| `EngineBreaker.TrippedIff` | bot/runtime/engine.py:1080-1107 | over every run of a process: tripped exactly when booted tripped or some tick-end NAV was the lifetime fraction below the running maximum |
| `EngineBreaker.NoPeakNoBreaker` | bot/risk/caps.py:52-63 | without a positive peak the breaker never fires, and a NAV of zero raises |
| `EngineBreaker.BootsUntrippedIff` | bot/runtime/nav_state.py:46-50 | a boot is untripped exactly when the marker is gone and the latest row is clear |
| `EngineBreaker.TripIsRecorded` | bot/runtime/nav_state.py:83-121 | a tick that trips records it in the marker and in the date's row, with the NAV and the higher of both peaks, and changes no other row |
| `EngineBreaker.MarkerLatches` | bot/runtime/engine.py:704-707 | while the marker stays, no sequence of ticks, starting and committing rollups, resumes and restarts opens a trade or clears the breaker |
| `EngineBreaker.HistoryLatches` | bot/analytics/daily.py:137-158 | with dates that never go back, no resume and no stale rollup left to commit, the history alone does the same even if the marker is lost |
| `EngineBreaker.HistoryLatchesIff` | bot/runtime/engine.py:873-881 | the history keeps the trip through every such run exactly when no rollup that read an untripped flag is still to commit on its date |
| `EngineBreaker.RollupOvertakesTrip` | bot/runtime/engine.py:873-881 | a concrete run in which a rollup commits over the trip and, the marker lost, the next process boots untripped |
| `EngineBreaker.TrippedForGood` | bot/runtime/nav_state.py:83-138 | after the tick that trips, the rest of any run opens nothing and is never clear |
| `EngineBreaker.ResumeAloneDoesNotClear` | bot/runtime/resume.py:66-104 | after a resume the next boot is still tripped; removing the marker as well clears it |
| `EngineBoot.BootIs` | bot/runtime/nav_state.py:28-70 | NAV, peak, both anchors and the flag of a new process in terms of the tables: the peak is the higher of NAV and the latest row's peak |
| `EngineBoot.TrippedAfterRestart` | bot/runtime/nav_state.py:46-50 | a tick of the next process that ends the lifetime fraction below the recorded peak has the breaker tripped from then on |
| `EngineBoot.RollupHandsOnPeak` | bot/analytics/daily.py:137-158 | a committed rollup hands NAV, the highest NAV seen, the flag and the day's anchor on to the next process |
| `EngineBoot.NoEntryUnderCaps` | bot/risk/manager.py:148-159 | a tick that ends below the daily, weekly or lifetime limit has opened no trade |
| `EngineBoot.RollupIs` | bot/analytics/daily.py:137-158 | a rollup that starts and commits changes its row and nothing else |
| `EngineBoot.OneRollupAtATime` | bot/runtime/engine.py:861-885 | while a rollup is under way no other starts, and nothing is stored |
| `EngineBoot.RestartForgets` | bot/runtime/engine.py:690-707 | what a new process keeps and what it forgets |
| `EngineCooldown.DispatchIsCool` | bot/strategies/directional.py:76-80 | what is dispatched is past the cooldown of every earlier exit |
| `EngineCooldown.DispatchedIff` | bot/strategies/base.py:168-176 | exactly which proposals reach the gate |
| `EngineCooldown.EnterStaysCool` | bot/runtime/engine.py:89-105 | the pause after a failed entry cannot shorten a running cooldown |
| `EngineCooldown.ExitCools` | bot/runtime/engine.py:108-124 | another exit on the same underlying cannot shorten a running cooldown |
| `EngineCooldown.CooldownEnds` | bot/runtime/engine.py:108-124 | after an exit the underlying is blocked until exactly the cooldown has passed |
| `EngineCooldown.FailurePauses` | bot/runtime/engine.py:86-105 | after a failed entry it is blocked for exactly five minutes |
| `EngineCooldown.NoReentryBeforeCooldown` | bot/runtime/engine.py:965-990 | in every run of a process an exit and a later entry attempt on one underlying are at least the cooldown apart |
| `EngineCooldown.NoTradeBeforeCooldown` | bot/runtime/engine.py:1041-1077 | the same about the trades table: no directional trade opens within the cooldown of a directional close, in the same tick or later |
| `EngineCooldown.RestartForgetsCooldowns` | bot/strategies/base.py:168-176 | right after a restart every proposal is dispatched |
| `EngineCalendar.WeeklyAnchor` | bot/risk/caps.py:108-112 | on which IST weekday a roll moves the weekly anchor, by the hour of the roll |
| `EngineCalendar.RollsOncePerDate` | bot/runtime/nav_state.py:73-80 | the anchors move only on the first tick of a later date, not on the first tick of a process |
| `EngineLoop.NavTracker.RollDay` | bot/risk/caps.py:108-112 | after a roll no daily cap is tripped, on a UTC Monday no weekly one either, and the breaker's verdict is unchanged |
| `EngineLoop.TradingEngine.constructor` | bot/runtime/engine.py:702-707 | the first process boots as a restart does |
| `EngineLoop.TradingEngine.SumClosed` | bot/runtime/nav_state.py:18-25 | the sum over closed trades |
| `EngineLoop.TradingEngine.LoadNav` | bot/runtime/nav_state.py:28-70 | the rebuilt tracker depends on the tables, the marker and the date only |
| `EngineLoop.TradingEngine.AccountingSnapshot` | bot/runtime/engine.py:313-321 | the counting loop gives the open counts, in total and per strategy |
| `EngineLoop.TradingEngine.MaybeRoll` | bot/runtime/nav_state.py:73-80 | rolls the anchors exactly when a later IST date is seen, and remembers the date |
| `EngineLoop.TradingEngine.PersistExit` | bot/runtime/engine.py:546-646 | on success books the realised PnL once in NAV and in the row; starts the directional cooldown either way |
| `EngineLoop.TradingEngine.RunExits` | bot/runtime/engine.py:940-1000 | the loop over the trades open at the start of the tick exits exactly those with a CLOSE, in order |
| `EngineLoop.TradingEngine.EvaluateAll` | bot/strategies/directional.py:65-80 | the proposals that are not directional on a cooling underlying, in order |
| `EngineLoop.TradingEngine.PersistEntry` | bot/runtime/engine.py:324-420 | stores the trade OPEN, then completes its premium columns or marks it ERRORED and pauses the underlying |
| `EngineLoop.TradingEngine.RunEntries` | bot/runtime/engine.py:1041-1078 | gating with a snapshot refreshed only after entries equals gating with an exact one |
| `EngineLoop.TradingEngine.SyncBreaker` | bot/runtime/nav_state.py:124-138 | trips, persists row and marker, or dies on a refused row, as the specification of the sync says |
| `EngineLoop.TradingEngine.Tick` | bot/runtime/engine.py:887-1107 | one iteration of the loop is `DoTick`, the function all run theorems are about |
| `EngineLoop.TradingEngine.BeginRollup` | bot/runtime/engine.py:875-881 | reads NAV, raised peak and flag of that moment, unless a rollup is under way |
| `EngineLoop.TradingEngine.FinishRollup` | bot/analytics/daily.py:137-158 | writes what was read over the date's row, unless its NAV is negative |
| `EngineLoop.TradingEngine.Reboot` | bot/runtime/nav_state.py:28-70 | a new tracker from the tables and the marker; cooldowns, last date and crash are forgotten |
| `Risk.BreakerIff` | bot/risk/caps.py:43-63 | with a positive peak the division-free loss condition is the breaker's |
| `RiskGate.CapsMean` | bot/risk/caps.py:43-83 | which cap trips, in order breaker, week, day, each exactly when its part of a positive anchor is lost; raising exactly for a zero NAV without a peak |
| `Risk.GreekCapSound` | bot/desk/greek_sizing.py:16-50 | a greek cap never drops a trade and leaves more than one lot only within its limit |
| `RiskGate.GreekCapIsLargest` | bot/desk/greek_sizing.py:16-50 | a greek cap gives the largest size that is one lot or within the limit |
| `Risk.SizedWithinBudget` | bot/risk/manager.py:206-312 | approved risk is lots times per-lot risk, positive, within the budget and both lot limits |
| `RiskGate.SizedIsLargest` | bot/risk/manager.py:206-312 | sizing approves exactly when one lot fits, then for the largest size that fits requested and allowed lots, share of NAV, premium cap and greek limits; otherwise which refusal |
| `Risk.ApprovalMeans` | bot/risk/manager.py:133-204 | an approval implies open window, untripped breaker, room in both limits and a risk within the strategy's share of NAV |
| `RiskGate.ApprovedIff` | bot/risk/manager.py:133-204 | the gate approves exactly an intent with open window, no breaker, no weekly and no daily loss, enabled strategy, room in both limits and no desk rejection of which one lot fits, and sizes it maximally |
| `RiskGate.RefusedFor` | bot/risk/manager.py:133-204 | which refusal is given, in the order of the checks |
| `ReconcileRun.IndexLive` | bot/execution/reconcile.py:112-116 | the index of live orders by client id, later entries winning |
| `ReconcileRun.FindForeign` | bot/execution/reconcile.py:118-129 | exactly the live ids without an open row, in order |
| `ReconcileRun.NewestRows` | bot/execution/reconcile.py:168-180 | the newest order of every leg, first row among equals |
| `ReconcileRun.IsMixed` | bot/execution/reconcile.py:168-186 | decides whether a filled leg stands beside one that has not ended |
| `ReconcileRun.OrderReconciler.RepairOrders` | bot/execution/reconcile.py:131-163 | the loop repairs every open order, and counts and reports exactly what it should |
| `ReconcileRun.OrderReconciler.CheckGroups` | bot/execution/reconcile.py:165-194 | reports exactly the open trades with mixed legs |
| `ReconcileRun.OrderReconciler.CloseCanceled` | bot/execution/reconcile.py:196-211 | closes exactly the open trades whose leg orders were all canceled, with their legs |
| `ReconcileRun.OrderReconciler.Run` | bot/execution/reconcile.py:86-223 | the new database and the report of a whole run |
| `ReconcileProofs.CleanIff` | bot/execution/reconcile.py:86-211 | a run reports nothing exactly when the listing worked, every live id has an open row, no lookup was inconclusive and no open trade is mixed |
| `ReconcileProofs.CleanRunRepairs` | bot/execution/reconcile.py:86-163 | after a clean run every formerly open order equals its live state or ended filled or canceled, all others are untouched, no live id is unknown |
| `ReconcileProofs.EndedOrderIsBooked` | bot/execution/reconcile.py:135-158 | what a run writes to a formerly open order that is no longer listed: size and price of a fill, or the former quantity and price where the answer gives none; otherwise only the state; no other column |
| `ReconcileProofs.ListedOrderFollows` | bot/execution/reconcile.py:159-163 | a listed open order takes the state of its last entry, or "open", and keeps every other column |
| `ReconcileProofs.ListingFailureHalts` | bot/execution/reconcile.py:103-110 | if the listing fails nothing changes and that is reported |
| `ReconcileProofs.OtherRowsDecideNothing` | bot/execution/reconcile.py:167-211 | rows of other trades or without a leg number decide nothing about a trade |
| `ReconcileProofs.NoLegOrdersNoVerdict` | bot/execution/reconcile.py:171-172 | an open trade without leg orders is left alone |
| `ReconcileProofs.CleanRunCoherent` | bot/execution/reconcile.py:165-194 | a trade left open has no live leg beside a filled one |
| `ReconcileProofs.RepairedTwice` | bot/execution/reconcile.py:131-163 | repairing is idempotent per order |
| `ReconcileProofs.SecondRunIsFixpoint` | bot/execution/reconcile.py:86-211 | against an open list of open-type states a second run changes and reports nothing |
| `ReconcileProofs.SecondRunHalts` | bot/execution/reconcile.py:86-211 | against any other open list the second run halts |
| `ReconcileProofs.IdempotentIff` | bot/execution/reconcile.py:86-211 | after a clean run a second one changes and reports nothing exactly when the open list shows only open-type states |
| `ReconcileProofs.OnlyOpenOrdersAreLookedUp` | bot/execution/reconcile.py:95-163 | the new database and the report depend on the lookups of open orders alone |
| `ReconcileProofs.HalfFilledReportedIff` | bot/execution/reconcile.py:165-194 | an open trade with a filled and an unfilled leg is reported exactly when some leg also hangs on an order that has not ended |
| `ReconcileProofs.NakedLegPasses` | bot/execution/reconcile.py:165-211 | a trade with a filled and a canceled leg passes clean and stays open |
| `ReconcileProofs.CanceledForSureIff` | bot/execution/reconcile.py:131-149 | an order the run marks canceled is known to have ended unfilled exactly when its lookup was answered and showed no fill |
| `ReconcileProofs.FailedLookupsCloseTrade` | bot/execution/reconcile.py:196-211 | a trade whose leg orders are all marked so is closed with its legs and not reported as mixed |
| `ReconcileProofs.PartialFillIsDropped` | bot/execution/reconcile.py:137-149 | a half-filled canceled order: the run is clean, records nothing filled and closes the trade |
| `ReconcileProofs.ForeignWordsHalt` | bot/execution/reconcile.py:150-158 | an open order that the exchange words "cancelled" or "closed" is reported and halts the boot |
| `ReconcileProofs.OrdersCounted` | bot/execution/reconcile.py:95-102 | the report counts every open order once |
| `ReconcileProofs.TradesCounted` | bot/execution/reconcile.py:90-93 | and every open trade once |
| `Candles.Extremes` | bot/data/candles.py:82-88 | batch highs and lows are attained bounds of the ticks |
| `Candles.BatchStep` | bot/data/candles.py:76-117 | how one more tick changes the batch |
| `Candles.StreamIsBatch` | bot/data/candles.py:76-117 | for ticks in bucket order the stream is one candle per bucket: true OHLCV where there are ticks, a flat filler at the prior close elsewhere |
| `Candles.CandleAggregator.Create` | bot/data/candles.py:70-74 | refused exactly for an unknown timeframe, otherwise nothing seen yet |
| `Candles.CandleAggregator.CloseCurrent` | bot/data/candles.py:111-117 | appends the open candle to the bounded history |
| `Candles.CandleAggregator.FillGap` | bot/data/candles.py:89-96 | the loop emits the fillers up to the tick's bucket |
| `Candles.CandleAggregator.AddTick` | bot/data/candles.py:76-97 | one tick, with the bounded history |
| `Candles.CandleAggregator.ForceClose` | bot/data/candles.py:119-124 | closes the open candle and returns it |
| `Candles.Feed` | bot/data/candles.py:76-117 | an unknown timeframe is refused; otherwise after any ordered ticks closed plus current candles are the `history`-bounded suffix of the batch |
| `Candles.TimeframesNest` | bot/data/candles.py:20-30 | the known timeframes and their periods |
| `Indicators.Ema` | bot/data/candles.py:144-155 | the loop computes the EMA recurrence at every index |
| `Indicators.EmaBounded` | bot/data/candles.py:144-155 | every EMA value lies between any bounds of its input prefix |
| `Indicators.EmaIsWeightedSum` | bot/data/candles.py:144-155 | the EMA is the exponentially weighted sum with weight 2 / (period + 1), the first value carrying what is left |
| `Indicators.FastLeads` | bot/data/candles.py:144-155 | on rising values the faster EMA is never below the slower one nor above the last value |
| `Indicators.EmaAffine` | bot/data/candles.py:144-155 | the EMA commutes with affine maps |
| `Indicators.Atr` | bot/data/candles.py:158-179 | the loops compute true ranges, their first mean and Wilder's recurrence; undefined before |
| `Indicators.TrueRangeIsSpan` | bot/data/candles.py:158-170 | a true range is the span of the bar together with the prior close |
| `Indicators.AtrBounded` | bot/data/candles.py:158-179 | every ATR value lies between any bounds of the ranges so far |
| `Indicators.AtrConserves` | bot/data/candles.py:158-179 | period times the ATR is the sum of all ranges less the averages they replaced |
| `Indicators.AtrNonNegative` | bot/data/candles.py:158-179 | if the first bar's high is not below its low, every defined ATR value is not negative and at most the largest range so far |
| `Indicators.AtrScales` | bot/data/candles.py:158-179 | the ATR is proportional to the ranges |
| `TrendSignal.AtrAlwaysReady` | bot/strategies/trend_signal.py:20-34 | with enough bars the ATR is defined, so its missing-value branch is dead |
| `TrendSignal.AnsweredIff` | bot/strategies/trend_signal.py:13-34 | with positive periods there is an answer exactly with enough bars for every part |
| `TrendSignal.SetupsMean` | bot/strategies/trend_signal.py:20-38 | long exactly if the fast EMA exceeds the slow one and the close every prior high by more than the multiple of the ATR; short the other way round with the lows |
| `TrendSignal.TrendIsFollowed` | bot/strategies/trend_signal.py:20-38 | rising closes never give a short setup, falling ones never a long one |
| `TrendSignal.BreakoutIsLong` | bot/strategies/trend_signal.py:20-38 | a concrete upward breakout is long |
| `TrendSignal.SignalSymmetry` | bot/strategies/trend_signal.py:13-38 | any rising affine map of prices keeps the signal, any falling one (a reflection) swaps long and short |
| `TrendSignal.NeverBoth` | bot/strategies/trend_signal.py:20-38 | with a non-negative multiplier and the first bar's high not below its low the setups exclude each other |
| `TrendSignal.SpikeTriggersBoth` | bot/strategies/trend_signal.py:20-38 | for every negative multiplier there are bars on which both hold |
| `TrendSignal.ExclusiveIff` | bot/strategies/trend_signal.py:20-38 | the setups exclude each other on all bars with high at least low exactly when the multiplier is not negative |
| `Exits.PositionRuntime.constructor` | bot/exits/engine.py:45-56 | a new runtime has no stop and zero peaks |
| `Exits.PositionRuntime.RefreshTrend` | bot/exits/engine.py:92-121 | peaks, troughs, the seen mid and the stop shown to the strategy |
| `Exits.PositionRuntime.RefreshSpread` | bot/exits/engine.py:123-134 | the loop adds up the unwind cost, or leaves everything alone if a quote is missing |
| `Exits.PositionRuntime.RefreshStraddle` | bot/exits/engine.py:136-143 | the loop adds up the total premium, or leaves everything alone if a quote is missing |
| `Exits.PositionRuntime.TranslateActions` | bot/exits/engine.py:145-180 | the directives and the remembered stop, action by action |
| `Exits.PositionRuntime.Advance` | bot/exits/engine.py:81-90 | refresh, `manage` and translation together, for all three strategies |
| `ExitProofs.TranslateKeepsChain` | bot/exits/engine.py:145-222 | whatever a strategy asks for, emitted stops keep their chain |
| `ExitProofs.EmittedIff` | bot/exits/engine.py:205-222 | exactly when a trailing request becomes a stop update |
| `ExitProofs.StopsMoveOneWay` | bot/exits/engine.py:165-222 | whatever actions a strategy returns tick by tick, any two stops emitted over the life of a runtime are the throttle apart and the later one is strictly higher for a call, strictly lower for a put |
| `ExitProofs.PutStopsLoosen` | bot/exits/engine.py:219-222 | so a call's later stop closes at every mid the earlier one did and more, a put's only at fewer: the rule tightens calls and loosens puts |
| `ExitProofs.LifeIsAnyLife` | bot/exits/engine.py:81-90 | the lives of the built-in strategies are among the arbitrary ones |
| `ExitProofs.TwoStops` | bot/exits/engine.py:165-222 | a concrete life that emits two stops and has a third held back by the throttle |
| `ExitProofs.OneDirective` | bot/strategies/directional.py:298-361 | a tick yields at most one directive |
| `ExitProofs.StopIsFinal` | bot/strategies/directional.py:347-357 | a directional stop is never moved |
| `ExitProofs.OneStopEver` | bot/strategies/directional.py:347-357 | a directional runtime emits at most one stop |
| `ExitProofs.StopIsHonoured` | bot/strategies/directional.py:325-332 | after it every tick with a known mid at or below it closes |
| `ExitProofs.PersistedStopIsForgotten` | bot/exits/engine.py:121-121 | a new runtime steps as if no stop had been persisted, and which quotes then leave the position open |
| `ExitProofs.ClosesWhen` | bot/strategies/directional.py:298-361 | exactly when a directional step closes |
| `ExitProofs.ClosesAs` | bot/strategies/directional.py:298-345 | for which reason a directional step closes, in the order of the checks |
| `ExitProofs.UnderlyingStopMeans` | bot/strategies/directional.py:333-345 | the underlying stop: not in profit, and the underlying against the option by the multiple of the ATR |
| `ExitProofs.StopGoesOutWhen` | bot/strategies/directional.py:347-357 | the break-even stop goes out exactly if nothing closes, no stop is held and the best PnL has reached the multiple of what was paid |
| `ExitProofs.PeaksAreExtremes` | bot/exits/engine.py:103-113 | peak and trough are the extremes of the PnLs seen, and of 0 |
| `ExitProofs.UnderlyingExtremes` | bot/exits/engine.py:114-120 | peak and trough of the underlying are the extremes of the prices seen, unknown as long as none was |
| `ExitProofs.CallStop` | bot/exits/engine.py:182-203 | a call's stop is its entry premium, or peak underlying minus multiple of ATR if that is higher |
| `ExitProofs.PutStop` | bot/exits/engine.py:202-203 | a put's stop is its entry premium, or the lowest underlying plus the multiple of ATR if that is lower |
| `ExitProofs.SurvivalIff` | bot/strategies/directional.py:319-332 | a call holding a stop can outlive a quote exactly when the stop is below the target |
| `ExitProofs.ChandelierForcesClose` | bot/exits/engine.py:199-203 | after its stop a call can outlive another quote exactly when peak underlying minus multiple of ATR stayed below the target premium |
| `ExitProofs.ChandelierExample` | bot/exits/engine.py:199-203 | a concrete call whose stop comes out at 59000 against a target of 300, and which no quote leaves open |
| `ExitProofs.StraddleClosesWhen` | bot/strategies/long_straddle.py:216-235 | exactly when and why a straddle closes; never on a missing or non-positive total |
| `ExitProofs.SpreadClosesWhen` | bot/strategies/credit_vertical.py:237-255 | exactly when and why a spread closes, an unknown cost counting as nothing |
| `ExitProofs.UnwindCostIff` | bot/exits/engine.py:123-134 | without sides the cost misses the sold legs twice; it is right exactly when they are worthless |
| `ExitProofs.SidedCostIsTrue` | bot/exits/engine.py:123-134 | if the legs carry their sides the computed unwind cost is the true cost of closing |
| `ExitProofs.TwoLegCost` | bot/exits/engine.py:123-143 | for two legs the true cost is the sold mid less the bought one, and the total premium their sum |
| `ExitProofs.SpreadClosesAtOnce` | bot/strategies/credit_vertical.py:237-255 | a spread as the engine rebuilds it closes on every tick, never by its stop loss |
| `RateLimit.TokensStayInRange` | bot/exchange/rate_limit.py:41-61 | in every run tokens stay between 0 and the capacity |
| `RateLimit.Potential` | bot/exchange/rate_limit.py:41-61 | what was granted plus what is left is covered by capacity and refill |
| `RateLimit.WindowBound` | bot/exchange/rate_limit.py:41-61 | between any two steps of any run at most capacity + rate * elapsed is granted |
| `RateLimit.AllowanceIsReached` | bot/exchange/rate_limit.py:41-61 | a full bucket has a run that is granted exactly capacity + rate * window within one window |
| `RateLimit.EnforcesIff` | bot/exchange/rate_limit.py:13-61 | a full bucket keeps "limit per window" exactly when capacity + rate * window is at most the limit |
| `RateLimit.DocumentedWindowIsExceeded` | bot/exchange/rate_limit.py:1-5 | the documented limit is exceeded; twice it is kept |
| `RateLimit.TokenBucket.Create` | bot/exchange/rate_limit.py:22-32 | which arguments are refused, and the new bucket is full |
| `RateLimit.TokenBucket.Refill` | bot/exchange/rate_limit.py:41-46 | the new contents are capped at the capacity and stamped with the reading; nothing happens if the clock has not advanced |
| `RateLimit.TokenBucket.Acquire` | bot/exchange/rate_limit.py:48-61 | refused amounts; otherwise the loop takes exactly `n` at the first reading that has enough, and returns by its second poll if the clock shows an exact sleep |
| `RateLimit.OneSleepSuffices` | bot/exchange/rate_limit.py:48-61 | with an exact sleep the second poll is granted |
| `RateLimit.ServedAfterOneSleep` | bot/exchange/rate_limit.py:48-61 | in any run a refused poll is followed, after an exact sleep, by a granted one, whatever snapshots are taken in between |
| `RateLimit.ShorterSleepFails` | bot/exchange/rate_limit.py:48-61 | a second poll before the computed sleep has passed is refused again |
| `Premium.ExitCashflow` | bot/execution/premium.py:37-45 | the loop computes the negated net premium |
| `Premium.SplitRecombines` | bot/execution/premium.py:10-34 | splitting per lot and multiplying back is exact exactly for at least one lot or nothing to split |
| `Premium.OneColumn` | bot/execution/premium.py:10-19 | a premium paid fills one column, a credit the other, nothing neither, with positive amounts |
| `Premium.LegsConserve` | bot/execution/premium.py:22-59 | entry and exit premiums together are the negated sum of leg PnLs |
| `Premium.RealisedIsSumOfLegs` | bot/execution/premium.py:48-59 | realised PnL through the columns is the sum over legs of side times price move times lots |
| `DryExecution.DryExecutor.FillLegs` | bot/execution/dry.py:120-162 | one fill per leg, priced or rejected |
| `DryExecution.FilledIff` | bot/execution/dry.py:120-162 | a leg fills whole exactly with a positive mid, otherwise not at all and at no cost |
| `DryExecution.Digits` | bot/execution/dry.py:140-150 | simulated prices have four digits after the point |
| `DryExecution.DryExecutor.SubmitEntry` | bot/execution/dry.py:49-69 | success exactly when every leg has a positive mid; only then ids are recorded |
| `DryExecution.DryExecutor.SubmitExit` | bot/execution/dry.py:71-95 | flips every leg and always reports success |
| `DryExecution.LegRoundTrip` | bot/execution/dry.py:120-162 | one leg of a round trip never gains and costs at most twice the slip budget plus rounding |
| `DryExecution.DryRoundTrip` | bot/execution/dry.py:49-95 | a dry round trip at unchanged mids has PnL at most 0 and at least minus lots times the summed costs |
| `ChainCache.BucketIsOneDate` | bot/data/chain_cache.py:115-136 | a bucket holds exactly the future instants of one date, a Friday for the weekly ones |
| `ChainCache.KnownDates` | bot/data/chain_cache.py:99-130 | weekdays and expiry time checked on known dates |
| `ChainCache.SameBucketSameExpiry` | bot/data/chain_cache.py:99-136 | two expiries of one bucket are the same instant |
| `ChainCache.Cache.UpsertQuote` | bot/data/chain_cache.py:162-164 | a pushed quote decides whether its own strike can be picked and changes nothing for any other strike |
| `ChainCache.Cache.InstrumentsFor` | bot/data/chain_cache.py:198-214 | the filter loop and the stable sort give the matching instruments in strike order |
| `ChainCache.ListingMatches` | bot/data/chain_cache.py:198-214 | the listing is in strike order and holds the matching instruments, no others |
| `ChainCache.Cache.GetAtmStrike` | bot/data/chain_cache.py:216-245 | the place `offset` above the first of the nearest, or nothing exactly when it is missing or unquoted |
| `ChainCache.AtmIsNearest` | bot/data/chain_cache.py:216-245 | with no offset that is a nearest strike, the lowest among equals |
| `ChainCache.BandAndDistance` | bot/data/chain_cache.py:262-275 | bands and distances go by the absolute delta |
| `ChainCache.Cache.GetStrikeByDelta` | bot/data/chain_cache.py:247-284 | an eligible in-band strike of minimal delta distance, nothing exactly when none is eligible |
| `CreditVertical.Propose` | bot/strategies/credit_vertical.py:77-229 | nothing if a wing has no eligible strike, otherwise exactly what the strikes of minimal delta distance of both wings make; both legs share their expiry instant |
| `CreditVertical.LiquidIff` | bot/desk/leg_liquidity.py:33-60 | which legs pass the liquidity checks |
| `CreditVertical.BuiltIff` | bot/strategies/credit_vertical.py:125-229 | exactly which pairs of strikes make a spread, and its width, credit, maximum loss and rupee figures |
| `CreditVertical.PremiumInrIs` | bot/strategies/base.py:137-146 | rupees per lot, for a positive lot size only |
| `CreditVertical.LossBounded` | bot/strategies/credit_vertical.py:128-191 | at every settlement price the spread earns at most its credit and loses at most `max_loss`, both attained |
| `CreditVertical.CommonLotHolds` | bot/strategies/credit_vertical.py:191-229 | in rupees per lot the declared loss holds for a common lot size |
| `CreditVertical.DeclaredLossIff` | bot/strategies/credit_vertical.py:206-229 | for a really priced long leg the declared rupee loss bounds the loss at every settlement price exactly when both legs have the same lot size |
| `CreditVertical.ApprovedLossWithinShare` | bot/risk/manager.py:238-255 | the sized lots of an approved spread lose at most NAV times risk weight times risk per trade |
| `DailyRollup.GlobalIsSum` | bot/analytics/daily.py:91-110 | the book's totals are the sum of the strategies' totals for every set of trades |
| `DailyRollup.SummariseStep` | bot/analytics/daily.py:202-241 | the columns, each from its own pass, are sums of the trades' contributions |
| `DailyRollup.MeanBetween` | bot/analytics/daily.py:223-228 | an average is missing exactly if no trade has the figure, and lies within any bounds of the figures |
| `DailyRollup.WinsAndLosses` | bot/analytics/daily.py:217-222 | wins, losses and scratches are all trades |
| `DailyRollup.WinRateIs` | bot/analytics/daily.py:217-222 | the win rate times the trades is the wins |
| `DailyRollup.Select` | bot/analytics/daily.py:91-101 | the closed trades of the window |
| `DailyRollup.SelectedIff` | bot/analytics/daily.py:91-101 | a trade is selected exactly if it is closed and exits on that UTC date |
| `DailyRollup.Group` | bot/analytics/daily.py:103-105 | each strategy's trades in order, no empty group, keys in order of first occurrence |
| `DailyRollup.NamesAreStrategies` | bot/analytics/daily.py:106-109 | the report names exactly the strategies with a selected trade, each once, in lexicographic order |
| `DailyRollup.DailyPnlTable.Run` | bot/analytics/daily.py:91-135 | writes one row per strategy of the day and the book's row, which is the sum of those stored rows |
| `DailyRollup.UpsertedRow` | bot/analytics/daily.py:112-135 | which rows a run writes, and that it writes no others |
| `DailyRollup.RerunChangesNothing` | bot/analytics/daily.py:112-135 | re-running on the same trades leaves the table unchanged |
| `DailyRollup.CountedIff` | bot/analytics/daily.py:91-101 | some run counts an exit exactly when the run of its UTC date comes after it |
| `DailyRollup.RollupInUtc` | bot/runtime/engine.py:868-872 | in UTC the rollup runs between 17:05 and 17:30 |
| `DailyRollup.LateExitsAreNeverCounted` | bot/runtime/engine.py:861-885 | no schedule counts an exit at or after 17:30 UTC |
| `PortfolioGreeks.AddTrade` | bot/desk/portfolio_greeks.py:55-76 | one trade adds all its legs to the total and only its last usable leg to the underlying |
| `PortfolioGreeks.FromOpenTrades` | bot/desk/portfolio_greeks.py:33-85 | the nested loops: exact totals and leg counts, and what the per-underlying entries really hold |
| `PortfolioGreeks.TradeCountedIff` | bot/desk/portfolio_greeks.py:55-76 | a trade is counted in full under every market exactly when at most one leg has a side |
| `PortfolioGreeks.BookCounted` | bot/desk/portfolio_greeks.py:33-85 | if every trade of an underlying has at most one sided leg, its entry is the true sum |
| `PortfolioGreeks.CountsIff` | bot/desk/portfolio_greeks.py:91-113 | a leg counts exactly if it is quoted with at least one greek and has a side |
| `PortfolioGreeks.KnownCounted` | bot/desk/portfolio_greeks.py:66-76 | the legs counted as known are those that contribute |
| `PortfolioGreeks.LegsCounted` | bot/desk/portfolio_greeks.py:66-85 | every leg is counted once, as known or as missing |
| `PortfolioGreeks.TotalIsSum` | bot/desk/portfolio_greeks.py:33-85 | the book's total is the sum of its underlyings' true greeks |

## Left out

- HTTP and WebSocket plumbing, signing, retries, wallets: the exchange is an arbitrary environment.
- Live exits, stop updates and `cancel_all_for_trade` (bot/execution/live.py:239-361): the engine sees only the executor's reply.
- Sessions, migrations, ORM columns, journals, reports, metrics, CLI, dashboards, logging: I/O.
- Symbol parsing: instruments carry their parsed fields; that expiries fall on 17:30 is a hypothesis where it is used.
- The middle of a tick: a rollup starts and commits between ticks, with any events in between; one that reads NAV halfway through the exits would store that NAV, with the flag from before the tick.
- Exceptions that leave the executor: in the engine model an executor always answers, with success or failure.
- Several CLOSE directives for one trade in a tick: excluded by `ExitProofs.OneDirective`; the engine model takes at most one.
- Strategy-wide cooldowns, the straddle's exit cooldown, desk gates beyond their verdict, the trading window's hours: arbitrary inputs or easy members.
- Percentile rank, Bollinger width, `pop_closed`, chain refresh: easy members or I/O.
- Float rounding other than tick and digit rounding, NaN.
- Kill switch, go-live gate, configuration loading, decision log.
- EngineAccounting.ReachableRisk: the highest entry NAV is any upper bound of the NAVs recorded with the open trades.
- LiveEntry.NextKeepsInv: assumes that an exchange never overfills an order, reports `filled` only for a whole fill, shows an order as it is, and really ends an order whose cancel it confirms.
- DailyRollup.DailyPnlTable.Run: assumes that no strategy is called `__global__`, which the strategy ids exclude.
