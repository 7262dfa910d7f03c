# Intraday trading bot: a verified model of its decision engine

The repository is an intraday trading bot for Indian markets. Strategies propose signals, an ensemble filter selects
one, an AI verdict and a set of daily risk gates decide about it, a paper or live broker executes it, and a scheduler
marks open trades to market and squares them off before the close. Three backtest engines replay the same decisions
bar by bar. This project models that deterministic core in Dafny and proves what whole runs of it keep.

Code that updates state in place is modelled by methods, loops and classes, each proved equal to a function on values;
the theorems about runs are lemmas about those functions. Prices and money are `real`; `round(x, 2)` is rounding to
the cent with ties to the even cent (module `Rounding`). Market data, strategy signals, AI verdicts, fills, settings
and the wall clock are inputs.

| file | models |
|---|---|
| `Prelude.dfy`, `Rounding.dfy` | options, sums, filters; rounding to the cent |
| `Conviction.dfy`, `SignalMemory.dfy` | the ensemble conviction filter, live and backtest form; the rolling signal deque |
| `Sizing.dfy`, `Risk.dfy` | position size, half-Kelly multiplier, daily risk gates and counters |
| `TradeBook.dfy` | trades table, audit log, execution service |
| `Orchestrator.dfy`, `Calendar.dfy`, `Scheduler.dfy` | one pipeline call; market hours; one scheduler tick |
| `Backtest*.dfy`, `WalkForward.dfy`, `ParityBacktest.dfy` | single, ensemble, walk-forward and parity backtests, and their theorems |
| `LiveBacktest.dfy` | where backtest and live code compute the same thing |
| `Supertrend.dfy`, `Broadcaster.dfy` | the indicator, the event bus |
| `Watchlist.dfy`, `TextLines.dfy`, `EnvFile.dfy`, `EnvEntries.dfy` | the watchlist string, text as lines, the watchlist line of the environment file and the lines around it |

## What the proofs found

- The backtest ratchet can move a stop away from the price, because a level is compared before it is rounded. It can
  do so exactly when the stop lies off the cent grid within half a cent on the price side of its rounding
  (`BacktestRatchet.RatchetLoosensIff`); from a stop on the grid it never does.
- "Don't open new trades after square-off time" (app/services/scheduler.py:323) is false in general: a tick at or past
  that time is safe from new trades if and only if its date has not been squared off before, that is, on the firing
  tick (`Scheduler.NoEntriesIffFirstSquareOff`). Later ticks of the date trade on
  (`Scheduler.SquaredOffTicksTradeOn`, a run of two ticks in `Scheduler.LateEntry`) and are not squared off again
  (`Scheduler.SquareOffOncePerDate`).
- The scheduler does not report its own closes to the risk engine, so the ticks of a day open at most
  `max_open_positions` trades in total, not at a time; only a manual close makes room for another
  (`Scheduler.TradesPerDay`).
- The close endpoint records the profit of an already closed trade again (`Scheduler.SecondCloseRecordsAgain`). The
  open-position counter stays at or above the number of OPEN trades if and only if the closed row was OPEN, or the
  counter was zero, or it exceeded them before (`Scheduler.CounterSurvivesIffAffordable`).
- A date change or a restart clears the counter but not the book: the position limit then bounds the trades the new
  day counts, on top of those carried into it (`Scheduler.DaySafe`).
- The per-trade cap gate can never fire (`Risk.CapGateNeverFires`), and the upper clamp of the half-Kelly multiplier is
  dead: a conclusive history always gives less than one half (`Sizing.KellyFullIffInconclusive`), because half-Kelly
  is half the win rate times the net result over the gross profit (`Sizing.KellyClosedForm`).
- A parity backtest reads the wall clock, not the bars: run in one sitting it records at most `max_trades_per_day`
  trades over the whole data (`ParityBacktest.OneSittingIsOneDay`), and it simulates the stop the AI had replaced
  (`ParityBacktest.AdjustedStopNotSimulated`).
- Saving the watchlist twice leaves the environment file as the second save alone would if and only if the first value
  has no line break other than a final carriage return (`EnvFile.LastSaveWinsIff`). The add request accepts a symbol
  with a line break inside (`EnvFile.BrokenSymbolAccepted`), and the part behind the break is still in the file after
  the next save (`EnvFile.RestStays`).
- The backtest's reward gate refuses one family of signals the live gate lets through: a target on a signal whose stop
  is its entry (`LiveBacktest.RewardGatesAgree`).
- The Supertrend line can lie on the wrong side of the close: exactly when the bands are crossed around it
  (`Supertrend.LineOnTrendSideIff`, witness `Supertrend.WickTraps`).

## Model

| member | source | states |
|---|---|---|
| BacktestNoLookahead.StateFromPrefix | app/backtest/runner.py:471-542 | histories agreeing on the first n bars give the same state after n bars: open trade, capital, cooldown and signal buffer, for the single and the ensemble engine |
| BacktestNoLookahead.NoLookahead | app/backtest/runner.py:597-687 | trades settled on the first n bars are a prefix of the full run's trades; the short run adds at most one end-of-data record |
| BacktestNoLookahead.TradesGrow | app/backtest/runner.py:478-497 | over any further bars the record list only grows at its end |
| BacktestRatchet.RatchetClosedForm | app/backtest/runner.py:283-297 | from a stop on the cent grid, the carried stop is the extreme of the initial stop and of every held bar's close less (long) or plus (short) its ATR multiple, rounded |
| BacktestRatchet.RatchetNeverLoosens | app/backtest/runner.py:283-297 | from a stop on the cent grid, no later stop is less protective than an earlier one |
| BacktestRatchet.RatchetLoosensIff | app/backtest/runner.py:286-297 | some bar can loosen the stop if and only if the stop is off the grid and rounds away from the price by less than half a cent |
| BacktestRatchet.TrailedIff | app/backtest/runner.py:283-297 | a trade is marked trailed exactly when some held bar's close less or plus its ATR multiple, unrounded, beat the stop in force; until then the stop is the initial one |
| BacktestRatchet.EveryTradeExplained | app/backtest/runner.py:478-542 | every record of every run is the first bar that touches the stop or target in force, or the end of data if none does |
| BacktestRatchet.EveryRecordPriced | app/backtest/runner.py:265-370 | every record of every run with an initial stop on the grid, in bar fields: no earlier bar came to a level or the target; the recorded stop is the extreme level; the exit is that stop if the bar reaches it (trailing exactly if a level had moved it), else the target, which the bar reaches, or the last close; the profit is net |
| BacktestRatchet.EveryRecordNetted | app/backtest/runner.py:302-320 | every record of every run, end of data included: profit is price move times quantity less exit slippage and half the round-trip fee, rounded |
| BacktestCapital.RiskHoldsIffTargetSafe | app/backtest/runner.py:262-307 | no bar makes a position lose more than its risk if and only if its target costs no more than its stop |
| BacktestCapital.CapitalLowerBound | app/backtest/runner.py:425-546 | without costs, on grid prices and safe targets, capital after k trades is at least capital * (1 - risk)^k, whatever the exits |
| BacktestCapital.FlatRoundTrip | app/backtest/runner.py:302-309 | a position the engine opens at a price and leaves at it loses two slippages, half the round-trip fee and the rounding of its fill, at most half a cent per unit |
| BacktestCapital.OppositeTradesLoseCosts | app/backtest/runner.py:345-356 | opposite positions on the same prices lose exactly their costs between them |
| BacktestMirror.RunFlips | app/backtest/runner.py:425-696 | with zero slippage, the run on negated prices and flipped signals is the mirror of the run, single or ensemble |
| BacktestMirror.MirroredTrades | app/backtest/runner.py:231-324 | the mirrored run has the same entry and exit bars, quantities, reasons, holding times, profits and capital |
| BacktestMirror.WinnerFlips | app/backtest/runner.py:170-209 | the ensemble choice commutes with flipping sides, ties and contributors included |
| BacktestTiling.RunTiles | app/backtest/runner.py:478-542 | positions overlap at most in an endpoint, bars held sum to at most n - 61, consecutive entries are at least the cooldown apart, capital is start plus recorded profits |
| BacktestEntries.EveryEntryFair | app/backtest/runner.py:499-542 | every position of every run: opened on the signal picked on its bar, at that close with slippage, rounded, on the signal's stop and target, rewarding, in the largest affordable size on the capital recorded up to then |
| BacktestEntries.FlatBarEnters | app/backtest/runner.py:499-542 | a flat bar opens a position exactly when every earlier entry lies the cooldown back, a signal is picked, it passes the reward gate and one lot of it is affordable |
| BacktestEntries.BufferRefinesLog | app/backtest/runner.py:632-648 | an ensemble's buffer is its unpruned log of signals from evaluated bars cut to the window of the last evaluation |
| BacktestEntries.OpenExact | app/backtest/runner.py:512-538 | a signal is traded if and only if the reward gate passes and one whole lot is affordable at a stop off the fill |
| Backtest.SimulateTrade | app/backtest/runner.py:231-324 | one bar of an open trade, updated in place, is the specified exit or ratchet step |
| Backtest.CloseAtLast | app/backtest/runner.py:327-370 | an open trade is closed at the last close with the end-of-data reason |
| Backtest.RunBacktest | app/backtest/runner.py:471-542 | the single-strategy loop computes the specified run's trades and capital |
| Backtest.RunEnsembleBacktest | app/backtest/runner.py:549-696 | the ensemble loop with its signal buffer computes the specified run's trades and capital |
| Backtest.JudgeBar | app/backtest/runner.py:632-654 | inline buffer merge and conviction filter equal the specified evaluation of the bar |
| WalkForward.EvaluatedOnce | app/backtest/runner.py:997-1021 | every bar from the end of training (or warm-up) to the end of the last whole window is evaluated in exactly one window, no other bar in any |
| WalkForward.TradesStayInWindow | app/backtest/runner.py:1005-1021 | every trade opens and closes on bars evaluated in its own window |
| WalkForward.WindowBlocks | app/backtest/runner.py:1000-1021 | the aggregate of a name is one block per whole window, in order; for a name used once a block is a fresh run on the test bars after at most 60 bars of warm-up |
| WalkForward.WalkForward | app/backtest/runner.py:964-1054 | the window loop terminates and collects, per strategy name, the trades of every whole window in order |
| WalkForward.RunAll | app/backtest/runner.py:471-546 | strategies are run independently of each other |
| ParityBacktest.RunParity | app/backtest/runner.py:856-945 | the parity loop over the live pipeline object computes the specified trades and leaves the specified pipeline state |
| ParityBacktest.EveryRecordGross | app/backtest/runner.py:871-945 | every record carries the profit of its own prices and quantity, without costs |
| ParityBacktest.EveryRecordAccounted | app/backtest/runner.py:871-945 | every record is the first touch, or the end-of-data close, of a position opened at the rounded close of its bar |
| ParityBacktest.EntryIsExecution | app/backtest/runner.py:903-933 | a position is opened exactly when the pipeline executes on that bar, at the rounded close, in the quantity of the executed row |
| ParityBacktest.BusyBarSkipsPipeline | app/backtest/runner.py:875-901 | while a position stays open the pipeline is not called and the stop only ratchets |
| ParityBacktest.OneSittingIsOneDay | app/backtest/runner.py:871-945 | in one wall-clock day: at most max_trades_per_day trades in all, realised result equal to the sum of profits and above minus cap minus one worst loss |
| ParityBacktest.AdjustedStopNotSimulated | app/backtest/runner.py:922-933 | the simulated stop is the signal's original one although sizing and execution use the AI's |
| Conviction.WinnerSound | app/engine/orchestrator.py:76-145 | a selected signal is strong, has the agreement, sits on a side not beaten in (count, average), and is most confident there; nothing is selected only if no side agrees |
| Conviction.WinnerComplete | app/engine/orchestrator.py:122-134 | as soon as one side reaches the required agreement a signal is selected |
| Conviction.WinnerExact | app/engine/orchestrator.py:104-145 | a signal is selected if and only if its side leads (more strong signals, then higher total confidence, then first to appear) with the agreement, and it is the first of the most confident there |
| Conviction.MostConfidentIsFirst | app/engine/orchestrator.py:136-137 | ties in confidence go to the earliest signal |
| Conviction.SelectBestSignal | app/engine/orchestrator.py:70-145 | the live filter returns the specified winner for every signal list and threshold |
| Conviction.PickEnsembleSignal | app/backtest/runner.py:170-209 | the backtest filter returns the same winner; its contributors are a sorted permutation of the winning side's strategies |
| Conviction.GroupBySide | app/engine/orchestrator.py:111-114 | the grouping loop partitions the strong signals by side in order of first appearance |
| SignalMemory.PruneIsWithin | app/engine/orchestrator.py:306-309 | on a tick-sorted deque, popping expired entries at the front removes every expired entry |
| SignalMemory.LatestCorrect | app/engine/orchestrator.py:311-316 | the merged list holds exactly the last signal of every strategy, in order of first appearance |
| SignalMemory.PushAndPrune | app/engine/orchestrator.py:302-309 | appending and popping loops compute the specified buffer |
| SignalMemory.LatestByStrategy | app/engine/orchestrator.py:311-316 | the dictionary loop computes the merged list |
| SignalMemory.AdjustLatestExact | app/engine/orchestrator.py:399-434 | only the last buffered entry of the strategy changes, and only its stop |
| SignalMemory.AdjustWithin | app/engine/orchestrator.py:399-434 | overwriting the stop of the buffered Signal object is overwriting it in the full history |
| Orchestrator.MemoryRefinesHistory | app/engine/orchestrator.py:242-325 | over any interleaving of symbols, a symbol's deque is its full non-cooldown history cut to the window of its last merge |
| Orchestrator.ConvictionSound | app/engine/orchestrator.py:242-268 | every selection over a run is convincing on the full in-window history: enough distinct strategies back its side with their latest signal |
| Orchestrator.SelectionsSpaced | app/engine/orchestrator.py:244-264 | two selections for one symbol are at least the cooldown of calls apart |
| Orchestrator.AwakeIff | app/engine/orchestrator.py:244-254 | a call is past the cooldown if and only if the cooldown is off or every earlier selection for its symbol lies that many calls back |
| Orchestrator.SelectionExact | app/engine/orchestrator.py:242-268 | what each call selects: nothing in cooldown, else the winner on the full history within the window, or on its own signals with memory off |
| Orchestrator.TickCountsCalls | app/engine/orchestrator.py:242 | the tick counter counts calls over all symbols |
| Orchestrator.OutcomeIffSelected | app/engine/orchestrator.py:257-273 | a call reports an outcome exactly when it selects a signal |
| Orchestrator.ProcessFacts | app/engine/orchestrator.py:411-470 | a selected signal changes counters and book as one approved entry with the adjusted stop, or not at all |
| Orchestrator.ExecutedRow | app/engine/orchestrator.py:411-470 | the row an executed selection leaves: adjusted stop, fill or entry price, and the largest whole-lot quantity the Kelly share of the risk budget pays for at that stop |
| Orchestrator.Pipeline.MergeWithBuffer | app/engine/orchestrator.py:275-325 | the buffer update and the merged list are the specified ones |
| Orchestrator.Pipeline.ProcessOne | app/engine/orchestrator.py:365-470 | verdict, gates, execution and counters in this order, and the in-place stop adjustment |
| Orchestrator.Pipeline.Run | app/engine/orchestrator.py:207-273 | one call moves memory, counters, book and outcome as specified |
| LiveBacktest.PickIsSelection | app/backtest/runner.py:629-654 | over every run of bars and calls without cooldown or moved stops, from empty memories and different clocks, every pick of the ensemble backtest is the live selection and the buffers stay equal up to the clock distance |
| LiveBacktest.EngineFollowsLive | app/backtest/runner.py:596-685 | up to and including its first entry the backtest engine opens exactly the trades of the live selections, at the bar's close |
| LiveBacktest.FirstTradeIsFirstSelection | app/backtest/runner.py:596-685 | whatever cooldown and verdicts are, the backtest has not traded before the first live selection, and at it opens that trade if its own gates let it |
| LiveBacktest.RewardGatesAgree | app/backtest/runner.py:212-228 | the backtest gate passes exactly when the live gate does and no gated target sits on a signal whose stop is its entry |
| LiveBacktest.ProfitsAgree | app/services/execution_service.py:25-38 | live and backtest profit formulas agree before costs |
| LiveBacktest.BreachIsExitOnFlatBar | app/services/execution_service.py:272-297 | marking to market at a price breaches for the reason a one-price bar would exit, at or beyond its level |
| Sizing.LargestAffordable | app/engine/risk_engine.py:57-78 | a lot multiple is affordable exactly when it does not exceed the computed size |
| Sizing.KellyRange | app/engine/risk_engine.py:81-108 | the multiplier lies in [0.25, 1] |
| Sizing.KellyFullIffInconclusive | app/engine/risk_engine.py:95-108 | the multiplier is 1 exactly on inconclusive histories and below one half on all others |
| Sizing.KellyClosedForm | app/engine/risk_engine.py:95-108 | on a conclusive history the multiplier is half the win rate times net over gross profit, at least 1/4 |
| Sizing.ConclusiveIff | app/engine/risk_engine.py:95-105 | a history is conclusive exactly with at least five trades, a profit and a loss |
| Sizing.KellyPermutation | app/engine/risk_engine.py:95-108 | the multiplier does not depend on the order of the trades |
| Sizing.KellyScale | app/engine/risk_engine.py:95-108 | the multiplier does not depend on the currency unit |
| Risk.DailyLossBound | app/engine/risk_engine.py:149-191 | over every day of entries and closes, the loss exceeds the cap by at most one worst loss per position slot and per unmatched close; positions and trades respect their limits |
| Risk.CapGateNeverFires | app/engine/risk_engine.py:196-206 | in no run is an entry refused for exceeding the per-trade cap, and approved entries respect it |
| Risk.ApprovedIff | app/engine/risk_engine.py:177-215 | approval holds exactly when every remaining gate passes, with one whole lot affordable and reward at least ratio times risk |
| Risk.ApprovedQty | app/engine/risk_engine.py:186-215 | the approved quantity is the largest multiple of the lot whose risk fits the Kelly share of the risk budget |
| Risk.RefusalNamesFirstGate | app/engine/risk_engine.py:177-215 | every reason is given exactly when its gate is the first to fail, in the order of the code |
| Risk.KellyBounded | app/engine/risk_engine.py:134-147 | the stored multiplier stays in [0.25, 1] over every run |
| Risk.RiskEngine.MaybeResetDay | app/engine/risk_engine.py:124-132 | a new date clears all counters, an old one none |
| Risk.RiskEngine.UpdateKellyFraction | app/engine/risk_engine.py:134-147 | the multiplier is recomputed only when Kelly sizing is on |
| Risk.RiskEngine.RecordTradeOpen | app/engine/risk_engine.py:149-152 | both counters go up by one |
| Risk.RiskEngine.RecordTradeClose | app/engine/risk_engine.py:154-161 | the position counter goes down but not below zero, the result accumulates |
| Risk.RiskEngine.Evaluate | app/engine/risk_engine.py:163-215 | day reset, then the gates in order, with the specified decision |
| TradeBook.RunEvolves | app/dal/trade_dal.py:117-184 | over any operations a CLOSED row never changes, an OPEN row keeps its terms, no row or audit entry disappears |
| TradeBook.RunBalanced | app/services/execution_service.py:141-270 | after any run, opening audits match rows, and every CLOSED row has exactly one closing audit with its own price and profit |
| TradeBook.MarkToMarketExact | app/services/execution_service.py:168-227 | an OPEN row with a price at or beyond its stop, or else its target, closes at that price with profit and one audit entry of that cause; every other row and its log stay |
| TradeBook.ForceCloseExact | app/services/execution_service.py:229-270 | every OPEN row closes at its last price, or its entry price without one, with one square-off audit entry; CLOSED rows stay |
| TradeBook.CloseTradeExact | app/services/execution_service.py:141-166 | a manual close of an OPEN row closes it at the given price with one manual audit entry; any other id changes nothing |
| TradeBook.ExecuteExact | app/services/execution_service.py:63-139 | the appended row field by field, and its audit entry |
| TradeBook.MarkReportsClosed | app/services/execution_service.py:168-227 | the ids reported as closed are those of the priced OPEN rows in breach |
| TradeBook.ForceCloseLeavesNoneOpen | app/services/execution_service.py:229-270 | after a forced close no trade is OPEN |
| TradeBook.TradeDAL.FindOpen | app/dal/trade_dal.py:53-59 | returns the OPEN rows in key order |
| TradeBook.TradeDAL.ListOpenSymbols | app/dal/trade_dal.py:61-70 | returns exactly the symbols of OPEN rows |
| TradeBook.TradeDAL.OpenWithAudit | app/dal/trade_dal.py:117-142 | one row and one audit entry are appended |
| TradeBook.TradeDAL.CloseWithAudit | app/dal/trade_dal.py:144-184 | only an OPEN row is closed, with one audit entry; otherwise nothing changes |
| TradeBook.ExecutionService.Execute | app/services/execution_service.py:63-139 | the row takes the fill price, or the signal's entry if the fill is zero |
| TradeBook.ExecutionService.CloseTrade | app/services/execution_service.py:141-166 | closes an OPEN trade, hands back any other unchanged |
| TradeBook.ExecutionService.MarkToMarket | app/services/execution_service.py:168-227 | the row-by-row sweep computes the specified table, audit log and closed list |
| TradeBook.ExecutionService.ForceCloseAll | app/services/execution_service.py:229-270 | the row-by-row sweep closes every OPEN row at its last price, or entry price without one |
| Scheduler.DaySafe | app/services/scheduler.py:283-339 | over any ticks and affordable manual closes within a day: at most one OPEN trade per symbol, and at most the position limit plus the OPEN trades the day's counter missed from its start (carried overnight or over a restart); stale counters and filled buffers included |
| Scheduler.FlatStartCarriesNothing | app/engine/risk_engine.py:124-132 | a day that starts without an OPEN trade misses none, so the position limit itself holds |
| Scheduler.CounterSurvivesIffAffordable | app/routers/trades_router.py:77-93 | a counter at or above the OPEN trades (less those carried) stays so after a manual close of a known row exactly when the row was OPEN, the counter was zero, or it exceeded them |
| Scheduler.TradesPerDay | app/services/scheduler.py:283-339 | from any state, a day of ticks and manual closes opens in total at most the position limit, less what is already counted, plus one per manual close |
| Scheduler.TickRows | app/services/scheduler.py:283-323 | what one tick does to every row: closed at the last fetched price if that reaches stop or target or the tick squares off, at the entry price on square-off without a price, else unchanged |
| Scheduler.TickCalls | app/services/scheduler.py:325-339 | a trading tick that does not square off calls the pipeline once, in order, for every fetched symbol without an OPEN trade after marking |
| Scheduler.SecondCloseRecordsAgain | app/routers/trades_router.py:77-93 | closing a CLOSED row again leaves the book and records its profit again |
| Scheduler.FirstCloseRecords | app/routers/trades_router.py:77-93 | closing an OPEN row closes it at the given price and records that profit |
| Scheduler.FiringTickFlattens | app/services/scheduler.py:311-323 | the tick that squares off leaves no OPEN trade, adds none, and marks its date |
| Scheduler.SquareOffOncePerDate | app/services/scheduler.py:311-317 | with a monotone clock square-off fires at most once per date |
| Scheduler.NoEntriesIffFirstSquareOff | app/services/scheduler.py:311-339 | a tick at or past the square-off time opens no trade, whatever signals, verdicts, settings and fills are, if and only if its date was not squared off before |
| Scheduler.SquaredOffTicksTradeOn | app/services/scheduler.py:311-339 | once a date is squared off, its ticks act as if the square-off time were still ahead |
| Scheduler.LateEntry | app/services/scheduler.py:311-339 | a concrete run of two ticks: the first squares off, the second, a minute later, opens a trade |
| Scheduler.MarketScheduler.RunTick | app/services/scheduler.py:186-346 | one tick: hours, marking, square-off or entries, as specified |
| Scheduler.MarketScheduler.CollectFrames | app/services/scheduler.py:263-272 | one frame per symbol, at the place of its first result and with the contents of its last, and the price of that result |
| Supertrend.UpperIsRunningMin | app/services/market_data.py:195-199 | the upper band is the minimum of the basic bands since the last close through it |
| Supertrend.LowerIsRunningMax | app/services/market_data.py:195-202 | the lower band is the maximum of the basic bands since the last close through it |
| Supertrend.IndicatorPrefix | app/services/market_data.py:160-216 | the indicator on a prefix is the prefix of the indicator |
| Supertrend.LineOnTrendSideIff | app/services/market_data.py:204-212 | the line is on the trend side of the close exactly when the close is not between crossed bands |
| Supertrend.TrendClosedForm | app/services/market_data.py:204-210 | without trapped closes the trend is bearish exactly when the close broke the lower band at some bar and has not broken the upper one since |
| Supertrend.BasicBandsExact | app/services/market_data.py:175-191 | the basic bands are the bar's middle plus and minus the multiplier times the mean true range of the last period bars, the first bar having none |
| Supertrend.LineMonotone | app/services/market_data.py:195-212 | through a run of one trend not starting trapped the line never moves against the trend |
| Supertrend.WickTraps | app/services/market_data.py:195-212 | a concrete frame with default parameters whose line is on the wrong side |
| Supertrend.Compute | app/services/market_data.py:160-216 | the in-place loop fills direction and line as specified, undefined before the first full period; with period 1 the line stays undefined and the trend bullish |
| Broadcaster.RunGapless | app/services/ws_broadcaster.py:34-76 | over any interleaving, what a client took plus what waits is exactly the events published from joining to leaving or now; queues hold at most 200 |
| Broadcaster.PublishDropsExactlyFull | app/services/ws_broadcaster.py:54-76 | a publish drops exactly the subscribers with a full queue and reaches all others |
| Broadcaster.SameEventsForAll | app/services/ws_broadcaster.py:54-76 | clients that joined together read the same events in the same order |
| Broadcaster.ClientQueue.Get | app/routers/ws_router.py:44-63 | reading takes the oldest waiting event |
| Broadcaster.EventBroadcaster.SubscribeClient | app/services/ws_broadcaster.py:34-43 | registers a new empty queue |
| Broadcaster.EventBroadcaster.UnsubscribeClient | app/services/ws_broadcaster.py:45-52 | removes the queue if it is registered |
| Broadcaster.EventBroadcaster.PublishEvent | app/services/ws_broadcaster.py:54-76 | the offer loop and the drop loop compute the specified bus |
| Watchlist.RoundTrip | app/config.py:187-199 | parsing the printed form of any parsed watchlist gives the same pairs |
| Watchlist.EntryWithExchange | app/config.py:190-197 | an entry with a colon is the trimmed texts before and after its first colon |
| Watchlist.EntryWithoutExchange | app/config.py:190-198 | an entry without a colon is the trimmed symbol on NSE, or nothing if blank |
| Watchlist.RemoveFilters | app/routers/watchlist_router.py:168-186 | removing a symbol makes the parse the filter of the old pairs |
| Watchlist.AddAppendsIff | app/routers/watchlist_router.py:144-165 | adding a trimmed unwatched pair appends exactly it if and only if neither field has a comma and the symbol no colon |
| Watchlist.RemoveUndoesAdd | app/routers/watchlist_router.py:144-186 | removing a symbol just added restores the watchlist |
| EnvFile.LastSaveWinsIff | app/routers/watchlist_router.py:81-100 | for every file text, saving twice leaves the text of saving the second value alone if and only if the first value fits on one line |
| EnvEntries.SavedInPlace | app/routers/watchlist_router.py:81-100 | after saving a value that fits on one line it stands in the place of every watchlist line, or on a new last line; every other line stays |
| EnvEntries.OthersPreserved | app/routers/watchlist_router.py:81-100 | saving a value that fits on one line keeps every other entry of the file, in order |
| EnvFile.RestStays | app/routers/watchlist_router.py:81-100 | what breaks off a value at a line feed stays in the file after the next save |
| EnvFile.BrokenSymbolAccepted | app/routers/watchlist_router.py:144-165 | a symbol with a line break inside is trimmed, unwatched and appended as one pair, and its value does not fit on one line |
| Watchlist.Settings.WatchlistPairs | app/config.py:187-199 | the parsing loop computes the specified pairs |
| Watchlist.Settings.AddSymbol | app/routers/watchlist_router.py:144-165 | the string is extended unless the symbol is watched |
| Watchlist.Settings.RemoveSymbol | app/routers/watchlist_router.py:168-186 | the string becomes the printed remaining pairs |
| EnvFile.PersistToEnv | app/routers/watchlist_router.py:81-100 | split, rewriting loop, append and write-back produce the specified file text |
| Calendar.NextMarketOpen | app/core/market_calendar.py:106-129 | terminates, returns the earliest market-day opening instant after the given one, in at most the longest possible closure of steps |
| Calendar.TradingInstants | app/core/market_calendar.py:52-88 | trading is from open to close inclusive on days neither holiday nor weekend, weekdays counted from 1 January 1970 |
| Calendar.ClosureBounded | app/core/market_calendar.py:52-64 | h holidays keep the market shut for at most h + 2 (h/5 + 1) days |
| Calendar.ClosureTight | app/core/market_calendar.py:52-64 | the bound is reached for every number of holidays, from any Saturday on |
| Calendar.ClosedUntilNext | app/core/market_calendar.py:67-88 | between an instant and the next opening no other session trades |
| Rounding.RoundMonotone | app/backtest/runner.py:291-296 | rounding to the cent is monotone |
| Rounding.RoundOdd | app/services/execution_service.py:37-38 | rounding to the cent is odd |
| Rounding.RoundNearestEven | app/backtest/runner.py:291-296 | no cent is nearer, and half way the even cent is taken |

## Left out

- Floating point: prices and profits are exact reals, so binary rounding error is not modelled.
- Broker and Angel clients, HTTP routes other than the watchlist edits and the manual close, frontend, deployment, logging, heartbeat and status counters.
- The LLM, validation service and retrieval memory: their answer is an arbitrary input of the pipeline.
- Individual strategies and the other indicators: signals are an arbitrary function of the window of bars in the backtests and an arbitrary list in the live pipeline.
- Sharpe, Sortino, drawdown, the final rounding of capital_end and total_pnl, CSV output, parameter optimisation.
- Timestamps, broker order cancellation, the stop-loss order leg and `find_by_broker_order_id`; status CANCELLED, which no modelled code sets.
- Object identity of signals: signals are values. That a selected Signal is also in the deque is modelled by updating the last buffered entry of its strategy, which assumes a strategy returns a new object on every call.
- Indicator computation in front of a backtest: bars already carry their ATR.
- Sizing.LargestAffordable: lot sizes below 1 are excluded throughout; the code does not check them and divides by a zero lot.
- WalkForward.WalkForward: needs at least one test bar per window, because the window loop does not end without.
- Supertrend.Compute: needs a period of at least 1; with period 0 the loop reads bar -1, which wraps around to the last bar.
- BacktestCapital.CapitalLowerBound: not claimed for an ensemble with memory, which can pair an old signal's stop with the current close.
- ParityBacktest.RunParity: needs more than 60 bars, because the code reads the close of bar 60 before the loop; the pipeline writes to a scratch table the original's adapter does not keep.
- Scheduler.DaySafe: one day at a time, under one position limit.
- LiveBacktest.EngineFollowsLive: ends at the first entry, after which the backtest skips bars while in a trade and counts its cooldown from entries, the pipeline from selections.
- Thread interleavings of API endpoints, SQL sessions and asynchronous tasks: every modelled operation is one atomic step; ticks that end in an exception are not modelled.
- Upper-casing of symbols, and the byte encoding of the environment file with the line endings of platforms other than POSIX: symbols arrive normalised, the file is a text.
