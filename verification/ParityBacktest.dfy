/** The parity backtest: entries decided by the live pipeline, exits simulated on the bars. */
module ParityBacktest {
  import opened Prelude
  import opened Rounding
  import opened Conviction
  import opened Backtest
  import opened BacktestRatchet
  import BT = BacktestTiling
  import O = Orchestrator
  import R = Risk
  import T = TradeBook

  /** Per bar, what the pipeline would be given if it were asked there; the paper fill is the rounded close. */
  datatype Feed = Feed(cfg: Config, bars: seq<Bar>, calls: seq<O.Call>, lotSize: int)

  predicate Valid(f: Feed) {
    |f.calls| == |f.bars| && f.lotSize >= 1
  }

  function CallAt(f: Feed, i: nat): O.Call
    requires Valid(f) && i < |f.bars|
  {
    f.calls[i].(fill := T.Fill(Round2(f.bars[i].close), "PAPER"))
  }

  /** Exits are simulated without slippage and brokerage. */
  function Costless(cfg: Config): Config {
    cfg.(slip := 0.0, brokerage := 0.0)
  }

  datatype Ledger = Ledger(pos: Option<Position>, trades: seq<TradeRecord>, live: O.Live)

  /** The position is built from the snapshot of the signal: its stop is the one before any AI adjustment. */
  function Opened(sig: Signal, qty: int, fill: real, close: real, i: nat): Position {
    Position(sig.side, Round2(if fill != 0.0 then fill else close), sig.stop, sig.target, qty, i, false, [])
  }

  function Recorded(st: Ledger, record: TradeRecord): Ledger {
    Ledger(None, st.trades + [record], st.live.(risk := R.Apply(st.live.risk, R.Close(record.pnl))))
  }

  function CheckExit(f: Feed, i: nat, st: Ledger): Ledger
    requires Valid(f) && i < |f.bars|
  {
    if st.pos.None? then st
    else
      match Simulate(Costless(f.cfg), f.bars[i], i, st.pos.value)
      case Exited(record) => Recorded(st, record)
      case Held(pos) => st.(pos := Some(pos))
  }

  function TryEnter(f: Feed, i: nat, st: Ledger): Ledger
    requires Valid(f) && i < |f.bars|
  {
    if st.pos.Some? then st
    else
      var (live, outcome) := O.Step(st.live, CallAt(f, i), f.lotSize);
      var pos := match outcome
                 case Some(Outcome(sig, Executed(qty, fill))) => Some(Opened(sig, qty, fill, f.bars[i].close, i))
                 case _ => None;
      Ledger(pos, st.trades, live)
  }

  function RunTo(f: Feed, init: O.Live, n: nat): Ledger
    requires Valid(f) && n <= |f.bars|
  {
    if n <= WARMUP then Ledger(None, [], init)
    else TryEnter(f, n - 1, CheckExit(f, n - 1, RunTo(f, init, n - 1)))
  }

  function Run(f: Feed, init: O.Live): Ledger
    requires Valid(f)
  {
    var st := RunTo(f, init, |f.bars|);
    if st.pos.None? then st
    else
      assert |f.bars| > 0;
      var last := |f.bars| - 1;
      Recorded(st, Record(Costless(f.cfg), st.pos.value, f.bars[last].close, EodExit, last - st.pos.value.bar))
  }

  /** A stop adjusted by the AI is what the risk engine sizes and the pipeline executes, but the simulated position
      keeps the stop the strategy proposed. */
  lemma AdjustedStopNotSimulated(f: Feed, i: nat, st: Ledger)
    requires Valid(f) && i < |f.bars|
    requires st.pos.None? && TryEnter(f, i, st).pos.Some?
    ensures var after := TryEnter(f, i, st);
            var best := O.Recall(st.live.memory, CallAt(f, i)).1;
            && best.Some? && after.pos.value.stop == best.value.stop
            && |after.live.book.trades| == |st.live.book.trades| + 1
            && after.live.book.trades[|st.live.book.trades|].stopLoss ==
               (if f.calls[i].verdict.adjustedStop.Some? then f.calls[i].verdict.adjustedStop.value else best.value.stop)
  {
    hide O.Recall;
    hide O.Remember;
    hide O.Process;
    var call := CallAt(f, i);
    var best := O.Recall(st.live.memory, call).1;
    if best.Some? {
      O.ProcessFacts(st.live.risk, st.live.book, best.value, call, f.lotSize);
    }
  }

  // ---- What is recorded ----------------------------------------------------

  /** The result of the record's own prices and quantity. */
  function GrossResult(t: TradeRecord): real {
    if t.side.Buy? then (t.exit - t.entry) * t.qty as real else (t.entry - t.exit) * t.qty as real
  }

  /** The profit is the gross result to the cent: no slippage, no fee. */
  predicate Gross(t: TradeRecord) {
    t.pnl == Round2(GrossResult(t))
  }

  lemma CostlessNet(cfg: Config, pos: Position, exit: real)
    ensures NetPnl(Costless(cfg), pos, exit) ==
            if pos.side.Buy? then (exit - pos.entry) * pos.qty as real else (pos.entry - exit) * pos.qty as real
  {
    assert SlippageCost(exit, 0.0, pos.qty) == 0.0;
  }

  lemma CostlessRecord(cfg: Config, pos: Position, exit: real, reason: ExitReason, barsHeld: int)
    ensures Gross(Record(Costless(cfg), pos, exit, reason, barsHeld))
  {
    CostlessNet(cfg, pos, exit);
    hide NetPnl;
    var t := Record(Costless(cfg), pos, exit, reason, barsHeld);
    assert NetPnl(Costless(cfg), pos, exit) == GrossResult(t);
    hide GrossResult;
  }

  lemma ExitGross(f: Feed, i: nat, st: Ledger)
    requires Valid(f) && i < |f.bars| && forall t :: t in st.trades ==> Gross(t)
    ensures forall t :: t in CheckExit(f, i, st).trades ==> Gross(t)
  {
    hide Gross;
    hide Record;
    if st.pos.Some? && ExitOn(f.bars[i], st.pos.value).Some? {
      var exit := ExitOn(f.bars[i], st.pos.value).value;
      CostlessRecord(f.cfg, st.pos.value, exit.0, exit.1, i - st.pos.value.bar);
    }
  }

  lemma {:induction false} RunGross(f: Feed, init: O.Live, n: nat)
    requires Valid(f) && n <= |f.bars|
    ensures forall t :: t in RunTo(f, init, n).trades ==> Gross(t)
  {
    hide Gross;
    hide CheckExit;
    hide TryEnter;
    if n > WARMUP {
      RunGross(f, init, n - 1);
      ExitGross(f, n - 1, RunTo(f, init, n - 1));
      EnterKeepsTrades(f, n - 1, CheckExit(f, n - 1, RunTo(f, init, n - 1)));
    }
  }

  /** Every record of a parity backtest, the end-of-data record included, carries the gross profit of its prices. */
  lemma EveryRecordGross(f: Feed, init: O.Live)
    requires Valid(f)
    ensures forall t :: t in Run(f, init).trades ==> Gross(t)
  {
    hide Gross;
    hide Record;
    RunGross(f, init, |f.bars|);
    RunTrades(f, init);
    hide Run;
    hide RunTo;
    var st := RunTo(f, init, |f.bars|);
    if st.pos.Some? {
      var last := |f.bars| - 1;
      CostlessRecord(f.cfg, st.pos.value, f.bars[last].close, EodExit, last - st.pos.value.bar);
    }
  }

  /** A position is opened exactly when the pipeline executes its selection on that bar: at the rounded close, with the
      selected signal's side and target, in the quantity of the executed row. */
  lemma EntryIsExecution(f: Feed, i: nat, st: Ledger)
    requires Valid(f) && i < |f.bars| && st.pos.None?
    ensures var after := TryEnter(f, i, st);
            var (live, outcome) := O.Step(st.live, CallAt(f, i), f.lotSize);
            && after.live == live
            && (after.pos.Some? <==> outcome.Some? && outcome.value.result.Executed?)
            && (after.pos.Some? ==>
                  && after.pos.value.bar == i && after.pos.value.entry == Round2(f.bars[i].close)
                  && after.pos.value.side == outcome.value.signal.side && after.pos.value.target == outcome.value.signal.target
                  && |live.book.trades| == |st.live.book.trades| + 1
                  && after.pos.value.qty == live.book.trades[|st.live.book.trades|].qty)
  {
    hide O.Recall;
    hide O.Remember;
    hide O.Process;
    hide Round2;
    var call := CallAt(f, i);
    var best := O.Recall(st.live.memory, call).1;
    RoundNear(f.bars[i].close);
    RoundGrid(Round2(f.bars[i].close));
    if best.Some? {
      ExecutedFill(st.live.risk, st.live.book, best.value, call, f.lotSize);
    }
  }

  lemma ExecutedFill(risk: R.RiskState, book: T.Book, best: Signal, call: O.Call, lotSize: int)
    requires lotSize >= 1
    ensures var (_, book', outcome) := O.Process(risk, book, best, call, lotSize);
            outcome.result.Executed? ==>
              && outcome.result.fillPrice == call.fill.avgPrice
              && |book'.trades| == |book.trades| + 1
              && book'.trades[|book.trades|].qty == outcome.result.qty
  {
    hide R.Decide;
  }

  /** While a position stays open the pipeline is not asked: its memory and book wait. */
  lemma BusyBarSkipsPipeline(f: Feed, init: O.Live, i: nat)
    requires Valid(f) && WARMUP <= i < |f.bars|
    ensures var before, after := RunTo(f, init, i), RunTo(f, init, i + 1);
            before.pos.Some? && ExitOn(f.bars[i], before.pos.value).None? ==>
              && after.live == before.live && after.trades == before.trades
              && after.pos == Some(Trailed(f.bars[i], before.pos.value, f.cfg.trailMult))
  {
    hide O.Step;
    hide Trailed;
  }

  // ---- Exits are those of the bar backtest ---------------------------------

  /** The record is the first touch of a position opened at the rounded close of its bar, or its close at the end of
      the data. */
  ghost predicate Accounted(f: Feed, t: TradeRecord) {
    exists pos, e :: Left(f, pos, e, t)
  }

  ghost predicate Left(f: Feed, pos: Position, e: nat, t: TradeRecord) {
    && !pos.trailed && pos.bar <= e < |f.bars| && pos.entry == Round2(f.bars[pos.bar].close)
    && (FirstTouch(Costless(f.cfg), f.bars, pos, e, t) || HeldToEnd(Costless(f.cfg), f.bars, pos, e, t))
  }

  /** The carried position is what the ratchet made of the one opened at `pos.bar`, untouched so far. */
  ghost predicate Carried(f: Feed, n: nat, pos: Position, held: Position)
    requires n <= |f.bars|
  {
    && !pos.trailed && pos.bar < n && pos.entry == Round2(f.bars[pos.bar].close)
    && Untouched(Costless(f.cfg), f.bars, pos, n - 1)
    && held == HeldPos(Costless(f.cfg), f.bars, pos, n - 1)
  }

  ghost predicate AllAccounted(f: Feed, n: nat, st: Ledger)
    requires n <= |f.bars|
  {
    && (forall t :: t in st.trades ==> Accounted(f, t))
    && (st.pos.Some? ==> exists pos :: Carried(f, n, pos, st.pos.value))
  }

  lemma CarriedExit(f: Feed, i: nat, pos: Position, held: Position)
    requires i < |f.bars| && Carried(f, i, pos, held)
    ensures match ExitOn(f.bars[i], held)
            case None => Carried(f, i + 1, pos, Trailed(f.bars[i], held, f.cfg.trailMult))
            case Some((price, reason)) => Left(f, pos, i, Record(Costless(f.cfg), held, price, reason, i - held.bar))
  {
    hide Trailed;
    hide ExitOn;
    hide Record;
    HeldKeeps(Costless(f.cfg), f.bars, pos, i - 1);
  }

  lemma ExitAccounted(f: Feed, i: nat, st: Ledger)
    requires Valid(f) && i < |f.bars| && AllAccounted(f, i, st)
    ensures AllAccounted(f, i + 1, CheckExit(f, i, st))
  {
    hide Carried;
    hide Left;
    hide ExitOn;
    hide Trailed;
    hide Record;
    if st.pos.Some? {
      var pos :| Carried(f, i, pos, st.pos.value);
      CarriedExit(f, i, pos, st.pos.value);
      match ExitOn(f.bars[i], st.pos.value)
      case None => assert Carried(f, i + 1, pos, Trailed(f.bars[i], st.pos.value, f.cfg.trailMult));
      case Some((price, reason)) =>
        assert Accounted(f, Record(Costless(f.cfg), st.pos.value, price, reason, i - st.pos.value.bar));
    }
  }

  lemma EnterAccounted(f: Feed, i: nat, st: Ledger)
    requires Valid(f) && i < |f.bars| && AllAccounted(f, i + 1, st)
    ensures AllAccounted(f, i + 1, TryEnter(f, i, st))
  {
    hide Accounted;
    hide O.Step;
    hide Round2;
    var after := TryEnter(f, i, st);
    if st.pos.None? && after.pos.Some? {
      EntryIsExecution(f, i, st);
      assert Carried(f, i + 1, after.pos.value, after.pos.value);
    }
  }

  lemma {:induction false} RunAccounted(f: Feed, init: O.Live, n: nat)
    requires Valid(f) && n <= |f.bars|
    ensures AllAccounted(f, n, RunTo(f, init, n))
  {
    hide CheckExit;
    hide TryEnter;
    hide Accounted;
    hide Carried;
    if n > WARMUP {
      RunAccounted(f, init, n - 1);
      ExitAccounted(f, n - 1, RunTo(f, init, n - 1));
      EnterAccounted(f, n - 1, CheckExit(f, n - 1, RunTo(f, init, n - 1)));
    }
  }

  /** Every record of a parity backtest is the first touch of a position opened at a rounded close, or its close at the
      end of the data; with a stop on the cent grid it reads as in the bar backtest without costs: extreme level, exit
      price and reason. */
  lemma EveryRecordAccounted(f: Feed, init: O.Live, t: TradeRecord)
    requires Valid(f) && t in Run(f, init).trades
    ensures exists pos, e :: Left(f, pos, e, t)
              && (OnGrid(pos.stop) ==> InTradersTerms(Costless(f.cfg), f.bars, pos, e, t))
  {
    hide RunTo;
    hide Carried;
    hide Left;
    hide Record;
    hide InTradersTerms;
    hide OnGrid;
    RunAccounted(f, init, |f.bars|);
    RunEndAccounted(f, init, RunTo(f, init, |f.bars|));
    var pos, e :| Left(f, pos, e, t);
    LeftInTerms(f, pos, e, t);
  }

  lemma LeftInTerms(f: Feed, pos: Position, e: nat, t: TradeRecord)
    requires Left(f, pos, e, t)
    ensures OnGrid(pos.stop) ==> InTradersTerms(Costless(f.cfg), f.bars, pos, e, t)
  {
    hide InTradersTerms;
    hide FirstTouch;
    hide HeldToEnd;
    hide OnGrid;
    if OnGrid(pos.stop) {
      if FirstTouch(Costless(f.cfg), f.bars, pos, e, t) {
        FirstTouchPrice(Costless(f.cfg), f.bars, pos, e, t);
      } else {
        HeldToEndPrice(Costless(f.cfg), f.bars, pos, e, t);
      }
    }
  }

  lemma RunTrades(f: Feed, init: O.Live)
    requires Valid(f)
    ensures var st := RunTo(f, init, |f.bars|);
            && (st.pos.Some? ==> f.bars != [])
            && Run(f, init).trades ==
               if st.pos.None? then st.trades
               else
                 var last := |f.bars| - 1;
                 st.trades + [Record(Costless(f.cfg), st.pos.value, f.bars[last].close, EodExit, last - st.pos.value.bar)]
  {
    hide TryEnter;
    hide CheckExit;
    hide Record;
  }

  lemma LastAccounted(f: Feed, st: Ledger)
    requires AllAccounted(f, |f.bars|, st) && st.pos.Some? && f.bars != []
    ensures var last := |f.bars| - 1;
            Accounted(f, Record(Costless(f.cfg), st.pos.value, f.bars[last].close, EodExit, last - st.pos.value.bar))
  {
    hide Left;
    hide Carried;
    hide Record;
    hide Costless;
    var pos :| Carried(f, |f.bars|, pos, st.pos.value);
    CarriedEnd(f, pos, st.pos.value);
  }

  lemma RunEndAccounted(f: Feed, init: O.Live, st: Ledger)
    requires Valid(f) && st == RunTo(f, init, |f.bars|) && AllAccounted(f, |f.bars|, st)
    ensures forall t :: t in Run(f, init).trades ==> Accounted(f, t)
  {
    hide Run;
    hide RunTo;
    hide Accounted;
    hide Carried;
    hide Record;
    hide Costless;
    RunTrades(f, init);
    if st.pos.Some? {
      LastAccounted(f, st);
    }
  }

  lemma CarriedEnd(f: Feed, pos: Position, held: Position)
    requires Carried(f, |f.bars|, pos, held)
    ensures var last := |f.bars| - 1;
            Left(f, pos, last, Record(Costless(f.cfg), held, f.bars[last].close, EodExit, last - held.bar))
  {
    hide Record;
    HeldKeeps(Costless(f.cfg), f.bars, pos, |f.bars| - 1);
  }

  // ---- The wall clock rules the backtest -----------------------------------

  /** The whole backtest runs within one wall-clock day, under one set of limits: the risk engine looks at the clock,
      not at the bars. */
  ghost predicate OneSitting(f: Feed, day: int, s: R.Settings)
    requires Valid(f)
  {
    forall c :: c in f.calls ==>
      && c.clock.day == day && c.s.maxTradesPerDay == s.maxTradesPerDay
      && c.s.capital == s.capital && c.s.maxDailyLossPct == s.maxDailyLossPct
  }

  /** Unlike the live scheduler, this loop reports every close: the counters are exact. */
  ghost predicate Exact(st: Ledger, day: int, s: R.Settings) {
    var stats := st.live.risk.stats;
    && stats.lastReset == day
    && stats.openPositions == (if st.pos.Some? then 1 else 0)
    && stats.tradesToday == |st.trades| + stats.openPositions
    && (stats.tradesToday > 0 ==> stats.tradesToday <= s.maxTradesPerDay)
    && stats.realizedToday == Sum(BT.Pnls(st.trades))
    && (st.pos.Some? ==> stats.realizedToday > -R.DailyCap(s))
  }

  lemma RecordedExact(st: Ledger, record: TradeRecord, day: int, s: R.Settings)
    requires Exact(st, day, s) && st.pos.Some?
    ensures Exact(Recorded(st, record), day, s)
  {
    BT.PnlsAppend(st.trades, record);
  }

  lemma ExitExact(f: Feed, i: nat, st: Ledger, day: int, s: R.Settings)
    requires Valid(f) && i < |f.bars| && Exact(st, day, s)
    ensures Exact(CheckExit(f, i, st), day, s)
  {
    hide Simulate;
    if st.pos.Some? {
      match Simulate(Costless(f.cfg), f.bars[i], i, st.pos.value)
      case Exited(record) => RecordedExact(st, record, day, s);
      case Held(_) =>
    }
  }

  lemma EnterExact(f: Feed, i: nat, st: Ledger, day: int, s: R.Settings)
    requires Valid(f) && i < |f.bars| && OneSitting(f, day, s) && Exact(st, day, s)
    ensures Exact(TryEnter(f, i, st), day, s)
  {
    hide O.Recall;
    hide O.Remember;
    hide O.Process;
    if st.pos.None? {
      var call := CallAt(f, i);
      assert f.calls[i] in f.calls;
      var best := O.Recall(st.live.memory, call).1;
      if best.Some? {
        O.ProcessFacts(st.live.risk, st.live.book, best.value, call, f.lotSize);
        ExecutedAboveCap(st.live.risk, st.live.book, best.value, call, f.lotSize);
      }
    }
  }

  /** An entry is executed only while the day's result is above the loss cap. */
  lemma ExecutedAboveCap(risk: R.RiskState, book: T.Book, best: Signal, call: O.Call, lotSize: int)
    requires lotSize >= 1
    ensures var outcome := O.Process(risk, book, best, call, lotSize).2;
            outcome.result.Executed? ==>
              R.ResetIfNewDay(risk.stats, call.clock.day).realizedToday > -R.DailyCap(call.s)
  {
    hide R.Sized;
    hide R.ExceedsCap;
    hide R.PoorReward;
  }

  lemma {:induction false} RunExact(f: Feed, init: O.Live, n: nat, day: int, s: R.Settings)
    requires Valid(f) && n <= |f.bars| && OneSitting(f, day, s)
    requires init.risk.stats == R.NewDay(day)
    ensures Exact(RunTo(f, init, n), day, s)
  {
    hide TryEnter;
    hide CheckExit;
    if n > WARMUP {
      hide Exact;
      RunExact(f, init, n - 1, day, s);
      ExitExact(f, n - 1, RunTo(f, init, n - 1), day, s);
      EnterExact(f, n - 1, CheckExit(f, n - 1, RunTo(f, init, n - 1)), day, s);
    }
  }

  /** However long the data, a parity backtest run in one sitting records at most `maxTradesPerDay` trades in all,
      its realised result is the sum of their profits, and a single trade can carry it below the loss cap: with
      losses of at most `worst` per trade the result stays above -cap - worst. */
  lemma OneSittingIsOneDay(f: Feed, init: O.Live, day: int, s: R.Settings, worst: real)
    requires Valid(f) && OneSitting(f, day, s) && init.risk.stats == R.NewDay(day) && worst >= 0.0
    requires forall t :: t in Run(f, init).trades ==> t.pnl >= -worst
    ensures var st := Run(f, init);
            && (st.trades != [] ==> |st.trades| <= s.maxTradesPerDay)
            && st.live.risk.stats.realizedToday == Sum(BT.Pnls(st.trades))
            && st.live.risk.stats.openPositions == 0
            && Sum(BT.Pnls(st.trades)) >= -R.DailyCap(s) - worst
  {
    hide TryEnter;
    hide CheckExit;
    hide NetPnl;
    hide Round2;
    RunExact(f, init, |f.bars|, day, s);
    var before, st := RunTo(f, init, |f.bars|), Run(f, init);
    if before.pos.Some? {
      RecordedExact(before, st.trades[|st.trades| - 1], day, s);
    }
    hide Run;
    SumAboveCap(f, init, |f.bars|, day, s, worst, before, st);
  }

  /** The last recorded loss is the only one taken below the cap: it was entered above it. */
  lemma {:induction false} ResultAbove(f: Feed, init: O.Live, n: nat, day: int, s: R.Settings, worst: real)
    requires Valid(f) && n <= |f.bars| && OneSitting(f, day, s) && worst >= 0.0
    requires init.risk.stats == R.NewDay(day)
    requires forall t :: t in RunTo(f, init, n).trades ==> t.pnl >= -worst
    ensures Sum(BT.Pnls(RunTo(f, init, n).trades)) >= -R.DailyCap(s) - worst
  {
    hide TryEnter;
    hide Simulate;
    hide R.DailyCap;
    assert R.DailyCap(s) >= 0.0 by { CapNonnegative(s); }
    if n > WARMUP {
      var before := RunTo(f, init, n - 1);
      var checked := CheckExit(f, n - 1, before);
      EnterKeepsTrades(f, n - 1, checked);
      assert RunTo(f, init, n).trades == checked.trades;
      RunExact(f, init, n - 1, day, s);
      if checked.trades != before.trades {
        var record := checked.trades[|before.trades|];
        assert checked.trades == before.trades + [record];
        BT.PnlsAppend(before.trades, record);
        assert record in checked.trades;
      } else {
        ResultAbove(f, init, n - 1, day, s, worst);
      }
    }
  }

  lemma CapNonnegative(s: R.Settings)
    ensures R.DailyCap(s) >= 0.0
  {
  }

  lemma EnterKeepsTrades(f: Feed, i: nat, st: Ledger)
    requires Valid(f) && i < |f.bars|
    ensures TryEnter(f, i, st).trades == st.trades
  {
  }

  lemma SumAboveCap(f: Feed, init: O.Live, n: nat, day: int, s: R.Settings, worst: real, before: Ledger, st: Ledger)
    requires Valid(f) && n == |f.bars| && OneSitting(f, day, s) && worst >= 0.0
    requires init.risk.stats == R.NewDay(day) && before == RunTo(f, init, n) && Exact(before, day, s)
    requires st.trades == before.trades
             || (before.pos.Some? && exists r: TradeRecord :: st.trades == before.trades + [r])
    requires forall t :: t in st.trades ==> t.pnl >= -worst
    ensures Sum(BT.Pnls(st.trades)) >= -R.DailyCap(s) - worst
  {
    hide TryEnter;
    hide CheckExit;
    hide RunTo;
    hide R.DailyCap;
    if st.trades == before.trades {
      ResultAbove(f, init, n, day, s, worst);
    } else {
      var r: TradeRecord :| st.trades == before.trades + [r];
      BT.PnlsAppend(before.trades, r);
      assert r in st.trades;
    }
  }

  // ---- The loop ------------------------------------------------------------

  /** The trade loop over the live pipeline object. */
  method RunParity(f: Feed, pipeline: O.Pipeline) returns (trades: seq<TradeRecord>)
    requires Valid(f) && |f.bars| > WARMUP && pipeline.lotSize == f.lotSize
    modifies pipeline, pipeline.risk, pipeline.execution.dal
    ensures trades == Run(f, old(pipeline.View())).trades
    ensures pipeline.View() == Run(f, old(pipeline.View())).live
  {
    hide Simulate;
    hide O.Step;
    hide Record;
    var cfg := Costless(f.cfg);
    ghost var init := pipeline.View();
    ghost var st := Ledger(None, [], init);
    trades := [];
    var open: OpenTrade? := null;
    var i := WARMUP;
    while i < |f.bars|
      invariant WARMUP <= i <= |f.bars|
      invariant st == RunTo(f, init, i)
      invariant trades == st.trades && pipeline.View() == st.live
      invariant Mirrors(open, st.pos)
      invariant open != null ==> fresh(open)
    {
      ghost var checked := CheckExit(f, i, st);
      if open != null {
        var record;
        record, open := SimulateTrade(cfg, f.bars, i, open);
        if record.Some? {
          trades := trades + [record.value];
          pipeline.risk.RecordTradeClose(record.value.pnl);
        }
      }
      assert pipeline.View() == checked.live;
      st := TryEnter(f, i, checked);
      if open == null {
        var close := f.bars[i].close;
        var outcome := pipeline.Run(f.calls[i].(fill := T.Fill(Round2(close), "PAPER")));
        if outcome.Some? && outcome.value.result.Executed? {
          var sig := outcome.value.signal;
          var fill := if outcome.value.result.fillPrice != 0.0 then outcome.value.result.fillPrice else close;
          open := new OpenTrade(sig.side, Round2(fill), sig.stop, sig.target, outcome.value.result.qty, i, []);
        }
      }
      i := i + 1;
    }
    if open != null {
      var record := CloseAtLast(cfg, f.bars, open);
      trades := trades + [record];
      pipeline.risk.RecordTradeClose(record.pnl);
    }
  }
}
