/** A backtest never looks ahead: its settled trades are a function of the bars already seen. */
module BacktestNoLookahead {
  import opened Prelude
  import opened Backtest

  /** Two histories that agree on the first n bars drive the engine to the same state, open trade,
      signal buffer and capital included. */
  lemma {:induction false} StateFromPrefix(cfg: Config, policy: Policy, capital: real,
                                           bars: seq<Bar>, other: seq<Bar>, n: nat)
    requires cfg.lotSize >= 1 && n <= |bars| && n <= |other|
    requires bars[..n] == other[..n]
    ensures RunTo(cfg, policy, capital, bars, n) == RunTo(cfg, policy, capital, other, n)
  {
    hide CheckExit;
    hide Evaluate;
    hide Open;
    if n > WARMUP {
      var i := n - 1;
      assert bars[..i] == bars[..n][..i] == other[..n][..i] == other[..i];
      StateFromPrefix(cfg, policy, capital, bars, other, i);
      assert bars[i] == bars[..n][i] == other[..n][i] == other[i];
      assert bars[..i + 1] == other[..i + 1];
    }
  }

  /** The records that came from a stop, a trailing stop or a target. */
  function Settled(trades: seq<TradeRecord>): seq<TradeRecord> {
    Filter(trades, (t: TradeRecord) => !t.reason.EodExit?)
  }

  lemma StepTrades(cfg: Config, policy: Policy, bars: seq<Bar>, i: nat, st: State)
    requires i < |bars| && cfg.lotSize >= 1 && Tracked(st)
    ensures var after := Step(cfg, policy, bars, i, st).trades;
            after == st.trades || exists r: TradeRecord :: after == st.trades + [r] && !r.reason.EodExit?
  {
  }

  /** While the loop runs, records are only appended. */
  lemma {:induction false} TradesGrow(cfg: Config, policy: Policy, capital: real, bars: seq<Bar>, n: nat, m: nat)
    requires cfg.lotSize >= 1 && n <= m <= |bars|
    ensures RunTo(cfg, policy, capital, bars, n).trades <= RunTo(cfg, policy, capital, bars, m).trades
    decreases m
  {
    hide Step;
    if n < m && m > WARMUP {
      TradesGrow(cfg, policy, capital, bars, n, m - 1);
      StepTrades(cfg, policy, bars, m - 1, RunTo(cfg, policy, capital, bars, m - 1));
    }
  }

  /** No record written by the loop is an end-of-data record. */
  lemma {:induction false} LoopRecordsSettled(cfg: Config, policy: Policy, capital: real, bars: seq<Bar>, n: nat)
    requires cfg.lotSize >= 1 && n <= |bars|
    ensures var trades := RunTo(cfg, policy, capital, bars, n).trades;
            Settled(trades) == trades
  {
    hide Step;
    if n > WARMUP {
      var before := RunTo(cfg, policy, capital, bars, n - 1);
      LoopRecordsSettled(cfg, policy, capital, bars, n - 1);
      StepTrades(cfg, policy, bars, n - 1, before);
      var after := Step(cfg, policy, bars, n - 1, before).trades;
      if after != before.trades {
        var r :| after == before.trades + [r] && !r.reason.EodExit?;
        FilterAppend(before.trades, r, (t: TradeRecord) => !t.reason.EodExit?);
      }
    }
  }

  /** Cutting the data at bar n changes nothing about the trades settled before it: they are a prefix of the
      full run's trades, and the short run adds at most one end-of-data record after them. */
  lemma NoLookahead(cfg: Config, policy: Policy, capital: real, bars: seq<Bar>, n: nat)
    requires cfg.lotSize >= 1 && n <= |bars|
    ensures var early, late := Run(cfg, policy, capital, bars[..n]).trades, Run(cfg, policy, capital, bars).trades;
            && Settled(early) <= late
            && (early == Settled(early)
                || exists r: TradeRecord :: early == Settled(early) + [r] && r.reason.EodExit?)
  {
    hide Step;
    var short := bars[..n];
    assert short[..n] == bars[..n];
    StateFromPrefix(cfg, policy, capital, short, bars, n);
    var st := RunTo(cfg, policy, capital, short, n);
    LoopRecordsSettled(cfg, policy, capital, short, n);
    TradesGrow(cfg, policy, capital, bars, n, |bars|);
    var early := Run(cfg, policy, capital, short).trades;
    if st.pos.Some? {
      var last := n - 1;
      var r := Record(cfg, st.pos.value, short[last].close, EodExit, last - st.pos.value.bar);
      assert early == st.trades + [r];
      FilterAppend(st.trades, r, (t: TradeRecord) => !t.reason.EodExit?);
    }
  }
}
