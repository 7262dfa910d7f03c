/** Long/short symmetry: negating every price and flipping every signal mirrors the whole run. */
module BacktestMirror {
  import opened Prelude
  import opened Rounding
  import opened Conviction
  import opened Sizing
  import opened SignalMemory
  import opened Backtest

  // ---- The mirror ----------------------------------------------------------

  function FlipTarget(target: Option<real>): Option<real> {
    if target.Some? then Some(-target.value) else None
  }

  /** Negated prices, so the low becomes the high. */
  function FlipBar(b: Bar): Bar {
    Bar(-b.open, -b.low, -b.high, -b.close, b.volume, b.atr)
  }

  function FlipBars(bars: seq<Bar>): seq<Bar> {
    seq(|bars|, i requires 0 <= i < |bars| => FlipBar(bars[i]))
  }

  function FlipSignal(s: Signal): Signal {
    s.(side := s.side.Flip(), entry := -s.entry, stop := -s.stop, target := FlipTarget(s.target))
  }

  function FlipSignals(signals: seq<Signal>): seq<Signal> {
    seq(|signals|, i requires 0 <= i < |signals| => FlipSignal(signals[i]))
  }

  function FlipEntries(log: seq<Entry>): seq<Entry> {
    seq(|log|, i requires 0 <= i < |log| => log[i].(signal := FlipSignal(log[i].signal)))
  }

  function FlipPos(p: Position): Position {
    p.(side := p.side.Flip(), entry := -p.entry, stop := -p.stop, target := FlipTarget(p.target))
  }

  function FlipRecord(r: TradeRecord): TradeRecord {
    r.(side := r.side.Flip(), entry := -r.entry, exit := -r.exit, stopLoss := -r.stopLoss, target := FlipTarget(r.target))
  }

  function FlipRecords(trades: seq<TradeRecord>): seq<TradeRecord> {
    seq(|trades|, i requires 0 <= i < |trades| => FlipRecord(trades[i]))
  }

  function FlipSpans(spans: seq<Span>): seq<Span> {
    seq(|spans|, i requires 0 <= i < |spans| => spans[i].(initial := FlipPos(spans[i].initial)))
  }

  function FlipOptPos(p: Option<Position>): Option<Position> {
    if p.Some? then Some(FlipPos(p.value)) else None
  }

  /** Entry bars, quantities, capital and profits stay; sides and prices flip. */
  function FlipState(st: State): State {
    st.(pos := FlipOptPos(st.pos), trades := FlipRecords(st.trades), buffer := FlipEntries(st.buffer),
        initial := FlipOptPos(st.initial), spans := FlipSpans(st.spans))
  }

  /** The mirrored strategy looks at the mirrored window and flips what it sees. */
  function FlipPolicy(policy: Policy): Policy {
    var generate := (window: seq<Bar>) => FlipSignals(policy.generate(FlipBars(window)));
    match policy
    case Solo(_) => Solo(generate)
    case Ensemble(_, minAgreement, minConfidence) => Ensemble(generate, minAgreement, minConfidence)
  }

  lemma FlipBarsTwice(bars: seq<Bar>, n: nat)
    requires n <= |bars|
    ensures FlipBars(FlipBars(bars)[..n]) == bars[..n]
  {
  }

  // ---- Selection commutes with the mirror ----------------------------------

  lemma {:induction false} MostConfidentFlips(signals: seq<Signal>)
    requires signals != []
    ensures MostConfident(FlipSignals(signals)) == FlipSignal(MostConfident(signals))
  {
    var n := |signals| - 1;
    if n > 0 {
      assert FlipSignals(signals)[..n] == FlipSignals(signals[..n]);
      MostConfidentFlips(signals[..n]);
    }
  }

  lemma FlipAppend(signals: seq<Signal>, s: Signal)
    ensures FlipSignals(signals + [s]) == FlipSignals(signals) + [FlipSignal(s)]
  {
  }

  lemma {:induction false} StrongFlips(signals: seq<Signal>, minConfidence: real)
    ensures Strong(FlipSignals(signals), minConfidence) == FlipSignals(Strong(signals, minConfidence))
  {
    if signals != [] {
      var n := |signals| - 1;
      assert FlipSignals(signals)[..n] == FlipSignals(signals[..n]);
      StrongFlips(signals[..n], minConfidence);
      FlipAppend(Strong(signals[..n], minConfidence), signals[n]);
    }
  }

  lemma {:induction false} OnSideFlips(signals: seq<Signal>, side: Side)
    ensures OnSide(FlipSignals(signals), side.Flip()) == FlipSignals(OnSide(signals, side))
  {
    if signals != [] {
      var n := |signals| - 1;
      assert FlipSignals(signals)[..n] == FlipSignals(signals[..n]);
      OnSideFlips(signals[..n], side);
      FlipAppend(OnSide(signals[..n], side), signals[n]);
    }
  }

  lemma AverageFlips(signals: seq<Signal>)
    requires signals != []
    ensures Average(FlipSignals(signals)) == Average(signals)
    ensures StrategyNames(FlipSignals(signals)) == StrategyNames(signals)
  {
    assert Confidences(FlipSignals(signals)) == Confidences(signals);
  }

  lemma BeatsFlips(strong: seq<Signal>, a: Side, b: Side)
    ensures Beats(FlipSignals(strong), a.Flip(), b.Flip()) == Beats(strong, a, b)
  {
    OnSideFlips(strong, a);
    OnSideFlips(strong, b);
    if OnSide(strong, a) != [] {
      AverageFlips(OnSide(strong, a));
    }
    if OnSide(strong, b) != [] {
      AverageFlips(OnSide(strong, b));
    }
  }

  function FlipOptSignal(s: Option<Signal>): Option<Signal> {
    if s.Some? then Some(FlipSignal(s.value)) else None
  }

  lemma WinnerFlips(signals: seq<Signal>, minAgreement: int, minConfidence: real)
    ensures Winner(FlipSignals(signals), minAgreement, minConfidence) ==
            FlipOptSignal(Winner(signals, minAgreement, minConfidence))
    ensures Contributors(FlipSignals(signals), minAgreement, minConfidence) ==
            Contributors(signals, minAgreement, minConfidence)
  {
    hide Beats;
    hide MostConfident;
    hide OnSide;
    hide Strong;
    hide SortNames;
    StrongFlips(signals, minConfidence);
    var strong := Strong(signals, minConfidence);
    if strong != [] {
      var first := strong[0].side;
      BeatsFlips(strong, first.Flip(), first);
      var side := BestSide(strong);
      assert BestSide(FlipSignals(strong)) == side.Flip();
      OnSideFlips(strong, side);
      var group := OnSide(strong, side);
      if group != [] {
        MostConfidentFlips(group);
        AverageFlips(group);
      }
      if Winner(signals, minAgreement, minConfidence).Some? {
        WinnerSide(signals, minAgreement, minConfidence);
      }
    }
  }

  // ---- The signal buffer commutes with the mirror --------------------------

  lemma {:induction false} PruneFlips(log: seq<Entry>, cutoff: int)
    ensures Prune(FlipEntries(log), cutoff) == FlipEntries(Prune(log, cutoff))
  {
    if log != [] && log[0].tick <= cutoff {
      assert FlipEntries(log)[1..] == FlipEntries(log[1..]);
      PruneFlips(log[1..], cutoff);
    }
  }

  lemma {:induction false} UpsertFlips(seen: seq<Signal>, s: Signal)
    ensures Upsert(FlipSignals(seen), FlipSignal(s)) == FlipSignals(Upsert(seen, s))
  {
    if seen != [] {
      assert FlipSignals(seen)[1..] == FlipSignals(seen[1..]);
      if seen[0].strategy != s.strategy {
        UpsertFlips(seen[1..], s);
      }
    }
  }

  lemma {:induction false} LatestFlips(log: seq<Entry>)
    ensures Latest(FlipEntries(log)) == FlipSignals(Latest(log))
  {
    if log != [] {
      var n := |log| - 1;
      assert FlipEntries(log)[..n] == FlipEntries(log[..n]);
      LatestFlips(log[..n]);
      UpsertFlips(Latest(log[..n]), log[n].signal);
    }
  }

  lemma PushFlips(buffer: seq<Entry>, tick: int, signals: seq<Signal>, cutoff: int)
    ensures Prune(FlipEntries(buffer) + Tag(tick, FlipSignals(signals)), cutoff) ==
            FlipEntries(Prune(buffer + Tag(tick, signals), cutoff))
  {
    assert FlipEntries(buffer) + Tag(tick, FlipSignals(signals)) == FlipEntries(buffer + Tag(tick, signals));
    PruneFlips(buffer + Tag(tick, signals), cutoff);
  }

  lemma EvaluateFlips(cfg: Config, policy: Policy, bars: seq<Bar>, n: nat, i: nat, buffer: seq<Entry>)
    requires n <= |bars|
    ensures var pick := Evaluate(cfg, policy, bars[..n], i, buffer);
            Evaluate(cfg, FlipPolicy(policy), FlipBars(bars)[..n], i, FlipEntries(buffer)) ==
            Pick(FlipEntries(pick.buffer), FlipOptSignal(pick.best), pick.contributors)
  {
    hide Winner;
    hide Contributors;
    hide Latest;
    hide Prune;
    hide MostConfident;
    FlipBarsTwice(bars, n);
    var signals := policy.generate(bars[..n]);
    match policy
    case Solo(_) =>
      if signals != [] {
        MostConfidentFlips(signals);
      }
    case Ensemble(_, minAgreement, minConfidence) =>
      if cfg.memoryTicks > 1 {
        PushFlips(buffer, i, signals, i - cfg.memoryTicks);
        var kept := Prune(buffer + Tag(i, signals), i - cfg.memoryTicks);
        LatestFlips(kept);
        WinnerFlips(Latest(kept), minAgreement, minConfidence);
      } else {
        WinnerFlips(signals, minAgreement, minConfidence);
      }
  }

  // ---- One bar commutes with the mirror ------------------------------------

  lemma NetPnlFlips(cfg: Config, pos: Position, exit: real)
    requires cfg.slip == 0.0
    ensures NetPnl(cfg, FlipPos(pos), -exit) == NetPnl(cfg, pos, exit)
  {
  }

  lemma TrailedFlips(bar: Bar, pos: Position, trailMult: real)
    ensures Trailed(FlipBar(bar), FlipPos(pos), trailMult) == FlipPos(Trailed(bar, pos, trailMult))
  {
    if Trails(bar, trailMult) {
      hide Round2;
      var level := TrailLevel(bar, pos.side, trailMult);
      assert TrailLevel(FlipBar(bar), pos.side.Flip(), trailMult) == -level;
      RoundOdd(level);
    }
  }

  function FlipOutcome(o: BarOutcome): BarOutcome {
    match o
    case Exited(record) => Exited(FlipRecord(record))
    case Held(pos) => Held(FlipPos(pos))
  }

  lemma SimulateFlips(cfg: Config, bar: Bar, i: nat, pos: Position)
    requires cfg.slip == 0.0
    ensures Simulate(cfg, FlipBar(bar), i, FlipPos(pos)) == FlipOutcome(Simulate(cfg, bar, i, pos))
  {
    hide NetPnl;
    hide Trailed;
    hide Round2;
    TrailedFlips(bar, pos, cfg.trailMult);
    match ExitOn(bar, pos)
    case None =>
    case Some((price, reason)) => NetPnlFlips(cfg, pos, price);
  }

  lemma SettleFlips(st: State, record: TradeRecord, i: nat)
    requires st.initial.Some?
    ensures FlipState(Settle(st, record, i)) == Settle(FlipState(st), FlipRecord(record), i)
  {
  }

  lemma ExitFlips(cfg: Config, bar: Bar, i: nat, st: State)
    requires cfg.slip == 0.0 && Tracked(st)
    ensures CheckExit(cfg, FlipBar(bar), i, FlipState(st)) == FlipState(CheckExit(cfg, bar, i, st))
  {
    hide Simulate;
    if st.pos.Some? {
      SimulateFlips(cfg, bar, i, st.pos.value);
      match Simulate(cfg, bar, i, st.pos.value)
      case Exited(record) => SettleFlips(st, record, i);
      case Held(_) =>
    }
  }

  lemma OpenFlips(cfg: Config, sig: Signal, contributors: seq<string>, close: real, capital: real, i: nat)
    requires cfg.slip == 0.0 && cfg.lotSize >= 1
    ensures Open(cfg, FlipSignal(sig), contributors, -close, capital, i) ==
            FlipOptPos(Open(cfg, sig, contributors, close, capital, i))
  {
    hide PositionSize;
    hide Round2;
    assert FillPrice(sig.side, close, cfg.slip) == close;
    assert FillPrice(sig.side.Flip(), -close, cfg.slip) == -close;
    SizeMirrored(capital, cfg.riskPct, close, sig.stop, cfg.lotSize);
    RoundOdd(close);
    RrFlips(cfg, sig);
  }

  lemma RrFlips(cfg: Config, sig: Signal)
    ensures RrPasses(cfg, FlipSignal(sig)) == RrPasses(cfg, sig)
  {
  }

  lemma EnterFlips(cfg: Config, policy: Policy, bars: seq<Bar>, i: nat, st: State)
    requires cfg.slip == 0.0 && cfg.lotSize >= 1 && i < |bars| && Tracked(st)
    ensures TryEnter(cfg, FlipPolicy(policy), FlipBars(bars), i, FlipState(st)) ==
            FlipState(TryEnter(cfg, policy, bars, i, st))
  {
    hide Evaluate;
    hide Open;
    hide FlipPolicy;
    EvaluateFlips(cfg, policy, bars, i + 1, i, st.buffer);
    var pick := Evaluate(cfg, policy, bars[..i + 1], i, st.buffer);
    if pick.best.Some? {
      OpenFlips(cfg, pick.best.value, pick.contributors, bars[i].close, st.capital, i);
    }
  }

  // ---- The run commutes with the mirror ------------------------------------

  lemma {:induction false} RunToFlips(cfg: Config, policy: Policy, capital: real, bars: seq<Bar>, n: nat)
    requires cfg.slip == 0.0 && cfg.lotSize >= 1 && n <= |bars|
    ensures RunTo(cfg, FlipPolicy(policy), capital, FlipBars(bars), n) ==
            FlipState(RunTo(cfg, policy, capital, bars, n))
  {
    hide TryEnter;
    hide CheckExit;
    hide FlipPolicy;
    if n > WARMUP {
      hide FlipState;
      var before := RunTo(cfg, policy, capital, bars, n - 1);
      RunToFlips(cfg, policy, capital, bars, n - 1);
      ExitFlips(cfg, bars[n - 1], n - 1, before);
      EnterFlips(cfg, policy, bars, n - 1, CheckExit(cfg, bars[n - 1], n - 1, before));
    }
  }

  /** The mirrored run is the mirror of the run, for both policies, with any brokerage, trailing stop and cooldown. */
  lemma RunFlips(cfg: Config, policy: Policy, capital: real, bars: seq<Bar>)
    requires cfg.slip == 0.0 && cfg.lotSize >= 1
    ensures Run(cfg, FlipPolicy(policy), capital, FlipBars(bars)) == FlipState(Run(cfg, policy, capital, bars))
  {
    hide NetPnl;
    hide Round2;
    hide FlipPolicy;
    hide Step;
    assert bars == [] ==> RunTo(cfg, policy, capital, bars, |bars|) == Start(capital);
    hide RunTo;
    RunToFlips(cfg, policy, capital, bars, |bars|);
    var st := RunTo(cfg, policy, capital, bars, |bars|);
    if st.pos.Some? {
      var last := |bars| - 1;
      NetPnlFlips(cfg, st.pos.value, bars[last].close);
      var record := Record(cfg, st.pos.value, bars[last].close, EodExit, last - st.pos.value.bar);
      SettleFlips(st, record, last);
    }
  }

  /** What a trader reads off it: same entry bars, quantities, exit reasons, holding times and profits. */
  lemma MirroredTrades(cfg: Config, policy: Policy, capital: real, bars: seq<Bar>)
    requires cfg.slip == 0.0 && cfg.lotSize >= 1
    ensures var run, mirrored := Run(cfg, policy, capital, bars), Run(cfg, FlipPolicy(policy), capital, FlipBars(bars));
            && |mirrored.trades| == |run.trades| && |mirrored.spans| == |run.spans|
            && mirrored.capital == run.capital
            && (forall k :: 0 <= k < |run.spans| ==>
                  mirrored.spans[k].initial.bar == run.spans[k].initial.bar
                  && mirrored.spans[k].closedAt == run.spans[k].closedAt)
            && (forall k :: 0 <= k < |run.trades| ==>
                  var t, m := run.trades[k], mirrored.trades[k];
                  && m.side == t.side.Flip() && m.qty == t.qty && m.reason == t.reason
                  && m.barsHeld == t.barsHeld && m.pnl == t.pnl && m.contributors == t.contributors)
  {
    hide Run;
    RunFlips(cfg, policy, capital, bars);
  }
}
