/** The bar-by-bar backtest engine: single-strategy and ensemble runs. */
module Backtest {
  import opened Prelude
  import opened Rounding
  import opened Conviction
  import opened SignalMemory
  import opened Sizing

  const WARMUP := 60

  /** A row of the frame; `atr` is None where the indicator is missing or not a number. */
  datatype Bar = Bar(open: real, high: real, low: real, close: real, volume: real, atr: Option<real>)

  /** The signal service: any function of the window of bars seen so far. */
  type Generator = seq<Bar> -> seq<Signal>

  datatype Policy =
    | Solo(generate: Generator)
    | Ensemble(generate: Generator, minAgreement: int, minConfidence: real)

  datatype Config = Config(
    lotSize: int,
    riskPct: real,
    slip: real,
    brokerage: real,
    trailMult: real,
    cooldown: int,
    memoryTicks: int,
    rrGate: bool,
    minRr: real)

  datatype ExitReason = StopExit | TrailingExit | TargetExit | EodExit

  datatype Position = Position(
    side: Side,
    entry: real,
    stop: real,
    target: Option<real>,
    qty: int,
    bar: nat,
    trailed: bool,
    contributors: seq<string>)

  datatype TradeRecord = TradeRecord(
    side: Side,
    entry: real,
    exit: real,
    stopLoss: real,
    target: Option<real>,
    qty: int,
    pnl: real,
    barsHeld: int,
    reason: ExitReason,
    contributors: seq<string>)

  // ---- One bar of an open trade --------------------------------------------

  /** The stop is looked at before the target. */
  function ExitOn(bar: Bar, pos: Position): Option<(real, ExitReason)> {
    var stopped := if pos.trailed then TrailingExit else StopExit;
    if pos.side.Buy? then
      if bar.low <= pos.stop then Some((pos.stop, stopped))
      else if HasTarget(pos.target) && bar.high >= pos.target.value then Some((pos.target.value, TargetExit))
      else None
    else
      if bar.high >= pos.stop then Some((pos.stop, stopped))
      else if HasTarget(pos.target) && bar.low <= pos.target.value then Some((pos.target.value, TargetExit))
      else None
  }

  predicate Trails(bar: Bar, trailMult: real) {
    trailMult > 0.0 && bar.atr.Some? && bar.atr.value > 0.0
  }

  /** The unrounded trailing stop of a bar. */
  function TrailLevel(bar: Bar, side: Side, trailMult: real): real
    requires Trails(bar, trailMult)
  {
    var distance := bar.atr.value * trailMult;
    if side.Buy? then bar.close - distance else bar.close + distance
  }

  /** Strictly nearer to the price, so a stop may only move there. */
  predicate Tighter(side: Side, level: real, stop: real) {
    if side.Buy? then level > stop else level < stop
  }

  function Trailed(bar: Bar, pos: Position, trailMult: real): Position {
    if Trails(bar, trailMult) && Tighter(pos.side, TrailLevel(bar, pos.side, trailMult), pos.stop)
    then pos.(stop := Round2(TrailLevel(bar, pos.side, trailMult)), trailed := true)
    else pos
  }

  function RawPnl(side: Side, entry: real, exit: real, qty: int): real {
    if side.Buy? then (exit - entry) * qty as real else (entry - exit) * qty as real
  }

  function SlippageCost(exit: real, slip: real, qty: int): real {
    exit * slip * qty as real
  }

  function NetPnl(cfg: Config, pos: Position, exit: real): real {
    RawPnl(pos.side, pos.entry, exit, pos.qty) - SlippageCost(exit, cfg.slip, pos.qty) - cfg.brokerage / 2.0
  }

  function Record(cfg: Config, pos: Position, exit: real, reason: ExitReason, barsHeld: int): TradeRecord {
    TradeRecord(pos.side, pos.entry, exit, pos.stop, pos.target, pos.qty,
                Round2(NetPnl(cfg, pos, exit)), barsHeld, reason, pos.contributors)
  }

  datatype BarOutcome = Exited(record: TradeRecord) | Held(pos: Position)

  function Simulate(cfg: Config, bar: Bar, i: nat, pos: Position): BarOutcome {
    match ExitOn(bar, pos)
    case Some((price, reason)) => Exited(Record(cfg, pos, price, reason, i - pos.bar))
    case None => Held(Trailed(bar, pos, cfg.trailMult))
  }

  // ---- Entering a trade ----------------------------------------------------

  predicate RrPasses(cfg: Config, sig: Signal) {
    if !cfg.rrGate || sig.target.None? then true
    else if Abs(sig.entry - sig.stop) <= 0.0 then false
    else Abs(sig.target.value - sig.entry) / Abs(sig.entry - sig.stop) >= cfg.minRr
  }

  function FillPrice(side: Side, close: real, slip: real): real {
    if side.Buy? then close * (1.0 + slip) else close * (1.0 - slip)
  }

  /** What a policy makes of a bar: its memory afterwards, the signal to trade, the agreeing strategies. */
  datatype Pick = Pick(buffer: seq<Entry>, best: Option<Signal>, contributors: seq<string>)

  function Evaluate(cfg: Config, policy: Policy, window: seq<Bar>, i: nat, buffer: seq<Entry>): Pick {
    var signals := policy.generate(window);
    match policy
    case Solo(_) =>
      Pick(buffer, if signals == [] then None else Some(MostConfident(signals)), [])
    case Ensemble(_, minAgreement, minConfidence) =>
      var kept := if cfg.memoryTicks > 1 then Prune(buffer + Tag(i, signals), i - cfg.memoryTicks) else buffer;
      var judged := if cfg.memoryTicks > 1 then Latest(kept) else signals;
      Pick(kept, Winner(judged, minAgreement, minConfidence), Contributors(judged, minAgreement, minConfidence))
  }

  function Open(cfg: Config, sig: Signal, contributors: seq<string>, close: real, capital: real, i: nat): Option<Position>
    requires cfg.lotSize >= 1
  {
    var fill := FillPrice(sig.side, close, cfg.slip);
    var qty := PositionSize(capital, cfg.riskPct, fill, sig.stop, cfg.lotSize);
    if RrPasses(cfg, sig) && qty >= 1
    then Some(Position(sig.side, Round2(fill), sig.stop, sig.target, qty, i, false, contributors))
    else None
  }

  // ---- The run -------------------------------------------------------------

  /** A closed trade's life: the position as opened, and the bar that closed it. */
  datatype Span = Span(initial: Position, closedAt: nat)

  /** The loop's variables, with the position as opened and the list of spans kept as history. */
  datatype State = State(
    pos: Option<Position>,
    trades: seq<TradeRecord>,
    capital: real,
    lastEntry: Option<nat>,
    buffer: seq<Entry>,
    initial: Option<Position>,
    spans: seq<Span>)

  function Start(capital: real): State {
    State(None, [], capital, None, [], None, [])
  }

  function Settle(st: State, record: TradeRecord, i: nat): State
    requires st.initial.Some?
  {
    st.(pos := None, initial := None, capital := st.capital + record.pnl,
        trades := st.trades + [record], spans := st.spans + [Span(st.initial.value, i)])
  }

  predicate Tracked(st: State) {
    st.pos.Some? <==> st.initial.Some?
  }

  function CheckExit(cfg: Config, bar: Bar, i: nat, st: State): (r: State)
    requires Tracked(st)
    ensures Tracked(r)
  {
    if st.pos.None? then st
    else
      match Simulate(cfg, bar, i, st.pos.value)
      case Exited(record) => Settle(st, record, i)
      case Held(pos) => st.(pos := Some(pos))
  }

  predicate Cooling(cfg: Config, i: nat, st: State) {
    st.lastEntry.Some? && cfg.cooldown > 0 && i - st.lastEntry.value < cfg.cooldown
  }

  function TryEnter(cfg: Config, policy: Policy, bars: seq<Bar>, i: nat, st: State): (r: State)
    requires i < |bars| && cfg.lotSize >= 1 && Tracked(st)
    ensures Tracked(r)
  {
    if st.pos.Some? || Cooling(cfg, i, st) then st
    else
      var pick := Evaluate(cfg, policy, bars[..i + 1], i, st.buffer);
      var seen := st.(buffer := pick.buffer);
      if pick.best.None? then seen
      else
        match Open(cfg, pick.best.value, pick.contributors, bars[i].close, st.capital, i)
        case None => seen
        case Some(pos) => seen.(pos := Some(pos), initial := Some(pos), lastEntry := Some(i))
  }

  function Step(cfg: Config, policy: Policy, bars: seq<Bar>, i: nat, st: State): (r: State)
    requires i < |bars| && cfg.lotSize >= 1 && Tracked(st)
    ensures Tracked(r)
  {
    TryEnter(cfg, policy, bars, i, CheckExit(cfg, bars[i], i, st))
  }

  /** The state after the bars before `n`. */
  function RunTo(cfg: Config, policy: Policy, capital: real, bars: seq<Bar>, n: nat): (r: State)
    requires n <= |bars| && cfg.lotSize >= 1
    ensures Tracked(r)
  {
    if n <= WARMUP then Start(capital)
    else Step(cfg, policy, bars, n - 1, RunTo(cfg, policy, capital, bars, n - 1))
  }

  lemma RunToStart(cfg: Config, policy: Policy, capital: real, bars: seq<Bar>, n: nat)
    requires n <= |bars| && n <= WARMUP && cfg.lotSize >= 1
    ensures RunTo(cfg, policy, capital, bars, n) == Start(capital)
  {
  }

  lemma RunToNext(cfg: Config, policy: Policy, capital: real, bars: seq<Bar>, n: nat)
    requires WARMUP <= n < |bars| && cfg.lotSize >= 1
    ensures RunTo(cfg, policy, capital, bars, n + 1) ==
            Step(cfg, policy, bars, n, RunTo(cfg, policy, capital, bars, n))
  {
    hide Step;
  }

  function CloseEod(cfg: Config, bars: seq<Bar>, st: State): State
    requires Tracked(st) && (st.pos.Some? ==> bars != [])
  {
    if st.pos.None? then st
    else
      var last := |bars| - 1;
      Settle(st, Record(cfg, st.pos.value, bars[last].close, EodExit, last - st.pos.value.bar), last)
  }

  function Run(cfg: Config, policy: Policy, capital: real, bars: seq<Bar>): State
    requires cfg.lotSize >= 1
  {
    CloseEod(cfg, bars, RunTo(cfg, policy, capital, bars, |bars|))
  }

  // ---- The loops -----------------------------------------------------------

  /** The dictionary describing the open trade; the ratchet overwrites its stop in place. */
  class OpenTrade {
    const side: Side
    const entry: real
    const target: Option<real>
    const qty: int
    const bar: nat
    const contributors: seq<string>
    var stop: real
    var trailed: bool

    constructor (side: Side, entry: real, stop: real, target: Option<real>, qty: int, bar: nat, contributors: seq<string>)
      ensures View() == Position(side, entry, stop, target, qty, bar, false, contributors)
    {
      this.side, this.entry, this.target, this.qty, this.bar := side, entry, target, qty, bar;
      this.stop, this.trailed, this.contributors := stop, false, contributors;
    }

    ghost function View(): Position
      reads this
    {
      Position(side, entry, stop, target, qty, bar, trailed, contributors)
    }
  }

  method SimulateTrade(cfg: Config, bars: seq<Bar>, i: nat, trade: OpenTrade)
    returns (record: Option<TradeRecord>, open: OpenTrade?)
    requires i < |bars|
    modifies trade
    ensures match Simulate(cfg, bars[i], i, old(trade.View()))
            case Exited(r) => record == Some(r) && open == null
            case Held(pos) => record == None && open == trade && trade.View() == pos
  {
    var bar := bars[i];
    var exitPrice: Option<real> := None;
    var reason := EodExit;
    if trade.side.Buy? {
      if bar.low <= trade.stop {
        exitPrice, reason := Some(trade.stop), if trade.trailed then TrailingExit else StopExit;
      } else if HasTarget(trade.target) && bar.high >= trade.target.value {
        exitPrice, reason := trade.target, TargetExit;
      }
    } else {
      if bar.high >= trade.stop {
        exitPrice, reason := Some(trade.stop), if trade.trailed then TrailingExit else StopExit;
      } else if HasTarget(trade.target) && bar.low <= trade.target.value {
        exitPrice, reason := trade.target, TargetExit;
      }
    }
    if exitPrice.None? && Trails(bar, cfg.trailMult) {
      var newStop := TrailLevel(bar, trade.side, cfg.trailMult);
      if trade.side.Buy? {
        if newStop > trade.stop {
          trade.stop := Round2(newStop);
          trade.trailed := true;
        }
      } else {
        if newStop < trade.stop {
          trade.stop := Round2(newStop);
          trade.trailed := true;
        }
      }
    }
    if exitPrice.Some? {
      var exit := exitPrice.value;
      var rawPnl := RawPnl(trade.side, trade.entry, exit, trade.qty);
      var netPnl := rawPnl - SlippageCost(exit, cfg.slip, trade.qty) - cfg.brokerage / 2.0;
      return Some(TradeRecord(trade.side, trade.entry, exit, trade.stop, trade.target, trade.qty,
                              Round2(netPnl), i - trade.bar, reason, trade.contributors)), null;
    }
    return None, trade;
  }

  method CloseAtLast(cfg: Config, bars: seq<Bar>, trade: OpenTrade) returns (record: TradeRecord)
    requires bars != []
    ensures record == Record(cfg, trade.View(), bars[|bars| - 1].close, EodExit, |bars| - 1 - trade.bar)
  {
    var lastClose := bars[|bars| - 1].close;
    var rawPnl := RawPnl(trade.side, trade.entry, lastClose, trade.qty);
    var netPnl := rawPnl - SlippageCost(lastClose, cfg.slip, trade.qty) - cfg.brokerage / 2.0;
    record := TradeRecord(trade.side, trade.entry, lastClose, trade.stop, trade.target, trade.qty,
                          Round2(netPnl), |bars| - 1 - trade.bar, EodExit, trade.contributors);
  }

  /** Reward gate, slippage, sizing from running capital, and the fresh trade if at least one unit fits. */
  method OpenPosition(cfg: Config, sig: Signal, contributors: seq<string>, close: real, capital: real, i: nat)
    returns (open: OpenTrade?)
    requires cfg.lotSize >= 1
    ensures Mirrors(open, Open(cfg, sig, contributors, close, capital, i))
    ensures open != null ==> fresh(open)
  {
    if !RrPasses(cfg, sig) {
      return null;
    }
    var fill := FillPrice(sig.side, close, cfg.slip);
    var qty := PositionSize(capital, cfg.riskPct, fill, sig.stop, cfg.lotSize);
    if qty < 1 {
      return null;
    }
    open := new OpenTrade(sig.side, Round2(fill), sig.stop, sig.target, qty, i, contributors);
  }

  /** The loop's heap object agrees with the specification's open position. */
  ghost predicate Mirrors(open: OpenTrade?, pos: Option<Position>)
    reads open
  {
    if open == null then pos == None else pos == Some(open.View())
  }

  /** One strategy through `run_backtest`. */
  method RunBacktest(cfg: Config, generate: Generator, capital: real, bars: seq<Bar>)
    returns (trades: seq<TradeRecord>, finalCapital: real)
    requires cfg.lotSize >= 1
    ensures trades == Run(cfg, Solo(generate), capital, bars).trades
    ensures finalCapital == Run(cfg, Solo(generate), capital, bars).capital
  {
    hide Simulate;
    hide Open;
    hide Record;
    hide MostConfident;
    ghost var policy := Solo(generate);
    trades, finalCapital := [], capital;
    var open: OpenTrade? := null;
    var lastEntry: Option<nat> := None;
    var i := WARMUP;
    ghost var st := Start(capital);
    hide RunTo;
    if |bars| <= WARMUP {
      RunToStart(cfg, policy, capital, bars, |bars|);
    } else {
      RunToStart(cfg, policy, capital, bars, WARMUP);
    }
    while i < |bars|
      invariant WARMUP <= i && (i <= |bars| || i == WARMUP)
      invariant st == if i <= |bars| then RunTo(cfg, policy, capital, bars, i) else Start(capital)
      invariant trades == st.trades && finalCapital == st.capital && lastEntry == st.lastEntry
      invariant Mirrors(open, st.pos)
      invariant open != null ==> fresh(open)
    {
      var close := bars[i].close;
      ghost var checked := CheckExit(cfg, bars[i], i, st);
      if open != null {
        var record;
        record, open := SimulateTrade(cfg, bars, i, open);
        if record.Some? {
          finalCapital := finalCapital + record.value.pnl;
          trades := trades + [record.value];
        }
      }
      if open == null {
        if !(lastEntry.Some? && cfg.cooldown > 0 && i - lastEntry.value < cfg.cooldown) {
          var signals := generate(bars[..i + 1]);
          if signals != [] {
            open := OpenPosition(cfg, MostConfident(signals), [], close, finalCapital, i);
            if open != null {
              lastEntry := Some(i);
            }
          }
        }
      }
      st := TryEnter(cfg, policy, bars, i, checked);
      RunToNext(cfg, policy, capital, bars, i);
      i := i + 1;
    }
    if open != null {
      var record := CloseAtLast(cfg, bars, open);
      finalCapital := finalCapital + record.pnl;
      trades := trades + [record];
    }
  }

  /** The signals of a bar, merged with the rolling buffer when memory is on, through the conviction filter. */
  method JudgeBar(cfg: Config, generate: Generator, minAgreement: int, minConfidence: real,
                  window: seq<Bar>, i: nat, before: seq<Entry>)
    returns (buffer: seq<Entry>, best: Option<Signal>, contributors: seq<string>)
    ensures Pick(buffer, best, contributors) ==
            Evaluate(cfg, Ensemble(generate, minAgreement, minConfidence), window, i, before)
  {
    hide Winner;
    hide Contributors;
    hide Latest;
    hide Prune;
    hide OnSide;
    hide Strong;
    hide StrategyNames;
    hide Conviction.Sorted;
    var signals := generate(window);
    buffer := before;
    var judged := signals;
    if cfg.memoryTicks > 1 {
      buffer := PushAndPrune(buffer, i, signals, i - cfg.memoryTicks);
      judged := LatestByStrategy(buffer);
    }
    best, contributors := PickEnsembleSignal(judged, minAgreement, minConfidence);
  }

  /** All strategies through `run_ensemble_backtest`, with its signal buffer. */
  method RunEnsembleBacktest(cfg: Config, generate: Generator, minAgreement: int, minConfidence: real,
                             capital: real, bars: seq<Bar>)
    returns (trades: seq<TradeRecord>, finalCapital: real)
    requires cfg.lotSize >= 1
    ensures trades == Run(cfg, Ensemble(generate, minAgreement, minConfidence), capital, bars).trades
    ensures finalCapital == Run(cfg, Ensemble(generate, minAgreement, minConfidence), capital, bars).capital
  {
    hide Evaluate;
    hide Simulate;
    hide Open;
    hide Record;
    ghost var policy := Ensemble(generate, minAgreement, minConfidence);
    trades, finalCapital := [], capital;
    var open: OpenTrade? := null;
    var lastEntry: Option<nat> := None;
    var buffer: seq<Entry> := [];
    var i := WARMUP;
    ghost var st := Start(capital);
    hide RunTo;
    if |bars| <= WARMUP {
      RunToStart(cfg, policy, capital, bars, |bars|);
    } else {
      RunToStart(cfg, policy, capital, bars, WARMUP);
    }
    while i < |bars|
      invariant WARMUP <= i && (i <= |bars| || i == WARMUP)
      invariant st == if i <= |bars| then RunTo(cfg, policy, capital, bars, i) else Start(capital)
      invariant trades == st.trades && finalCapital == st.capital && lastEntry == st.lastEntry && buffer == st.buffer
      invariant Mirrors(open, st.pos)
      invariant open != null ==> fresh(open)
    {
      var close := bars[i].close;
      ghost var checked := CheckExit(cfg, bars[i], i, st);
      if open != null {
        var record;
        record, open := SimulateTrade(cfg, bars, i, open);
        if record.Some? {
          finalCapital := finalCapital + record.value.pnl;
          trades := trades + [record.value];
        }
      }
      if open == null {
        if !(lastEntry.Some? && cfg.cooldown > 0 && i - lastEntry.value < cfg.cooldown) {
          var best, contributors;
          buffer, best, contributors :=
            JudgeBar(cfg, generate, minAgreement, minConfidence, bars[..i + 1], i, buffer);
          if best.Some? {
            open := OpenPosition(cfg, best.value, contributors, close, finalCapital, i);
            if open != null {
              lastEntry := Some(i);
            }
          }
        }
      }
      st := TryEnter(cfg, policy, bars, i, checked);
      RunToNext(cfg, policy, capital, bars, i);
      i := i + 1;
    }
    if open != null {
      var record := CloseAtLast(cfg, bars, open);
      finalCapital := finalCapital + record.pnl;
      trades := trades + [record];
    }
  }
}
