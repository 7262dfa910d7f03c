/** How much capital a run can lose: each trade risks at most its share of the capital it was sized on. */
module BacktestCapital {
  import opened Prelude
  import opened Rounding
  import opened Conviction
  import opened Sizing
  import opened SignalMemory
  import opened Backtest
  import opened BacktestRatchet

  // ---- What a single trade can lose ----------------------------------------

  function AtRisk(entry: real, stop: real, qty: int): real {
    Abs(entry - stop) * qty as real
  }

  /** Leaving at the target costs no more than leaving at the stop. */
  predicate TargetSafe(side: Side, entry: real, stop: real, target: Option<real>) {
    HasTarget(target) ==>
      if side.Buy? then target.value >= entry - Abs(entry - stop) else target.value <= entry + Abs(entry - stop)
  }

  function PerUnit(side: Side, entry: real, exit: real): real {
    if side.Buy? then exit - entry else entry - exit
  }

  lemma LossFloor(side: Side, entry: real, exit: real, stop: real, qty: int)
    requires qty >= 1
    ensures RawPnl(side, entry, exit, qty) >= -AtRisk(entry, stop, qty)
            <==> PerUnit(side, entry, exit) >= -Abs(entry - stop)
  {
  }

  /** No bar can make a position lose more than its risk if and only if its target is safe. */
  lemma RiskHoldsIffTargetSafe(pos: Position)
    requires pos.qty >= 1
    ensures (forall bar: Bar :: bar.low <= bar.close <= bar.high ==>
               match ExitOn(bar, pos)
               case None => true
               case Some((price, _)) => RawPnl(pos.side, pos.entry, price, pos.qty) >= -AtRisk(pos.entry, pos.stop, pos.qty))
            <==> TargetSafe(pos.side, pos.entry, pos.stop, pos.target)
  {
    if TargetSafe(pos.side, pos.entry, pos.stop, pos.target) {
      forall bar: Bar | ExitOn(bar, pos).Some?
        ensures RawPnl(pos.side, pos.entry, ExitOn(bar, pos).value.0, pos.qty) >= -AtRisk(pos.entry, pos.stop, pos.qty)
      {
        LossFloor(pos.side, pos.entry, ExitOn(bar, pos).value.0, pos.stop, pos.qty);
      }
    } else {
      var target := pos.target.value;
      var v := if pos.side.Buy? then Max(pos.stop + 1.0, target) else Min(pos.stop - 1.0, target);
      var bar := Bar(v, v, v, v, 0.0, None);
      assert ExitOn(bar, pos) == Some((target, TargetExit));
      LossFloor(pos.side, pos.entry, target, pos.stop, pos.qty);
    }
  }

  // ---- What the costs are --------------------------------------------------

  /** What rounding the fill to the cent adds to the cost of a position, per unit. */
  function RoundingCost(side: Side, fill: real): real {
    PerUnit(side, fill, Round2(fill))
  }

  /** A position the engine opens at a close and leaves at the same price loses the slippage of both legs, half a
      round-trip fee, and what rounding the fill to the cent moved against it: at most half a cent per unit. */
  lemma FlatRoundTrip(cfg: Config, sig: Signal, contributors: seq<string>, close: real, capital: real, i: nat)
    requires cfg.lotSize >= 1
    ensures match Open(cfg, sig, contributors, close, capital, i)
            case None => true
            case Some(pos) =>
              var rounding := RoundingCost(pos.side, FillPrice(pos.side, close, cfg.slip)) * pos.qty as real;
              && NetPnl(cfg, pos, close) ==
                 -2.0 * SlippageCost(close, cfg.slip, pos.qty) - cfg.brokerage / 2.0 - rounding
              && -0.005 * pos.qty as real <= rounding <= 0.005 * pos.qty as real
  {
    hide PositionSize;
    hide Round2;
    match Open(cfg, sig, contributors, close, capital, i)
    case None =>
    case Some(pos) =>
      var fill := FillPrice(pos.side, close, cfg.slip);
      RoundNear(fill);
      FlatSplit(cfg, pos, close, fill);
      PerUnitBound(RoundingCost(pos.side, fill), pos.qty);
  }

  lemma PerUnitBound(unit: real, qty: int)
    requires -0.005 <= unit <= 0.005 && qty >= 0
    ensures -0.005 * qty as real <= unit * qty as real <= 0.005 * qty as real
  {
  }

  lemma FlatSplit(cfg: Config, pos: Position, close: real, fill: real)
    requires fill == FillPrice(pos.side, close, cfg.slip) && pos.entry == Round2(fill)
    ensures NetPnl(cfg, pos, close) ==
            -2.0 * SlippageCost(close, cfg.slip, pos.qty) - cfg.brokerage / 2.0
            - RoundingCost(pos.side, fill) * pos.qty as real
  {
    hide Round2;
  }

  /** Opposite positions on the same prices lose exactly the costs of both between them. */
  lemma OppositeTradesLoseCosts(cfg: Config, pos: Position, exit: real)
    ensures NetPnl(cfg, pos, exit) + NetPnl(cfg, pos.(side := pos.side.Flip()), exit) ==
            -2.0 * SlippageCost(exit, cfg.slip, pos.qty) - cfg.brokerage
  {
  }

  // ---- Hypotheses of the bound ---------------------------------------------

  predicate Frictionless(cfg: Config) {
    cfg.lotSize >= 1 && cfg.slip == 0.0 && cfg.brokerage == 0.0 && 0.0 <= cfg.riskPct <= 100.0
  }

  predicate CleanBar(bar: Bar) {
    OnGrid(bar.close) && bar.low <= bar.close <= bar.high
  }

  predicate CleanSignal(sig: Signal, close: real) {
    && OnGrid(sig.stop)
    && (HasTarget(sig.target) ==> OnGrid(sig.target.value))
    && TargetSafe(sig.side, close, sig.stop, sig.target)
  }

  /** Prices on the cent grid, and every signal's stop and target fit for the close of its own bar. */
  ghost predicate Clean(policy: Policy, bars: seq<Bar>) {
    && (forall i :: 0 <= i < |bars| ==> CleanBar(bars[i]))
    && (forall i :: 0 <= i < |bars| ==> CleanAt(policy, bars, i))
  }

  ghost predicate CleanAt(policy: Policy, bars: seq<Bar>, i: nat)
    requires i < |bars|
  {
    forall sig :: sig in policy.generate(bars[..i + 1]) ==> CleanSignal(sig, bars[i].close)
  }

  /** The policy trades only signals of the current bar. */
  predicate Memoryless(cfg: Config, policy: Policy) {
    policy.Solo? || cfg.memoryTicks <= 1
  }

  // ---- One trade in a run --------------------------------------------------

  predicate SoundEntry(cfg: Config, bars: seq<Bar>, capital: real, pos: Position) {
    && pos.bar < |bars| && pos.entry == bars[pos.bar].close && OnGrid(pos.entry) && OnGrid(pos.stop) && pos.qty >= 1
    && (HasTarget(pos.target) ==> OnGrid(pos.target.value))
    && TargetSafe(pos.side, pos.entry, pos.stop, pos.target)
    && AtRisk(pos.entry, pos.stop, pos.qty) <= Budget(capital, cfg.riskPct)
  }

  lemma ExactPnl(cfg: Config, pos: Position, exit: real)
    requires Frictionless(cfg) && OnGrid(pos.entry) && OnGrid(exit)
    ensures Round2(NetPnl(cfg, pos, exit)) == RawPnl(pos.side, pos.entry, exit, pos.qty)
  {
    NoCosts(cfg, pos, exit);
    hide NetPnl;
    hide Round2;
    GridRaw(pos.side, pos.entry, exit, pos.qty);
    RoundGrid(RawPnl(pos.side, pos.entry, exit, pos.qty));
  }

  lemma GridRaw(side: Side, entry: real, exit: real, qty: int)
    requires OnGrid(entry) && OnGrid(exit)
    ensures OnGrid(RawPnl(side, entry, exit, qty))
  {
    GridProfit(exit, entry, qty);
    GridProfit(entry, exit, qty);
  }

  lemma NoCosts(cfg: Config, pos: Position, exit: real)
    requires cfg.slip == 0.0 && cfg.brokerage == 0.0
    ensures NetPnl(cfg, pos, exit) == RawPnl(pos.side, pos.entry, exit, pos.qty)
  {
  }

  /** The carried stop is at least as protective as the initial one, and the close of an untouched bar is beyond it. */
  lemma HeldStop(cfg: Config, bars: seq<Bar>, pos: Position, j: nat)
    requires pos.bar <= j < |bars| && OnGrid(pos.stop)
    ensures PerUnit(pos.side, pos.entry, HeldPos(cfg, bars, pos, j).stop) >= PerUnit(pos.side, pos.entry, pos.stop)
    ensures OnGrid(HeldPos(cfg, bars, pos, j).stop)
  {
    RatchetNeverLoosens(cfg, bars, pos, pos.bar, j);
    RatchetClosedForm(cfg, bars, pos, j);
  }

  lemma TouchLoss(cfg: Config, bars: seq<Bar>, capital: real, pos: Position, e: nat, record: TradeRecord)
    requires Frictionless(cfg) && SoundEntry(cfg, bars, capital, pos)
    requires FirstTouch(cfg, bars, pos, e, record)
    ensures record.pnl >= -Budget(capital, cfg.riskPct)
  {
    hide Round2;
    hide NetPnl;
    hide RawPnl;
    hide AtRisk;
    var held := HeldPos(cfg, bars, pos, e - 1);
    HeldKeeps(cfg, bars, pos, e - 1);
    HeldStop(cfg, bars, pos, e - 1);
    ExactPnl(cfg, held, record.exit);
    LossFloor(pos.side, pos.entry, record.exit, pos.stop, pos.qty);
  }

  /** On a bar that does not reach the stop in force, the close is beyond it. */
  lemma UntouchedClose(bar: Bar, held: Position, entry: real)
    requires CleanBar(bar) && ExitOn(bar, held).None?
    ensures PerUnit(held.side, entry, bar.close) >= PerUnit(held.side, entry, held.stop)
  {
  }

  lemma EndPerUnit(cfg: Config, bars: seq<Bar>, pos: Position, e: nat)
    requires pos.bar <= e < |bars| && CleanBar(bars[e]) && OnGrid(pos.stop) && pos.entry == bars[pos.bar].close
    requires Untouched(cfg, bars, pos, e)
    ensures PerUnit(pos.side, pos.entry, bars[e].close) >= -Abs(pos.entry - pos.stop)
  {
    hide OnGrid;
    hide ExitOn;
    if e > pos.bar {
      var held := HeldPos(cfg, bars, pos, e - 1);
      hide HeldPos;
      HeldKeeps(cfg, bars, pos, e - 1);
      HeldStop(cfg, bars, pos, e - 1);
      UntouchedClose(bars[e], held, pos.entry);
    }
  }

  lemma EndLoss(cfg: Config, bars: seq<Bar>, capital: real, pos: Position, e: nat, record: TradeRecord)
    requires Frictionless(cfg) && SoundEntry(cfg, bars, capital, pos)
    requires e < |bars| && CleanBar(bars[e])
    requires HeldToEnd(cfg, bars, pos, e, record)
    ensures record.pnl >= -Budget(capital, cfg.riskPct)
  {
    hide Round2;
    hide NetPnl;
    hide RawPnl;
    hide AtRisk;
    hide Untouched;
    hide HeldPos;
    HeldKeeps(cfg, bars, pos, e);
    ExactPnl(cfg, HeldPos(cfg, bars, pos, e), record.exit);
    EndPerUnit(cfg, bars, pos, e);
    LossFloor(pos.side, pos.entry, record.exit, pos.stop, pos.qty);
  }

  /** What is left of the capital after k trades that each lost their full share. */
  function Retained(capital: real, riskPct: real, k: nat): real {
    if k == 0 then capital else Retained(capital, riskPct, k - 1) * (1.0 - riskPct / 100.0)
  }

  lemma RetainedStep(capital: real, riskPct: real, k: nat, current: real, pnl: real)
    requires 0.0 <= riskPct <= 100.0
    requires current >= Retained(capital, riskPct, k) >= 0.0
    requires pnl >= -Budget(current, riskPct)
    ensures current + pnl >= Retained(capital, riskPct, k + 1) >= 0.0
  {
  }

  // ---- The run -------------------------------------------------------------

  ghost predicate Solvent(cfg: Config, capital: real, bars: seq<Bar>, st: State) {
    && st.capital >= Retained(capital, cfg.riskPct, |st.trades|) >= 0.0
    && Tracked(st)
    && (st.initial.Some? ==> SoundEntry(cfg, bars, st.capital, st.initial.value))
  }

  lemma ExitSolvent(cfg: Config, capital: real, bars: seq<Bar>, i: nat, st: State)
    requires i < |bars| && Frictionless(cfg)
    requires Explained(cfg, bars, i, st) && Solvent(cfg, capital, bars, st)
    ensures Solvent(cfg, capital, bars, CheckExit(cfg, bars[i], i, st))
  {
    hide SoundEntry;
    hide FirstTouch;
    ExitExplained(cfg, bars, i, st);
    if st.pos.Some? {
      match Simulate(cfg, bars[i], i, st.pos.value)
      case Exited(record) =>
        var after := CheckExit(cfg, bars[i], i, st);
        var k := |st.spans|;
        assert after.spans[k] == Span(st.initial.value, i) && after.trades[k] == record;
        TouchLoss(cfg, bars, st.capital, st.initial.value, i, record);
        RetainedStep(capital, cfg.riskPct, |st.trades|, st.capital, record.pnl);
      case Held(_) =>
    }
  }

  lemma OpenSound(cfg: Config, bars: seq<Bar>, sig: Signal, contributors: seq<string>, capital: real, i: nat)
    requires i < |bars| && Frictionless(cfg) && CleanBar(bars[i]) && CleanSignal(sig, bars[i].close)
    ensures match Open(cfg, sig, contributors, bars[i].close, capital, i)
            case None => true
            case Some(pos) => SoundEntry(cfg, bars, capital, pos)
  {
  }

  lemma PickedNow(cfg: Config, policy: Policy, window: seq<Bar>, i: nat, buffer: seq<Entry>)
    requires Memoryless(cfg, policy)
    ensures match Evaluate(cfg, policy, window, i, buffer).best
            case None => true
            case Some(sig) => sig in policy.generate(window)
  {
    var signals := policy.generate(window);
    match policy
    case Solo(_) =>
      if signals != [] {
        var k := MostConfidentIsFirst(signals);
      }
    case Ensemble(_, minAgreement, minConfidence) =>
      WinnerSound(signals, minAgreement, minConfidence);
  }

  lemma EntrySolvent(cfg: Config, policy: Policy, capital: real, bars: seq<Bar>, i: nat, st: State)
    requires i < |bars| && Frictionless(cfg) && Memoryless(cfg, policy)
    requires CleanBar(bars[i]) && CleanAt(policy, bars, i)
    requires Solvent(cfg, capital, bars, st)
    ensures Solvent(cfg, capital, bars, TryEnter(cfg, policy, bars, i, st))
  {
    hide SoundEntry;
    hide Open;
    hide Evaluate;
    if st.pos.None? && !Cooling(cfg, i, st) {
      var pick := Evaluate(cfg, policy, bars[..i + 1], i, st.buffer);
      PickedNow(cfg, policy, bars[..i + 1], i, st.buffer);
      if pick.best.Some? {
        OpenSound(cfg, bars, pick.best.value, pick.contributors, st.capital, i);
      }
    }
  }

  lemma {:induction false} RunSolvent(cfg: Config, policy: Policy, capital: real, bars: seq<Bar>, n: nat)
    requires Frictionless(cfg) && Memoryless(cfg, policy) && Clean(policy, bars)
    requires capital >= 0.0 && n <= |bars|
    ensures Solvent(cfg, capital, bars, RunTo(cfg, policy, capital, bars, n))
  {
    hide TryEnter;
    hide CheckExit;
    if n > WARMUP {
      hide Solvent;
      hide CleanBar;
      hide CleanAt;
      var before := RunTo(cfg, policy, capital, bars, n - 1);
      RunSolvent(cfg, policy, capital, bars, n - 1);
      RunExplained(cfg, policy, capital, bars, n - 1);
      ExitSolvent(cfg, capital, bars, n - 1, before);
      EntrySolvent(cfg, policy, capital, bars, n - 1, CheckExit(cfg, bars[n - 1], n - 1, before));
    }
  }

  /** After k trades, however they ended, at least capital * (1 - risk)^k is left. */
  lemma CapitalLowerBound(cfg: Config, policy: Policy, capital: real, bars: seq<Bar>)
    requires Frictionless(cfg) && Memoryless(cfg, policy) && Clean(policy, bars)
    requires capital >= 0.0
    ensures var st := Run(cfg, policy, capital, bars);
            st.capital >= Retained(capital, cfg.riskPct, |st.trades|) >= 0.0
  {
    hide RunTo;
    hide Solvent;
    hide Explained;
    hide CloseEod;
    hide Clean;
    RunSolvent(cfg, policy, capital, bars, |bars|);
    RunExplained(cfg, policy, capital, bars, |bars|);
    CleanBars(policy, bars);
    EodSolvent(cfg, capital, bars, RunTo(cfg, policy, capital, bars, |bars|));
  }

  lemma CleanBars(policy: Policy, bars: seq<Bar>)
    requires Clean(policy, bars)
    ensures forall i :: 0 <= i < |bars| ==> CleanBar(bars[i])
  {
  }

  lemma EodSolvent(cfg: Config, capital: real, bars: seq<Bar>, last: State)
    requires Frictionless(cfg)
    requires forall i :: 0 <= i < |bars| ==> CleanBar(bars[i])
    requires Explained(cfg, bars, |bars|, last) && Solvent(cfg, capital, bars, last)
    ensures last.pos.Some? ==> bars != []
    ensures var st := CloseEod(cfg, bars, last);
            st.capital >= Retained(capital, cfg.riskPct, |st.trades|) >= 0.0
  {
    hide SoundEntry;
    hide CleanBar;
    hide FirstTouch;
    hide NetPnl;
    hide Round2;
    hide Retained;
    hide Budget;
    hide Untouched;
    var n := |bars|;
    if last.pos.Some? {
      var pos := last.initial.value;
      HeldKeeps(cfg, bars, pos, n - 1);
      var record := Record(cfg, last.pos.value, bars[n - 1].close, EodExit, n - 1 - pos.bar);
      EndLoss(cfg, bars, last.capital, pos, n - 1, record);
      RetainedStep(capital, cfg.riskPct, |last.trades|, last.capital, record.pnl);
    }
  }
}
