/** Which bars a backtest enters on, at what price and in what size, and what an ensemble remembers. */
module BacktestEntries {
  import opened Prelude
  import opened Rounding
  import opened Conviction
  import opened SignalMemory
  import opened Sizing
  import opened Backtest
  import opened BacktestTiling

  // ---- How a position is opened --------------------------------------------

  /** The close moved against the trader by the slippage, before rounding. */
  function Filled(side: Side, close: real, slip: real): real {
    if side.Buy? then close + close * slip else close - close * slip
  }

  /** The part of the capital a trade may risk. */
  function RiskShare(cfg: Config, capital: real): real {
    capital * (cfg.riskPct / 100.0)
  }

  /** The distance of the unrounded fill from the signal's stop. */
  function UnitRisk(cfg: Config, sig: Signal, close: real): real {
    Abs(Filled(sig.side, close, cfg.slip) - sig.stop)
  }

  /** The gate on the signal's own prices: no target, or a target worth `minRr` times a risk that is not zero. */
  predicate Rewarding(cfg: Config, sig: Signal) {
    cfg.rrGate && sig.target.Some? ==>
      sig.entry != sig.stop && Abs(sig.target.value - sig.entry) >= cfg.minRr * Abs(sig.entry - sig.stop)
  }

  /** The position a signal is traded with at the close of bar i: its stop and target untouched, filled with slippage
      and rounded, in the largest quantity of whole lots the risk share of the capital pays for. */
  ghost predicate Trades(cfg: Config, sig: Signal, close: real, capital: real, i: nat, pos: Position)
    requires cfg.lotSize >= 1
  {
    && pos.side == sig.side && pos.stop == sig.stop && pos.target == sig.target && pos.bar == i && !pos.trailed
    && pos.entry == Round2(Filled(sig.side, close, cfg.slip))
    && Rewarding(cfg, sig)
    && pos.qty >= 1
    && LargestFit(RiskShare(cfg, capital), UnitRisk(cfg, sig, close), cfg.lotSize, pos.qty)
  }

  lemma FilledIs(side: Side, close: real, slip: real)
    ensures FillPrice(side, close, slip) == Filled(side, close, slip)
  {
  }

  lemma RewardingIs(cfg: Config, sig: Signal)
    ensures RrPasses(cfg, sig) <==> Rewarding(cfg, sig)
  {
    if cfg.rrGate && sig.target.Some? && sig.entry != sig.stop {
      QuotientAtLeast(Abs(sig.target.value - sig.entry), Abs(sig.entry - sig.stop), cfg.minRr);
    }
  }

  lemma QuotientAtLeast(x: real, d: real, bound: real)
    requires d > 0.0
    ensures x / d >= bound <==> x >= bound * d
  {
    assert x / d * d == x;
  }

  /** One whole lot is affordable at a stop off the fill. */
  predicate OneLotPaid(cfg: Config, sig: Signal, close: real, capital: real) {
    UnitRisk(cfg, sig, close) > 0.0 && cfg.lotSize as real * UnitRisk(cfg, sig, close) <= RiskShare(cfg, capital)
  }

  lemma SizeExact(cfg: Config, sig: Signal, close: real, capital: real)
    requires cfg.lotSize >= 1
    ensures var qty := PositionSize(capital, cfg.riskPct, FillPrice(sig.side, close, cfg.slip), sig.stop, cfg.lotSize);
            && (qty >= 1 <==> OneLotPaid(cfg, sig, close, capital))
            && (qty >= 1 ==> LargestFit(RiskShare(cfg, capital), UnitRisk(cfg, sig, close), cfg.lotSize, qty))
  {
    hide LargestFit;
    FilledIs(sig.side, close, cfg.slip);
    var fill := FillPrice(sig.side, close, cfg.slip);
    hide FillPrice;
    hide Filled;
    var budget := RiskShare(cfg, capital);
    if fill != sig.stop {
      SizeIsLargestFit(capital, cfg.riskPct, budget, fill, sig.stop, cfg.lotSize);
      OneLotFits(budget, Abs(fill - sig.stop), cfg.lotSize, PositionSize(capital, cfg.riskPct, fill, sig.stop, cfg.lotSize));
      hide PositionSize;
    }
    hide RiskShare;
  }

  /** A signal is traded if and only if it is rewarding and one whole lot is affordable; then as `Trades` says. */
  lemma OpenExact(cfg: Config, sig: Signal, contributors: seq<string>, close: real, capital: real, i: nat)
    requires cfg.lotSize >= 1
    ensures var pos := Open(cfg, sig, contributors, close, capital, i);
            && (pos.Some? <==> Rewarding(cfg, sig) && OneLotPaid(cfg, sig, close, capital))
            && (pos.Some? ==> Trades(cfg, sig, close, capital, i, pos.value) && pos.value.contributors == contributors)
  {
    FilledIs(sig.side, close, cfg.slip);
    RewardingIs(cfg, sig);
    SizeExact(cfg, sig, close, capital);
    hide FillPrice;
    hide Filled;
    hide RrPasses;
    hide Rewarding;
    hide PositionSize;
    hide OneLotPaid;
    hide LargestFit;
    hide UnitRisk;
    hide RiskShare;
  }

  // ---- When the engine is free to enter ------------------------------------

  /** Every earlier entry of the run lies at least the cooldown back. */
  ghost predicate Cooled(cfg: Config, spans: seq<Span>, i: nat) {
    cfg.cooldown <= 0 || forall k :: 0 <= k < |spans| ==> i - spans[k].initial.bar >= cfg.cooldown
  }

  lemma {:induction false} LastIsLatest(spans: seq<Span>, gap: int, k: nat)
    requires Spaced(spans, gap) && gap >= 1 && k < |spans|
    ensures spans[k].initial.bar <= spans[|spans| - 1].initial.bar
    decreases |spans| - k
  {
    if k + 1 < |spans| {
      LastIsLatest(spans, gap, k + 1);
    }
  }

  lemma CooledIff(cfg: Config, capital: real, n: nat, i: nat, st: State)
    requires Placed(cfg, capital, n, st) && Running(cfg, n, st) && st.pos.None?
    ensures Cooling(cfg, i, st) <==> !Cooled(cfg, st.spans, i)
  {
    forall k | 0 <= k < |st.spans|
      ensures st.spans[k].initial.bar <= st.spans[|st.spans| - 1].initial.bar
    {
      LastIsLatest(st.spans, Gap(cfg), k);
    }
    hide Placed;
    if st.spans != [] {
      var last := |st.spans| - 1;
      assert st.lastEntry == Some(st.spans[last].initial.bar);
    }
  }

  lemma TryEnterExact(cfg: Config, policy: Policy, bars: seq<Bar>, i: nat, st: State)
    requires cfg.lotSize >= 1 && i < |bars| && Tracked(st) && st.pos.None?
    ensures var best := Evaluate(cfg, policy, bars[..i + 1], i, st.buffer).best;
            var after := TryEnter(cfg, policy, bars, i, st);
            && (after.pos.Some? <==>
                  && !Cooling(cfg, i, st) && best.Some?
                  && Rewarding(cfg, best.value) && OneLotPaid(cfg, best.value, bars[i].close, st.capital))
            && (after.pos.Some? ==> Trades(cfg, best.value, bars[i].close, st.capital, i, after.pos.value))
  {
    hide Evaluate;
    hide Open;
    hide Trades;
    hide Rewarding;
    hide OneLotPaid;
    hide Cooling;
    var pick := Evaluate(cfg, policy, bars[..i + 1], i, st.buffer);
    if pick.best.Some? {
      OpenExact(cfg, pick.best.value, pick.contributors, bars[i].close, st.capital, i);
    }
  }

  /** A flat bar after the warm-up opens a position exactly when every earlier entry lies the cooldown back, the policy
      picks a signal, the signal is rewarding and one lot of it is affordable; the position is then as `Trades` says. */
  lemma FlatBarEnters(cfg: Config, policy: Policy, capital: real, bars: seq<Bar>, i: nat)
    requires cfg.lotSize >= 1 && WARMUP <= i < |bars|
    requires CheckExit(cfg, bars[i], i, RunTo(cfg, policy, capital, bars, i)).pos.None?
    ensures var st := CheckExit(cfg, bars[i], i, RunTo(cfg, policy, capital, bars, i));
            var best := Evaluate(cfg, policy, bars[..i + 1], i, st.buffer).best;
            var after := RunTo(cfg, policy, capital, bars, i + 1);
            && st.capital == capital + Sum(Pnls(st.trades))
            && (after.pos.Some? <==>
                  && Cooled(cfg, st.spans, i) && best.Some?
                  && Rewarding(cfg, best.value) && OneLotPaid(cfg, best.value, bars[i].close, st.capital))
            && (after.pos.Some? ==> Trades(cfg, best.value, bars[i].close, st.capital, i, after.pos.value))
  {
    hide Evaluate;
    hide Trades;
    hide Rewarding;
    hide OneLotPaid;
    hide Cooled;
    hide Cooling;
    hide CheckExit;
    hide TryEnter;
    hide RunTo;
    hide Placed;
    hide Running;
    var before := RunTo(cfg, policy, capital, bars, i);
    var st := CheckExit(cfg, bars[i], i, before);
    RunPlaced(cfg, policy, capital, bars, i);
    ExitPlaced(cfg, capital, bars[i], i, before);
    CooledIff(cfg, capital, i + 1, i, st);
    PlacedCapital(cfg, capital, i + 1, st);
    RunToNext(cfg, policy, capital, bars, i);
    TryEnterExact(cfg, policy, bars, i, st);
  }

  lemma PlacedCapital(cfg: Config, capital: real, n: nat, st: State)
    requires Placed(cfg, capital, n, st)
    ensures st.capital == capital + Sum(Pnls(st.trades))
  {
  }

  // ---- What an ensemble remembers ------------------------------------------

  /** Bar i is evaluated: the engine is flat after the exit check, and every earlier entry lies the cooldown back. */
  ghost predicate Evaluated(cfg: Config, policy: Policy, capital: real, bars: seq<Bar>, i: nat)
    requires cfg.lotSize >= 1 && i < |bars|
  {
    var st := CheckExit(cfg, bars[i], i, RunTo(cfg, policy, capital, bars, i));
    st.pos.None? && Cooled(cfg, st.spans, i)
  }

  /** Every signal generated on an evaluated bar before bar n, never pruned. */
  ghost function SignalLog(cfg: Config, policy: Policy, capital: real, bars: seq<Bar>, n: nat): seq<Entry>
    requires cfg.lotSize >= 1 && n <= |bars|
  {
    if n <= WARMUP then []
    else
      var log := SignalLog(cfg, policy, capital, bars, n - 1);
      if Evaluated(cfg, policy, capital, bars, n - 1) then log + Tag(n - 1, policy.generate(bars[..n])) else log
  }

  /** The last evaluated bar before bar n, or 0. */
  ghost function LastEvaluated(cfg: Config, policy: Policy, capital: real, bars: seq<Bar>, n: nat): (b: nat)
    requires cfg.lotSize >= 1 && n <= |bars|
    ensures b <= n
  {
    if n <= WARMUP then 0
    else if Evaluated(cfg, policy, capital, bars, n - 1) then n - 1
    else LastEvaluated(cfg, policy, capital, bars, n - 1)
  }

  predicate Remembering(cfg: Config, policy: Policy) {
    policy.Ensemble? && cfg.memoryTicks > 1
  }

  /** The buffer holds the signals of the evaluated bars, cut to the window of the last evaluation. */
  ghost predicate Remembers(cfg: Config, policy: Policy, capital: real, bars: seq<Bar>, n: nat, buffer: seq<Entry>)
    requires cfg.lotSize >= 1 && n <= |bars|
  {
    var log := SignalLog(cfg, policy, capital, bars, n);
    && TickSorted(log) && (forall e :: e in log ==> e.tick < n)
    && (Remembering(cfg, policy) ==>
          buffer == Within(log, LastEvaluated(cfg, policy, capital, bars, n) - cfg.memoryTicks))
  }

  /** What an evaluated bar picks, on the unpruned log, and the strategies it credits. */
  ghost predicate PickedOn(cfg: Config, policy: Policy, capital: real, bars: seq<Bar>, i: nat, sig: Signal, names: seq<string>)
    requires cfg.lotSize >= 1 && i < |bars|
  {
    var signals := policy.generate(bars[..i + 1]);
    match policy
    case Solo(_) => names == [] && exists k :: FirstMostConfident(signals, k, sig)
    case Ensemble(_, minAgreement, minConfidence) =>
      var log := SignalLog(cfg, policy, capital, bars, i) + Tag(i, signals);
      var judged := if cfg.memoryTicks <= 1 then signals else Latest(Within(log, i - cfg.memoryTicks));
      && Winner(judged, minAgreement, minConfidence) == Some(sig)
      && Sorted(names)
      && multiset(names) == multiset(StrategyNames(OnSide(Strong(judged, minConfidence), sig.side)))
  }

  lemma ContributorsSorted(signals: seq<Signal>, minAgreement: int, minConfidence: real)
    requires Winner(signals, minAgreement, minConfidence).Some?
    ensures var names := Contributors(signals, minAgreement, minConfidence);
            var side := Winner(signals, minAgreement, minConfidence).value.side;
            && Sorted(names) && multiset(names) == multiset(StrategyNames(OnSide(Strong(signals, minConfidence), side)))
  {
    hide Winner;
    var side := Winner(signals, minAgreement, minConfidence).value.side;
    SortNamesCorrect(StrategyNames(OnSide(Strong(signals, minConfidence), side)));
  }

  lemma SoloPicks(cfg: Config, policy: Policy, capital: real, bars: seq<Bar>, i: nat, buffer: seq<Entry>)
    requires cfg.lotSize >= 1 && i < |bars| && policy.Solo?
    ensures var pick := Evaluate(cfg, policy, bars[..i + 1], i, buffer);
            pick.best.Some? ==> PickedOn(cfg, policy, capital, bars, i, pick.best.value, pick.contributors)
  {
    var signals := policy.generate(bars[..i + 1]);
    if signals != [] {
      var k := MostConfidentIsFirst(signals);
    }
  }

  /** One evaluation of the buffer is one append to the log. */
  lemma EnsembleStep(cfg: Config, policy: Policy, capital: real, bars: seq<Bar>, i: nat, buffer: seq<Entry>)
    requires cfg.lotSize >= 1 && i < |bars| && Remembering(cfg, policy) && Remembers(cfg, policy, capital, bars, i, buffer)
    ensures var log := SignalLog(cfg, policy, capital, bars, i) + Tag(i, policy.generate(bars[..i + 1]));
            var pick := Evaluate(cfg, policy, bars[..i + 1], i, buffer);
            && TickSorted(log) && (forall e :: e in log ==> e.tick < i + 1)
            && pick.buffer == Within(log, i - cfg.memoryTicks)
            && pick.best == Winner(Latest(pick.buffer), policy.minAgreement, policy.minConfidence)
            && pick.contributors == Contributors(Latest(pick.buffer), policy.minAgreement, policy.minConfidence)
  {
    hide Winner;
    hide Latest;
    hide SignalLog;
    hide LastEvaluated;
    hide Prune;
    hide Within;
    hide TickSorted;
    hide Contributors;
    var older := LastEvaluated(cfg, policy, capital, bars, i) - cfg.memoryTicks;
    PushRefinesLog(SignalLog(cfg, policy, capital, bars, i), older, i, policy.generate(bars[..i + 1]), i - cfg.memoryTicks);
  }

  lemma EnsemblePicks(cfg: Config, policy: Policy, capital: real, bars: seq<Bar>, i: nat, buffer: seq<Entry>)
    requires cfg.lotSize >= 1 && i < |bars| && Remembering(cfg, policy) && Remembers(cfg, policy, capital, bars, i, buffer)
    ensures var pick := Evaluate(cfg, policy, bars[..i + 1], i, buffer);
            pick.best.Some? ==> PickedOn(cfg, policy, capital, bars, i, pick.best.value, pick.contributors)
  {
    hide Remembers;
    hide Evaluate;
    hide Winner;
    hide Latest;
    hide Within;
    hide TickSorted;
    hide SignalLog;
    hide Tag;
    hide Contributors;
    hide OnSide;
    hide Strong;
    hide StrategyNames;
    hide Sorted;
    EnsembleStep(cfg, policy, capital, bars, i, buffer);
    var pick := Evaluate(cfg, policy, bars[..i + 1], i, buffer);
    if pick.best.Some? {
      ContributorsSorted(Latest(pick.buffer), policy.minAgreement, policy.minConfidence);
    }
  }

  lemma ForgetfulPicks(cfg: Config, policy: Policy, capital: real, bars: seq<Bar>, i: nat, buffer: seq<Entry>)
    requires cfg.lotSize >= 1 && i < |bars| && policy.Ensemble? && cfg.memoryTicks <= 1
    ensures var pick := Evaluate(cfg, policy, bars[..i + 1], i, buffer);
            pick.best.Some? ==> PickedOn(cfg, policy, capital, bars, i, pick.best.value, pick.contributors)
  {
    hide Winner;
    hide SignalLog;
    hide Contributors;
    hide OnSide;
    hide Strong;
    hide StrategyNames;
    hide Sorted;
    var signals := policy.generate(bars[..i + 1]);
    if Winner(signals, policy.minAgreement, policy.minConfidence).Some? {
      ContributorsSorted(signals, policy.minAgreement, policy.minConfidence);
    }
  }

  lemma EvaluatePicks(cfg: Config, policy: Policy, capital: real, bars: seq<Bar>, i: nat, buffer: seq<Entry>)
    requires cfg.lotSize >= 1 && i < |bars| && Remembers(cfg, policy, capital, bars, i, buffer)
    ensures var pick := Evaluate(cfg, policy, bars[..i + 1], i, buffer);
            pick.best.Some? ==> PickedOn(cfg, policy, capital, bars, i, pick.best.value, pick.contributors)
  {
    hide Remembers;
    hide Evaluate;
    hide PickedOn;
    if policy.Solo? {
      SoloPicks(cfg, policy, capital, bars, i, buffer);
    } else if cfg.memoryTicks > 1 {
      EnsemblePicks(cfg, policy, capital, bars, i, buffer);
    } else {
      ForgetfulPicks(cfg, policy, capital, bars, i, buffer);
    }
  }

  lemma LogStep(cfg: Config, policy: Policy, capital: real, bars: seq<Bar>, i: nat)
    requires cfg.lotSize >= 1 && WARMUP <= i < |bars|
    ensures SignalLog(cfg, policy, capital, bars, i + 1) ==
            SignalLog(cfg, policy, capital, bars, i) +
            if Evaluated(cfg, policy, capital, bars, i) then Tag(i, policy.generate(bars[..i + 1])) else []
    ensures LastEvaluated(cfg, policy, capital, bars, i + 1) ==
            if Evaluated(cfg, policy, capital, bars, i) then i else LastEvaluated(cfg, policy, capital, bars, i)
  {
    hide Evaluated;
    hide Tag;
  }

  lemma BufferStep(cfg: Config, policy: Policy, bars: seq<Bar>, i: nat, st: State)
    requires cfg.lotSize >= 1 && i < |bars| && Tracked(st)
    ensures TryEnter(cfg, policy, bars, i, st).buffer ==
            if st.pos.None? && !Cooling(cfg, i, st) then Evaluate(cfg, policy, bars[..i + 1], i, st.buffer).buffer
            else st.buffer
  {
    hide Evaluate;
    hide Open;
    hide Cooling;
  }

  /** Whether an evaluated bar's pick leads to a position or not, the buffer has taken its signals in. */
  lemma RemembersNext(cfg: Config, policy: Policy, capital: real, bars: seq<Bar>, i: nat, st: State)
    requires cfg.lotSize >= 1 && WARMUP <= i < |bars|
    requires st == CheckExit(cfg, bars[i], i, RunTo(cfg, policy, capital, bars, i))
    requires st.pos.None? ==> (Cooling(cfg, i, st) <==> !Cooled(cfg, st.spans, i))
    requires Remembers(cfg, policy, capital, bars, i, st.buffer)
    ensures Remembers(cfg, policy, capital, bars, i + 1, TryEnter(cfg, policy, bars, i, st).buffer)
  {
    hide RunTo;
    hide CheckExit;
    hide Cooled;
    hide Cooling;
    hide TryEnter;
    hide Evaluate;
    hide Within;
    hide Tag;
    hide TickSorted;
    hide SignalLog;
    hide LastEvaluated;
    BufferStep(cfg, policy, bars, i, st);
    LogStep(cfg, policy, capital, bars, i);
    if Evaluated(cfg, policy, capital, bars, i) {
      TaggedSorted(SignalLog(cfg, policy, capital, bars, i), i, policy.generate(bars[..i + 1]));
      if Remembering(cfg, policy) {
        EnsembleStep(cfg, policy, capital, bars, i, st.buffer);
      }
    } else {
      assert SignalLog(cfg, policy, capital, bars, i + 1) == SignalLog(cfg, policy, capital, bars, i);
    }
  }

  lemma TaggedSorted(log: seq<Entry>, tick: int, signals: seq<Signal>)
    requires TickSorted(log) && forall e :: e in log ==> e.tick < tick
    ensures TickSorted(log + Tag(tick, signals)) && forall e :: e in log + Tag(tick, signals) ==> e.tick < tick + 1
  {
  }

  // ---- Every entry of a run ------------------------------------------------

  /** Position `pos` was opened on the signal picked on its bar, sized on the given capital; `start` is the capital the
      run began with. */
  ghost predicate FairEntry(cfg: Config, policy: Policy, start: real, bars: seq<Bar>, capital: real, pos: Position)
    requires cfg.lotSize >= 1
  {
    && WARMUP <= pos.bar < |bars|
    && exists sig :: PickedOn(cfg, policy, start, bars, pos.bar, sig, pos.contributors) && Trades(cfg, sig, bars[pos.bar].close, capital, pos.bar, pos)
  }

  lemma FairFrom(cfg: Config, policy: Policy, start: real, bars: seq<Bar>, capital: real, i: nat, sig: Signal,
                 names: seq<string>, pos: Option<Position>)
    requires cfg.lotSize >= 1 && WARMUP <= i < |bars| && PickedOn(cfg, policy, start, bars, i, sig, names)
    requires pos.Some? ==> Trades(cfg, sig, bars[i].close, capital, i, pos.value) && pos.value.contributors == names
    ensures pos.Some? ==> FairEntry(cfg, policy, start, bars, capital, pos.value)
  {
    hide PickedOn;
    hide LargestFit;
    hide Rewarding;
  }

  /** The k-th position was opened fairly on the capital recorded before it. */
  ghost predicate FairAt(cfg: Config, policy: Policy, start: real, bars: seq<Bar>, st: State, k: nat)
    requires cfg.lotSize >= 1 && k < |st.spans| == |st.trades|
  {
    FairEntry(cfg, policy, start, bars, start + Sum(Pnls(st.trades[..k])), st.spans[k].initial)
  }

  lemma FairAtKept(cfg: Config, policy: Policy, start: real, bars: seq<Bar>, st: State, after: State, k: nat)
    requires cfg.lotSize >= 1 && k < |st.spans| == |st.trades| && |after.spans| == |after.trades|
    requires st.spans <= after.spans && st.trades <= after.trades && FairAt(cfg, policy, start, bars, st, k)
    ensures FairAt(cfg, policy, start, bars, after, k)
  {
    hide FairEntry;
    hide Sum;
    hide Pnls;
    assert after.trades[..k] == st.trades[..k];
  }

  ghost predicate Entered(cfg: Config, policy: Policy, bars: seq<Bar>, capital: real, n: nat, st: State)
    requires cfg.lotSize >= 1 && n <= |bars|
  {
    && Tracked(st) && |st.spans| == |st.trades|
    && st.capital == capital + Sum(Pnls(st.trades))
    && Remembers(cfg, policy, capital, bars, n, st.buffer)
    && (forall k :: 0 <= k < |st.spans| ==> FairAt(cfg, policy, capital, bars, st, k))
    && (st.initial.Some? ==> FairEntry(cfg, policy, capital, bars, st.capital, st.initial.value))
  }

  lemma AllFair(cfg: Config, policy: Policy, start: real, bars: seq<Bar>, st: State, after: State)
    requires cfg.lotSize >= 1 && |st.spans| == |st.trades| && |after.spans| == |after.trades|
    requires st.spans <= after.spans && st.trades <= after.trades
    requires forall k :: 0 <= k < |st.spans| ==> FairAt(cfg, policy, start, bars, st, k)
    ensures forall k :: 0 <= k < |st.spans| ==> FairAt(cfg, policy, start, bars, after, k)
  {
    hide FairAt;
    forall k | 0 <= k < |st.spans| ensures FairAt(cfg, policy, start, bars, after, k) {
      FairAtKept(cfg, policy, start, bars, st, after, k);
    }
  }

  lemma NewestFair(cfg: Config, policy: Policy, start: real, bars: seq<Bar>, st: State, record: TradeRecord, i: nat)
    requires cfg.lotSize >= 1 && |st.spans| == |st.trades| && st.initial.Some?
    requires FairEntry(cfg, policy, start, bars, start + Sum(Pnls(st.trades)), st.initial.value)
    ensures FairAt(cfg, policy, start, bars, Settle(st, record, i), |st.spans|)
  {
    hide FairEntry;
    hide Sum;
    hide Pnls;
    assert Settle(st, record, i).trades[..|st.trades|] == st.trades;
  }

  lemma SettleFields(st: State, record: TradeRecord, i: nat)
    requires st.initial.Some? && |st.spans| == |st.trades|
    ensures var after := Settle(st, record, i);
            && after.pos == None && after.initial == None && after.buffer == st.buffer
            && after.capital == st.capital + record.pnl && after.trades == st.trades + [record]
            && st.spans <= after.spans && |after.spans| == |st.spans| + 1
  {
  }

  lemma SettleEntered(cfg: Config, policy: Policy, bars: seq<Bar>, capital: real, n: nat, st: State, record: TradeRecord, i: nat)
    requires cfg.lotSize >= 1 && n <= |bars| && Entered(cfg, policy, bars, capital, n, st) && st.initial.Some?
    ensures Entered(cfg, policy, bars, capital, n, Settle(st, record, i))
  {
    hide FairEntry;
    hide FairAt;
    hide Remembers;
    hide Sum;
    hide Pnls;
    hide Settle;
    var after := Settle(st, record, i);
    SettleFields(st, record, i);
    PnlsAppend(st.trades, record);
    NewestFair(cfg, policy, capital, bars, st, record, i);
    AllFair(cfg, policy, capital, bars, st, after);
  }

  lemma ExitEntered(cfg: Config, policy: Policy, bars: seq<Bar>, capital: real, i: nat, st: State)
    requires cfg.lotSize >= 1 && i < |bars| && Entered(cfg, policy, bars, capital, i, st)
    ensures Entered(cfg, policy, bars, capital, i, CheckExit(cfg, bars[i], i, st))
  {
    hide FairEntry;
    hide FairAt;
    hide Remembers;
    hide Record;
    hide Sum;
    hide Pnls;
    var after := CheckExit(cfg, bars[i], i, st);
    if st.pos.Some? {
      match Simulate(cfg, bars[i], i, st.pos.value)
      case Exited(record) => SettleEntered(cfg, policy, bars, capital, i, st, record, i);
      case Held(_) =>
        AllFair(cfg, policy, capital, bars, st, after);
    }
  }

  /** What trying to enter can change apart from the buffer: a fair position appears. */
  lemma EntryCases(cfg: Config, policy: Policy, capital: real, bars: seq<Bar>, i: nat, st: State)
    requires cfg.lotSize >= 1 && WARMUP <= i < |bars| && Tracked(st)
    requires Remembers(cfg, policy, capital, bars, i, st.buffer)
    ensures var after := TryEnter(cfg, policy, bars, i, st);
            && after.trades == st.trades && after.spans == st.spans && after.capital == st.capital
            && (after.initial == st.initial
                || (after.initial.Some? && FairEntry(cfg, policy, capital, bars, st.capital, after.initial.value)))
  {
    hide Evaluate;
    hide Open;
    hide Trades;
    hide PickedOn;
    hide Cooling;
    hide Remembers;
    hide FairEntry;
    EvaluatePicks(cfg, policy, capital, bars, i, st.buffer);
    var pick := Evaluate(cfg, policy, bars[..i + 1], i, st.buffer);
    if pick.best.Some? {
      var pos := Open(cfg, pick.best.value, pick.contributors, bars[i].close, st.capital, i);
      OpenExact(cfg, pick.best.value, pick.contributors, bars[i].close, st.capital, i);
      FairFrom(cfg, policy, capital, bars, st.capital, i, pick.best.value, pick.contributors, pos);
    }
  }

  lemma EntryEntered(cfg: Config, policy: Policy, bars: seq<Bar>, capital: real, i: nat, st: State)
    requires cfg.lotSize >= 1 && WARMUP <= i < |bars| && Entered(cfg, policy, bars, capital, i, st)
    requires Remembers(cfg, policy, capital, bars, i + 1, TryEnter(cfg, policy, bars, i, st).buffer)
    ensures Entered(cfg, policy, bars, capital, i + 1, TryEnter(cfg, policy, bars, i, st))
  {
    hide TryEnter;
    hide Remembers;
    hide FairEntry;
    hide FairAt;
    hide Sum;
    hide Pnls;
    EntryCases(cfg, policy, capital, bars, i, st);
    var after := TryEnter(cfg, policy, bars, i, st);
    AllFair(cfg, policy, capital, bars, st, after);
  }

  lemma StartEntered(cfg: Config, policy: Policy, bars: seq<Bar>, capital: real, n: nat)
    requires cfg.lotSize >= 1 && n <= |bars| && n <= WARMUP
    ensures Entered(cfg, policy, bars, capital, n, Start(capital))
  {
    assert Sum(Pnls([])) == 0.0;
    WithinNone([], -cfg.memoryTicks);
  }

  lemma {:induction false} RunEntered(cfg: Config, policy: Policy, capital: real, bars: seq<Bar>, n: nat)
    requires cfg.lotSize >= 1 && n <= |bars|
    ensures Entered(cfg, policy, bars, capital, n, RunTo(cfg, policy, capital, bars, n))
  {
    hide TryEnter;
    hide CheckExit;
    hide Entered;
    hide Placed;
    hide Running;
    hide Cooling;
    hide Cooled;
    hide Remembers;
    if n <= WARMUP {
      StartEntered(cfg, policy, bars, capital, n);
    } else {
      var i: nat := n - 1;
      var before := RunTo(cfg, policy, capital, bars, i);
      var st := CheckExit(cfg, bars[i], i, before);
      RunEntered(cfg, policy, capital, bars, i);
      ExitEntered(cfg, policy, bars, capital, i, before);
      RunPlaced(cfg, policy, capital, bars, i);
      ExitPlaced(cfg, capital, bars[i], i, before);
      if st.pos.None? {
        CooledIff(cfg, capital, i + 1, i, st);
      }
      EnteredRemembers(cfg, policy, bars, capital, i, st);
      RemembersNext(cfg, policy, capital, bars, i, st);
      EntryEntered(cfg, policy, bars, capital, i, st);
    }
  }

  lemma EnteredRemembers(cfg: Config, policy: Policy, bars: seq<Bar>, capital: real, n: nat, st: State)
    requires cfg.lotSize >= 1 && n <= |bars| && Entered(cfg, policy, bars, capital, n, st)
    ensures Remembers(cfg, policy, capital, bars, n, st.buffer)
  {
    hide Remembers;
  }

  /** Whatever it traded and skipped, an ensemble's buffer is the part of its unpruned signal log that lies within the
      window of the last evaluated bar. */
  lemma BufferRefinesLog(cfg: Config, policy: Policy, capital: real, bars: seq<Bar>, n: nat)
    requires cfg.lotSize >= 1 && n <= |bars| && Remembering(cfg, policy)
    ensures RunTo(cfg, policy, capital, bars, n).buffer ==
            Within(SignalLog(cfg, policy, capital, bars, n), LastEvaluated(cfg, policy, capital, bars, n) - cfg.memoryTicks)
  {
    hide RunTo;
    hide Entered;
    hide SignalLog;
    hide LastEvaluated;
    hide Within;
    hide TickSorted;
    RunEntered(cfg, policy, capital, bars, n);
    EnteredRemembers(cfg, policy, bars, capital, n, RunTo(cfg, policy, capital, bars, n));
  }

  lemma OpenMeansBars(cfg: Config, policy: Policy, bars: seq<Bar>, capital: real, n: nat, st: State)
    requires cfg.lotSize >= 1 && n <= |bars| && Entered(cfg, policy, bars, capital, n, st)
    ensures st.pos.Some? ==> bars != []
  {
    hide Trades;
    hide PickedOn;
    hide Remembers;
  }

  /** Every position of every run was opened on the signal picked on its bar, filled at that bar's close with slippage,
      on the signal's stop and target, in the largest affordable size on the capital recorded up to then. */
  lemma EveryEntryFair(cfg: Config, policy: Policy, capital: real, bars: seq<Bar>, k: nat)
    requires cfg.lotSize >= 1 && k < |Run(cfg, policy, capital, bars).spans|
    ensures var st := Run(cfg, policy, capital, bars);
            && |st.spans| == |st.trades|
            && FairEntry(cfg, policy, capital, bars, capital + Sum(Pnls(st.trades[..k])), st.spans[k].initial)
  {
    hide FairEntry;
    hide RunTo;
    hide NetPnl;
    hide Round2;
    hide Remembers;
    hide Sum;
    hide Pnls;
    RunEntered(cfg, policy, capital, bars, |bars|);
    var last := RunTo(cfg, policy, capital, bars, |bars|);
    OpenMeansBars(cfg, policy, bars, capital, |bars|, last);
    if last.pos.Some? {
      var n := |bars| - 1;
      SettleEntered(cfg, policy, bars, capital, |bars|, last,
                    Record(cfg, last.pos.value, bars[n].close, EodExit, n - last.pos.value.bar), n);
    }
    assert FairAt(cfg, policy, capital, bars, Run(cfg, policy, capital, bars), k);
  }
}
