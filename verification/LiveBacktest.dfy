/** The ensemble backtest against the live pipeline: same memory, same choice, different cooldown clocks. */
module LiveBacktest {
  import opened Prelude
  import opened Conviction
  import opened SignalMemory
  import O = Orchestrator
  import B = Backtest
  import R = Risk
  import T = TradeBook
  import Rounding

  /** Both sides run under the same conviction and memory settings. */
  predicate SameSettings(cfg: B.Config, policy: B.Policy, s: R.Settings) {
    && policy.Ensemble?
    && s.memoryTicks == cfg.memoryTicks
    && s.minAgreement == policy.minAgreement && s.minConfidence == policy.minConfidence
  }

  // ---- The ensemble loop against the live pipeline -------------------------

  /** The same log on a clock that is `d` ahead. */
  function Shift(log: seq<Entry>, d: int): seq<Entry> {
    seq(|log|, i requires 0 <= i < |log| => Entry(log[i].tick + d, log[i].signal))
  }

  lemma {:induction false} ShiftPrune(log: seq<Entry>, cutoff: int, d: int)
    ensures Prune(Shift(log, d), cutoff + d) == Shift(Prune(log, cutoff), d)
  {
    if log != [] && log[0].tick <= cutoff {
      assert Shift(log, d)[1..] == Shift(log[1..], d);
      ShiftPrune(log[1..], cutoff, d);
    }
  }

  lemma {:induction false} ShiftLatest(log: seq<Entry>, d: int)
    ensures Latest(Shift(log, d)) == Latest(log)
  {
    if log != [] {
      var n := |log| - 1;
      assert Shift(log, d)[..n] == Shift(log[..n], d);
      ShiftLatest(log[..n], d);
    }
  }

  lemma ShiftPush(log: seq<Entry>, tick: int, signals: seq<Signal>, d: int)
    ensures Shift(log, d) + Tag(tick + d, signals) == Shift(log + Tag(tick, signals), d)
  {
  }

  /** One bar and one call: the clocks may differ by any amount, as long as the remembered logs differ by the same. */
  lemma PickStep(cfg: B.Config, policy: B.Policy, window: seq<B.Bar>, i: nat, d: int, m: O.Memory, call: O.Call)
    requires SameSettings(cfg, policy, call.s) && call.signals == policy.generate(window)
    requires i == m.tick + 1 + d && !O.InCooldown(m, call.symbol, m.tick + 1, call.s.cooldownTicks)
    ensures var pick := B.Evaluate(cfg, policy, window, i, Shift(O.Buffered(m, call.symbol), d));
            var (after, best) := O.Recall(m, call);
            && pick.best == best
            && pick.buffer == Shift(O.Buffered(after, call.symbol), d)
            && (best.Some? ==> best.value.strategy in pick.contributors)
  {
    hide Prune;
    hide Latest;
    hide Winner;
    hide Contributors;
    hide Shift;
    hide Tag;
    var tick, log := m.tick + 1, O.Buffered(m, call.symbol);
    var merged := Prune(log + Tag(tick, call.signals), tick - cfg.memoryTicks);
    ShiftPush(log, tick, call.signals, d);
    ShiftPrune(log + Tag(tick, call.signals), tick - cfg.memoryTicks, d);
    ShiftLatest(merged, d);
    var judged := if cfg.memoryTicks > 1 then Latest(merged) else call.signals;
    if Winner(judged, policy.minAgreement, policy.minConfidence).Some? {
      WinnerContributes(judged, policy.minAgreement, policy.minConfidence);
    }
  }

  /** The backtest's signal buffer after evaluating `n` consecutive bars from bar `first` on, starting empty. */
  ghost function BufferAfter(cfg: B.Config, policy: B.Policy, bars: seq<B.Bar>, first: nat, n: nat): seq<Entry>
    requires first + n <= |bars|
  {
    if n == 0 then []
    else B.Evaluate(cfg, policy, bars[..first + n], first + n - 1, BufferAfter(cfg, policy, bars, first, n - 1)).buffer
  }

  /** One symbol's calls get, one by one, the signals the backtest generates from bar `first` on. */
  ghost predicate Parallel(cfg: B.Config, policy: B.Policy, bars: seq<B.Bar>, first: nat, calls: seq<O.Call>, symbol: string) {
    && first + |calls| <= |bars|
    && forall k :: 0 <= k < |calls| ==>
         calls[k].symbol == symbol && SameSettings(cfg, policy, calls[k].s)
         && calls[k].signals == policy.generate(bars[..first + k + 1])
  }

  /** No call is skipped by the cooldown, and before the last call no AI verdict moved the stop of a selection. */
  ghost predicate Undisturbed(calls: seq<O.Call>) {
    && (forall k :: 0 <= k < |calls| ==> O.Awake(calls, k))
    && (forall k :: 0 <= k < |calls| - 1 ==> !(O.SelectedAt(calls, k) && O.Overrides(calls[k].verdict)))
  }

  lemma UndisturbedPrefix(calls: seq<O.Call>)
    requires Undisturbed(calls) && calls != []
    ensures Undisturbed(calls[..|calls| - 1])
  {
    hide O.InCooldown;
    hide O.Recall;
    var before := calls[..|calls| - 1];
    forall k | 0 <= k < |before|
      ensures O.Awake(before, k) && (O.SelectedAt(before, k) ==> O.SelectedAt(calls, k))
    {
      assert before[..k] == calls[..k];
      assert O.Awake(calls, k);
    }
  }

  lemma UnadjustedBuffer(m: O.Memory, call: O.Call)
    requires O.Recall(m, call).1.Some? ==> !O.Overrides(call.verdict)
    ensures O.Remember(m, call) == O.Recall(m, call).0
  {
  }

  /** The backtest's pick on the n-th bar it evaluates. */
  ghost function PickAt(cfg: B.Config, policy: B.Policy, bars: seq<B.Bar>, first: nat, n: nat): B.Pick
    requires first + n < |bars|
  {
    B.Evaluate(cfg, policy, bars[..first + n + 1], first + n, BufferAfter(cfg, policy, bars, first, n))
  }

  /** The pick of the n-th bar is the selection of the n-th call, made by one of the credited strategies, and both
      sides remember the same signals, on clocks `first - 1` apart. */
  ghost predicate Agree(cfg: B.Config, policy: B.Policy, bars: seq<B.Bar>, first: nat, calls: seq<O.Call>, n: nat)
    requires n < |calls| && first + n < |bars|
  {
    var pick := PickAt(cfg, policy, bars, first, n);
    var (after, best) := O.Recall(O.MemoryAfter(calls[..n]), calls[n]);
    && pick.best == best
    && pick.buffer == Shift(O.Buffered(after, calls[n].symbol), first - 1)
    && (best.Some? ==> best.value.strategy in pick.contributors)
  }

  lemma {:induction false} LastPickAgrees(cfg: B.Config, policy: B.Policy, bars: seq<B.Bar>, first: nat,
                                          calls: seq<O.Call>, symbol: string)
    requires calls != [] && Parallel(cfg, policy, bars, first, calls, symbol) && Undisturbed(calls)
    ensures Agree(cfg, policy, bars, first, calls, |calls| - 1)
  {
    hide B.Evaluate;
    hide O.Recall;
    hide O.Remember;
    var n := |calls| - 1;
    var before := calls[..n];
    O.TickCountsCalls(before);
    assert O.Awake(calls, n);
    if n > 0 {
      UndisturbedPrefix(calls);
      LastPickAgrees(cfg, policy, bars, first, before, symbol);
      assert before[..n - 1] == calls[..n - 1];
      assert !(O.SelectedAt(calls, n - 1) && O.Overrides(calls[n - 1].verdict));
      UnadjustedBuffer(O.MemoryAfter(before[..n - 1]), before[n - 1]);
      assert first + (n - 1) + 1 == first + n;
      assert PickAt(cfg, policy, bars, first, n - 1).buffer == BufferAfter(cfg, policy, bars, first, n);
    }
    assert BufferAfter(cfg, policy, bars, first, n) == Shift(O.Buffered(O.MemoryAfter(before), symbol), first - 1);
    PickStep(cfg, policy, bars[..first + n + 1], first + n, first - 1, O.MemoryAfter(before), calls[n]);
  }

  lemma UndisturbedUpTo(calls: seq<O.Call>, n: nat)
    requires Undisturbed(calls) && n <= |calls|
    ensures Undisturbed(calls[..n])
    decreases |calls| - n
  {
    hide Undisturbed;
    if n < |calls| {
      UndisturbedUpTo(calls, n + 1);
      UndisturbedPrefix(calls[..n + 1]);
      assert calls[..n + 1][..n] == calls[..n];
    } else {
      assert calls[..n] == calls;
    }
  }

  /** Over every run of one symbol from empty memories, although the backtest counts bars from its warm-up and the
      pipeline counts calls from one: every pick is the selection, ties and merged memory included. */
  lemma PickIsSelection(cfg: B.Config, policy: B.Policy, bars: seq<B.Bar>, first: nat, calls: seq<O.Call>, symbol: string)
    requires Parallel(cfg, policy, bars, first, calls, symbol) && Undisturbed(calls)
    ensures forall n :: 0 <= n < |calls| ==> Agree(cfg, policy, bars, first, calls, n)
  {
    hide PickAt;
    hide O.Recall;
    hide Undisturbed;
    forall n | 0 <= n < |calls| ensures Agree(cfg, policy, bars, first, calls, n) {
      UndisturbedUpTo(calls, n + 1);
      var upTo := calls[..n + 1];
      LastPickAgrees(cfg, policy, bars, first, upTo, symbol);
      assert upTo[..n] == calls[..n] && upTo[n] == calls[n];
    }
  }

  /** Up to its first entry the backtest engine evaluates every bar. */
  lemma {:induction false} EngineBuffer(cfg: B.Config, policy: B.Policy, capital: real, bars: seq<B.Bar>, n: nat)
    requires cfg.lotSize >= 1 && policy.Ensemble? && B.WARMUP + n <= |bars|
    requires B.RunTo(cfg, policy, capital, bars, B.WARMUP + n).lastEntry == None
    ensures B.RunTo(cfg, policy, capital, bars, B.WARMUP + n) ==
            B.Start(capital).(buffer := BufferAfter(cfg, policy, bars, B.WARMUP, n))
  {
    hide B.Evaluate;
    hide B.Open;
    if n > 0 {
      EngineBuffer(cfg, policy, capital, bars, n - 1);
    }
  }

  /** What the engine has done after bar WARMUP + n if it had not entered before: it opens the trade of the call's
      selection, filled at the bar's close, or nothing if the call selects nothing. */
  ghost predicate Follows(cfg: B.Config, policy: B.Policy, capital: real, bars: seq<B.Bar>, calls: seq<O.Call>, n: nat)
    requires cfg.lotSize >= 1 && n < |calls| && B.WARMUP + n < |bars|
  {
    var after := B.RunTo(cfg, policy, capital, bars, B.WARMUP + n + 1);
    var (memory, best) := O.Recall(O.MemoryAfter(calls[..n]), calls[n]);
    && after.trades == [] && after.capital == capital
    && after.buffer == Shift(O.Buffered(memory, calls[n].symbol), B.WARMUP - 1)
    && match best
       case None => after.pos == None && after.lastEntry == None
       case Some(sig) =>
         var names := PickAt(cfg, policy, bars, B.WARMUP, n).contributors;
         && sig.strategy in names
         && after.pos == B.Open(cfg, sig, names, bars[B.WARMUP + n].close, capital, B.WARMUP + n)
  }

  /** Up to and including its first entry, the ensemble backtest acts on the live selections. */
  lemma EngineFollowsLive(cfg: B.Config, policy: B.Policy, capital: real, bars: seq<B.Bar>, calls: seq<O.Call>, symbol: string)
    requires cfg.lotSize >= 1 && calls != []
    requires Parallel(cfg, policy, bars, B.WARMUP, calls, symbol) && Undisturbed(calls)
    requires B.RunTo(cfg, policy, capital, bars, B.WARMUP + (|calls| - 1)).lastEntry == None
    ensures Follows(cfg, policy, capital, bars, calls, |calls| - 1)
  {
    hide B.Evaluate;
    hide B.Open;
    hide O.Recall;
    hide Undisturbed;
    var n := |calls| - 1;
    assert SameSettings(cfg, policy, calls[n].s);
    EngineBuffer(cfg, policy, capital, bars, n);
    LastPickAgrees(cfg, policy, bars, B.WARMUP, calls, symbol);
  }

  /** Nothing is in cooldown before the first selection. */
  lemma {:induction false} QuietCalls(calls: seq<O.Call>)
    requires forall k :: 0 <= k < |calls| ==> !O.SelectedAt(calls, k)
    ensures O.MemoryAfter(calls).lastSignal == map[]
  {
    hide O.Recall;
    hide O.Remember;
    if calls != [] {
      var n := |calls| - 1;
      QuietPrefix(calls, n);
      QuietCalls(calls[..n]);
      assert !O.SelectedAt(calls, n);
      O.RememberSelection(O.MemoryAfter(calls[..n]), calls[n], calls[n].symbol);
    }
  }

  lemma QuietPrefix(calls: seq<O.Call>, n: nat)
    requires n <= |calls| && forall k :: 0 <= k < n ==> !O.SelectedAt(calls, k)
    ensures forall k :: 0 <= k < n ==> !O.SelectedAt(calls[..n], k)
  {
    hide O.Recall;
    forall k | 0 <= k < n ensures !O.SelectedAt(calls[..n], k) {
      assert calls[..n][..k] == calls[..k];
      assert !O.SelectedAt(calls, k);
    }
  }

  lemma QuietUndisturbed(calls: seq<O.Call>)
    requires forall k :: 0 <= k < |calls| - 1 ==> !O.SelectedAt(calls, k)
    ensures Undisturbed(calls)
  {
    hide O.Recall;
    forall k | 0 <= k < |calls| ensures O.Awake(calls, k) {
      QuietPrefix(calls, k);
      QuietCalls(calls[..k]);
    }
  }

  /** Cooldown and verdicts whatever they are: as long as the pipeline has selected nothing the backtest has not
      traded, and at the pipeline's first selection it opens exactly that trade, if its own gates let it. */
  lemma {:induction false} FirstTradeIsFirstSelection(cfg: B.Config, policy: B.Policy, capital: real, bars: seq<B.Bar>,
                                                      calls: seq<O.Call>, symbol: string)
    requires cfg.lotSize >= 1 && calls != [] && Parallel(cfg, policy, bars, B.WARMUP, calls, symbol)
    requires forall k :: 0 <= k < |calls| - 1 ==> !O.SelectedAt(calls, k)
    ensures Follows(cfg, policy, capital, bars, calls, |calls| - 1)
  {
    hide B.RunTo;
    hide O.Recall;
    var n := |calls| - 1;
    QuietUndisturbed(calls);
    if n == 0 {
      NoEntryAtStart(cfg, policy, capital, bars);
    } else {
      QuietPrefix(calls, n);
      FirstTradeIsFirstSelection(cfg, policy, capital, bars, calls[..n], symbol);
      assert calls[..n][..n - 1] == calls[..n - 1];
      assert !O.SelectedAt(calls, n - 1);
    }
    EngineFollowsLive(cfg, policy, capital, bars, calls, symbol);
  }

  lemma NoEntryAtStart(cfg: B.Config, policy: B.Policy, capital: real, bars: seq<B.Bar>)
    requires cfg.lotSize >= 1 && B.WARMUP <= |bars|
    ensures B.RunTo(cfg, policy, capital, bars, B.WARMUP).lastEntry == None
  {
  }

  /** The backtest's reward gate is the live one, plus a refusal of targets on a signal whose stop is its entry. */
  lemma RewardGatesAgree(cfg: B.Config, s: R.Settings, sig: Signal)
    requires cfg.rrGate == s.rrGate && cfg.minRr == s.minRr
    ensures B.RrPasses(cfg, sig) <==>
            !R.PoorReward(s, sig) && !(s.rrGate && sig.target.Some? && sig.entry == sig.stop)
  {
  }

  /** Profit before costs is computed alike. */
  lemma ProfitsAgree(pos: B.Position, exit: real)
    ensures T.Pnl(pos.side, pos.entry, exit, pos.qty) ==
            Rounding.Round2(B.RawPnl(pos.side, pos.entry, exit, pos.qty))
  {
    hide Rounding.Round2;
    GainsAgree(pos.side, pos.entry, exit, pos.qty);
  }

  lemma GainsAgree(side: Side, entry: real, exit: real, qty: int)
    ensures T.Gain(side, entry, exit, qty) == B.RawPnl(side, entry, exit, qty)
  {
  }

  /** Marking to market at a price closes for the reason, and at the level or beyond, at which the backtest would
      leave on a bar that trades at this price only. */
  lemma BreachIsExitOnFlatBar(pos: B.Position, last: real)
    ensures var bar := B.Bar(last, last, last, last, 0.0, None);
            match (T.BreachReason(pos.side, last, pos.stop, pos.target), B.ExitOn(bar, pos))
            case (None, None) => true
            case (Some(cause), Some((price, reason))) =>
              && (cause.TargetHit? <==> reason.TargetExit?)
              && (cause.StopLossHit? <==> !reason.TargetExit?)
              && (cause.StopLossHit? ==> price == pos.stop && (if pos.side.Buy? then last <= price else last >= price))
              && (cause.TargetHit? ==> price == pos.target.value && (if pos.side.Buy? then last >= price else last <= price))
            case _ => false
  {
  }

  /** The winner is one of the strategies credited with the trade. */
  lemma WinnerContributes(signals: seq<Signal>, minAgreement: int, minConfidence: real)
    requires Winner(signals, minAgreement, minConfidence).Some?
    ensures Winner(signals, minAgreement, minConfidence).value.strategy in Contributors(signals, minAgreement, minConfidence)
  {
    hide Beats;
    var strong := Strong(signals, minConfidence);
    var w := Winner(signals, minAgreement, minConfidence).value;
    WinnerSound(signals, minAgreement, minConfidence);
    StrongMembers(signals, minConfidence);
    OnSideMembers(strong, w.side);
    var group := OnSide(strong, w.side);
    hide Winner;
    assert w in group;
    var k :| 0 <= k < |group| && group[k] == w;
    var names := StrategyNames(group);
    assert names[k] == w.strategy;
    SortNamesCorrect(names);
    assert w.strategy in multiset(SortNames(names));
  }
}
