/** The live pipeline: cooldown, signal memory, conviction, AI verdict, risk gates, execution. */
module Orchestrator {
  import opened Prelude
  import opened Conviction
  import opened SignalMemory
  import R = Risk
  import T = TradeBook
  import opened Sizing

  // ---- Specification -------------------------------------------------------

  /** The validation agent's answer: an arbitrary input of the pipeline. */
  datatype Verdict = Verdict(approved: bool, adjustedStop: Option<real>)

  /** Everything one call of the pipeline receives from outside. */
  datatype Call = Call(
    symbol: string,
    signals: seq<Signal>,
    s: R.Settings,
    clock: R.Clock,
    expiry: bool,
    verdict: Verdict,
    fill: T.Fill)

  datatype Memory = Memory(
    tick: nat,
    buffers: map<string, seq<Entry>>,
    lastSignal: map<string, nat>)

  datatype Live = Live(memory: Memory, risk: R.RiskState, book: T.Book)

  datatype Result = AiRejected | RiskRejected(reason: R.Reason) | Executed(qty: int, fillPrice: real)

  /** `signal` is the snapshot taken before any stop adjustment. */
  datatype Outcome = Outcome(signal: Signal, result: Result)

  function Buffered(m: Memory, symbol: string): seq<Entry> {
    if symbol in m.buffers then m.buffers[symbol] else []
  }

  predicate InCooldown(m: Memory, symbol: string, tick: nat, cooldown: int) {
    symbol in m.lastSignal && cooldown > 0 && tick - m.lastSignal[symbol] < cooldown
  }

  /** Memory after merging, and the list conviction is judged on. */
  function Merge(m: Memory, symbol: string, signals: seq<Signal>, window: int): (Memory, seq<Signal>) {
    if window <= 1 then (m, signals)
    else
      var buffer := Prune(Buffered(m, symbol) + Tag(m.tick, signals), m.tick - window);
      (m.(buffers := m.buffers[symbol := buffer]), Latest(buffer))
  }

  /** Tick, cooldown, merge and selection: all of a call that only concerns the signal memory. */
  function Recall(m: Memory, call: Call): (Memory, Option<Signal>) {
    var ticked := m.(tick := m.tick + 1);
    if InCooldown(m, call.symbol, ticked.tick, call.s.cooldownTicks) then (ticked, None)
    else
      var (merged, candidates) := Merge(ticked, call.symbol, call.signals, call.s.memoryTicks);
      match Winner(candidates, call.s.minAgreement, call.s.minConfidence)
      case None => (merged, None)
      case Some(best) => (merged.(lastSignal := merged.lastSignal[call.symbol := ticked.tick]), Some(best))
  }

  predicate Overrides(verdict: Verdict) {
    verdict.approved && verdict.adjustedStop.Some?
  }

  /** The stop overwritten by the AI is seen by the buffer, which holds the same Signal object. */
  function Adjusted(m: Memory, call: Call, best: Signal): Memory {
    if call.s.memoryTicks <= 1 || !Overrides(call.verdict) then m
    else
      var buffer := AdjustLatest(Buffered(m, call.symbol), best.strategy, call.verdict.adjustedStop.value);
      m.(buffers := m.buffers[call.symbol := buffer])
  }

  function Remember(m: Memory, call: Call): Memory {
    var (recalled, best) := Recall(m, call);
    match best
    case None => recalled
    case Some(w) => Adjusted(recalled, call, w)
  }

  function AdjustedSignal(best: Signal, verdict: Verdict): Signal {
    if verdict.adjustedStop.Some? then best.(stop := verdict.adjustedStop.value) else best
  }

  /** Risk counters, book and outcome for a selected signal. */
  function Process(risk: R.RiskState, book: T.Book, best: Signal, call: Call, lotSize: int)
    : (R.RiskState, T.Book, Outcome)
    requires lotSize >= 1
  {
    if !call.verdict.approved then (risk, book, Outcome(best, AiRejected))
    else
      var sig := AdjustedSignal(best, call.verdict);
      var today := R.ResetIfNewDay(risk.stats, call.clock.day);
      var d := R.Decide(today, call.s, risk.kelly, sig, lotSize, call.clock, call.expiry);
      if !d.approved then
        (risk.(stats := today), book, Outcome(best, RiskRejected(d.reason)))
      else
        (risk.(stats := R.Opened(today)), T.ExecuteOn(book, sig, d.qty, call.fill),
         Outcome(best, Executed(d.qty, call.fill.avgPrice)))
  }

  function Step(live: Live, call: Call, lotSize: int): (Live, Option<Outcome>)
    requires lotSize >= 1
  {
    var memory := Remember(live.memory, call);
    match Recall(live.memory, call).1
    case None => (live.(memory := memory), None)
    case Some(best) =>
      var (risk, book, outcome) := Process(live.risk, live.book, best, call, lotSize);
      (Live(memory, risk, book), Some(outcome))
  }

  ghost function Run(init: Live, calls: seq<Call>, lotSize: int): Live
    requires lotSize >= 1
  {
    if calls == [] then init
    else Step(Run(init, calls[..|calls| - 1], lotSize), calls[|calls| - 1], lotSize).0
  }

  const NO_MEMORY := Memory(0, map[], map[])

  /** The memory after a sequence of calls: it does not depend on risk decisions or fills. */
  ghost function MemoryAfter(calls: seq<Call>): Memory {
    if calls == [] then NO_MEMORY else Remember(MemoryAfter(calls[..|calls| - 1]), calls[|calls| - 1])
  }

  lemma {:induction false} RunMemory(init: Live, calls: seq<Call>, lotSize: int)
    requires lotSize >= 1 && init.memory == NO_MEMORY
    ensures Run(init, calls, lotSize).memory == MemoryAfter(calls)
  {
    if calls != [] {
      RunMemory(init, calls[..|calls| - 1], lotSize);
    }
  }

  // ---- Reference semantics over the whole history --------------------------

  /** Does call number `n` (from 0) reach the merge step? */
  ghost predicate Awake(calls: seq<Call>, n: nat)
    requires n < |calls|
  {
    !InCooldown(MemoryAfter(calls[..n]), calls[n].symbol, n + 1, calls[n].s.cooldownTicks)
  }

  ghost function Chosen(log: seq<Entry>, tick: int, call: Call): Option<Signal> {
    Winner(Latest(Within(log, tick - call.s.memoryTicks)), call.s.minAgreement, call.s.minConfidence)
  }

  /** Every signal a symbol produced outside its cooldown, stamped with the call number and never pruned;
      stops the AI adjusted are adjusted here too. */
  ghost function History(calls: seq<Call>, symbol: string): seq<Entry> {
    if calls == [] then []
    else
      var n := |calls| - 1;
      var log, call := History(calls[..n], symbol), calls[n];
      if call.symbol != symbol || !Awake(calls, n) then log
      else
        var grown := log + Tag(n + 1, call.signals);
        var best := Chosen(grown, n + 1, call);
        if best.Some? && Overrides(call.verdict)
        then AdjustLatest(grown, best.value.strategy, call.verdict.adjustedStop.value)
        else grown
  }

  /** The tick of the symbol's last merge, 0 if there was none. */
  ghost function LastMerge(calls: seq<Call>, symbol: string): nat {
    if calls == [] then 0
    else
      var n := |calls| - 1;
      if calls[n].symbol == symbol && Awake(calls, n) then n + 1 else LastMerge(calls[..n], symbol)
  }

  ghost predicate FixedWindow(calls: seq<Call>, window: int) {
    forall c :: c in calls ==> c.s.memoryTicks == window
  }

  /** The tick counter counts calls over all symbols. */
  lemma {:induction false} TickCountsCalls(calls: seq<Call>)
    ensures MemoryAfter(calls).tick == |calls|
  {
    if calls != [] {
      TickCountsCalls(calls[..|calls| - 1]);
    }
  }

  lemma RememberBuffers(m: Memory, call: Call, symbol: string)
    requires call.s.memoryTicks > 1
    ensures var tick := m.tick + 1;
            var after := Buffered(Remember(m, call), symbol);
            if call.symbol != symbol || InCooldown(m, symbol, tick, call.s.cooldownTicks)
            then after == Buffered(m, symbol)
            else
              var merged := Prune(Buffered(m, symbol) + Tag(tick, call.signals), tick - call.s.memoryTicks);
              var best := Winner(Latest(merged), call.s.minAgreement, call.s.minConfidence);
              && Recall(m, call).1 == best
              && after ==
                if best.Some? && Overrides(call.verdict)
                then AdjustLatest(merged, best.value.strategy, call.verdict.adjustedStop.value) else merged
  {
    hide Winner;
    hide Latest;
    hide Prune;
    hide AdjustLatest;
  }

  /** The selected signal is the last buffered one of its strategy, so adjusting it is `AdjustLatest`. */
  lemma ChosenIsLatest(log: seq<Entry>, minAgreement: int, minConfidence: real)
    requires Winner(Latest(log), minAgreement, minConfidence).Some?
    ensures var w := Winner(Latest(log), minAgreement, minConfidence).value;
            LatestOf(log, w.strategy) == Some(w)
  {
    WinnerSound(Latest(log), minAgreement, minConfidence);
    LatestCorrect(log);
  }

  ghost predicate Refines(calls: seq<Call>, symbol: string, window: int) {
    var log := History(calls, symbol);
    && TickSorted(log)
    && (forall e :: e in log ==> e.tick <= |calls|)
    && LastMerge(calls, symbol) <= |calls|
    && Buffered(MemoryAfter(calls), symbol) == Within(log, LastMerge(calls, symbol) - window)
  }

  /** Whatever the interleaving of symbols, a symbol's pruned deque is exactly the part of its full history
      younger than the window, counted from its last merge. */
  lemma {:induction false} MemoryRefinesHistory(calls: seq<Call>, symbol: string, window: int)
    requires window > 1 && FixedWindow(calls, window)
    ensures Refines(calls, symbol, window)
  {
    hide Remember;
    hide Recall;
    hide Chosen;
    hide Winner;
    hide Latest;
    hide Prune;
    hide Within;
    hide AdjustLatest;
    hide InCooldown;
    if calls == [] {
      WithinAll([], -window);
    } else {
      var n := |calls| - 1;
      var prefix, call := calls[..n], calls[n];
      assert forall c :: c in prefix ==> c in calls;
      assert call in calls;
      MemoryRefinesHistory(prefix, symbol, window);
      TickCountsCalls(prefix);
      RememberBuffers(MemoryAfter(prefix), call, symbol);
      if call.symbol == symbol && Awake(calls, n) {
        MergeRefines(calls, window);
      }
    }
  }

  lemma HistoryNext(calls: seq<Call>)
    requires calls != [] && Awake(calls, |calls| - 1)
    ensures var n := |calls| - 1;
            var grown := History(calls[..n], calls[n].symbol) + Tag(n + 1, calls[n].signals);
            var best := Chosen(grown, n + 1, calls[n]);
            && LastMerge(calls, calls[n].symbol) == n + 1
            && History(calls, calls[n].symbol) ==
               if best.Some? && Overrides(calls[n].verdict)
               then AdjustLatest(grown, best.value.strategy, calls[n].verdict.adjustedStop.value) else grown
  {
    hide Chosen;
    hide AdjustLatest;
    hide Awake;
    hide Tag;
  }

  /** The deque after one merge, before any adjustment, is the grown history cut to the window. */
  lemma MergedBuffer(calls: seq<Call>, window: int) returns (grown: seq<Entry>)
    requires window > 1 && calls != []
    requires var n := |calls| - 1;
             calls[n].s.memoryTicks == window && Awake(calls, n) && Refines(calls[..n], calls[n].symbol, window)
    ensures var n := |calls| - 1;
            && grown == History(calls[..n], calls[n].symbol) + Tag(n + 1, calls[n].signals)
            && TickSorted(grown) && (forall e :: e in grown ==> e.tick <= n + 1)
            && Recall(MemoryAfter(calls[..n]), calls[n]).1 == Chosen(grown, n + 1, calls[n])
            && Buffered(MemoryAfter(calls), calls[n].symbol) ==
               if Chosen(grown, n + 1, calls[n]).Some? && Overrides(calls[n].verdict)
               then AdjustLatest(Within(grown, n + 1 - window), Chosen(grown, n + 1, calls[n]).value.strategy,
                                 calls[n].verdict.adjustedStop.value)
               else Within(grown, n + 1 - window)
  {
    hide Remember;
    hide Recall;
    hide Winner;
    hide Latest;
    hide Prune;
    hide Within;
    hide AdjustLatest;
    hide InCooldown;
    hide History;
    hide LastMerge;
    hide Tag;
    hide TickSorted;
    var n := |calls| - 1;
    var prefix, call := calls[..n], calls[n];
    TickCountsCalls(prefix);
    RememberBuffers(MemoryAfter(prefix), call, call.symbol);
    var log := History(prefix, call.symbol);
    grown := log + Tag(n + 1, call.signals);
    PushRefinesLog(log, LastMerge(prefix, call.symbol) - window, n + 1, call.signals, n + 1 - window);
  }

  /** Adjusting the winner in the deque is adjusting it in the history. */
  lemma AdjustedMerge(grown: seq<Entry>, tick: int, call: Call)
    requires TickSorted(grown) && forall e :: e in grown ==> e.tick <= tick
    requires Chosen(grown, tick, call).Some? && Overrides(call.verdict)
    ensures var strategy, stop := Chosen(grown, tick, call).value.strategy, call.verdict.adjustedStop.value;
            var adjusted := AdjustLatest(grown, strategy, stop);
            && TickSorted(adjusted) && (forall e :: e in adjusted ==> e.tick <= tick)
            && Within(adjusted, tick - call.s.memoryTicks) ==
               AdjustLatest(Within(grown, tick - call.s.memoryTicks), strategy, stop)
  {
    hide Winner;
    hide Latest;
    hide Within;
    hide AdjustLatest;
    hide TickSorted;
    var cutoff, best := tick - call.s.memoryTicks, Chosen(grown, tick, call);
    ChosenIsLatest(Within(grown, cutoff), call.s.minAgreement, call.s.minConfidence);
    AdjustWithin(grown, cutoff, best.value.strategy, call.verdict.adjustedStop.value);
    AdjustKeepsOrder(grown, best.value.strategy, call.verdict.adjustedStop.value, tick);
  }

  /** One merge on the deque is one append to the history, adjustment included. */
  lemma MergeRefines(calls: seq<Call>, window: int)
    requires window > 1 && calls != []
    requires var n := |calls| - 1;
             calls[n].s.memoryTicks == window && Awake(calls, n) && Refines(calls[..n], calls[n].symbol, window)
    ensures Refines(calls, calls[|calls| - 1].symbol, window)
    ensures var n := |calls| - 1;
            Recall(MemoryAfter(calls[..n]), calls[n]).1 ==
            Chosen(History(calls[..n], calls[n].symbol) + Tag(n + 1, calls[n].signals), n + 1, calls[n])
  {
    hide MemoryAfter;
    hide Recall;
    hide Chosen;
    hide Within;
    hide AdjustLatest;
    hide Awake;
    hide History;
    hide LastMerge;
    hide Tag;
    hide TickSorted;
    var n := |calls| - 1;
    var grown := MergedBuffer(calls, window);
    HistoryNext(calls);
    if Chosen(grown, n + 1, calls[n]).Some? && Overrides(calls[n].verdict) {
      AdjustedMerge(grown, n + 1, calls[n]);
    }
  }

  /** The strategies whose latest in-window signal is strong and on the given side. */
  ghost predicate Backs(log: seq<Entry>, strategy: string, side: Side, minConfidence: real) {
    match LatestOf(log, strategy)
    case None => false
    case Some(sig) => sig.side == side && sig.confidence >= minConfidence
  }

  lemma {:induction false} FilterDistinct(signals: seq<Signal>, keep: Signal -> bool)
    requires DistinctStrategies(signals)
    ensures DistinctStrategies(Filter(signals, keep))
  {
    if signals != [] {
      var init, last := signals[..|signals| - 1], signals[|signals| - 1];
      FilterDistinct(init, keep);
      FilterMembers(init, keep);
      forall x | x in Filter(init, keep) ensures x.strategy != last.strategy {
        var k :| 0 <= k < |init| && init[k] == x;
        assert signals[k] == x;
      }
    }
  }

  lemma BackersDistinct(log: seq<Entry>, side: Side, minConfidence: real)
    ensures var group := OnSide(Strong(Latest(log), minConfidence), side);
            && DistinctStrategies(group)
            && forall s :: s in group ==> Backs(log, s.strategy, side, minConfidence)
  {
    hide Latest;
    hide LatestOf;
    LatestCorrect(log);
    StrongMembers(Latest(log), minConfidence);
    OnSideMembers(Strong(Latest(log), minConfidence), side);
    FilterDistinct(Latest(log), (s: Signal) => s.confidence >= minConfidence);
    FilterDistinct(Strong(Latest(log), minConfidence), (s: Signal) => s.side == side);
  }

  lemma {:induction false} DistinctNameCount(signals: seq<Signal>)
    requires DistinctStrategies(signals)
    ensures |set s | s in signals :: s.strategy| == |signals|
  {
    var names := set s | s in signals :: s.strategy;
    if signals != [] {
      var n := |signals| - 1;
      var init := signals[..n];
      DistinctNameCount(init);
      var before := set s | s in init :: s.strategy;
      assert signals == init + [signals[n]];
      assert signals[n].strategy !in before;
      assert names == before + {signals[n].strategy};
    }
  }

  ghost predicate SelectedAt(calls: seq<Call>, n: nat)
    requires n < |calls|
  {
    Recall(MemoryAfter(calls[..n]), calls[n]).1.Some?
  }

  lemma SelectedIsAwake(calls: seq<Call>, n: nat)
    requires n < |calls| && SelectedAt(calls, n)
    ensures Awake(calls, n) && Awake(calls[..n + 1], n)
  {
    hide Winner;
    TickCountsCalls(calls[..n]);
    assert calls[..n + 1][..n] == calls[..n];
  }

  /** A call reports an outcome exactly when it selects a signal, and reports that signal. */
  lemma OutcomeIffSelected(init: Live, calls: seq<Call>, n: nat, lotSize: int)
    requires lotSize >= 1 && init.memory == NO_MEMORY && n < |calls|
    ensures var outcome := Step(Run(init, calls[..n], lotSize), calls[n], lotSize).1;
            && (outcome.Some? <==> SelectedAt(calls, n))
            && (outcome.Some? ==> Some(outcome.value.signal) == Recall(MemoryAfter(calls[..n]), calls[n]).1)
  {
    RunMemory(init, calls[..n], lotSize);
  }

  /** w is the winner the code promises on this log: enough different strategies back its side with their latest
      signal, it is itself the latest of its strategy, and the other side does not beat it. */
  ghost predicate Convincing(log: seq<Entry>, w: Signal, minAgreement: int, minConfidence: real) {
    var strong := Strong(Latest(log), minConfidence);
    var backers := set s | s in OnSide(strong, w.side) :: s.strategy;
    && LatestOf(log, w.strategy) == Some(w)
    && |backers| >= minAgreement
    && (forall name :: name in backers ==> Backs(log, name, w.side, minConfidence))
    && !Beats(strong, w.side.Flip(), w.side)
    && (forall s :: s in strong && s.side == w.side ==> s.confidence <= w.confidence)
  }

  lemma WinnerConvincing(log: seq<Entry>, minAgreement: int, minConfidence: real)
    requires Winner(Latest(log), minAgreement, minConfidence).Some?
    ensures Convincing(log, Winner(Latest(log), minAgreement, minConfidence).value, minAgreement, minConfidence)
  {
    hide Latest;
    hide LatestOf;
    hide Winner;
    hide Beats;
    hide Backs;
    hide OnSide;
    hide Strong;
    ChosenIsLatest(log, minAgreement, minConfidence);
    WinnerSound(Latest(log), minAgreement, minConfidence);
    var w := Winner(Latest(log), minAgreement, minConfidence).value;
    BackersDistinct(log, w.side, minConfidence);
    DistinctNameCount(OnSide(Strong(Latest(log), minConfidence), w.side));
  }

  /** Whenever call `n` selects a signal with memory on, that signal is convincing on the symbol's full history
      cut to the window: pruning, cooldown skips and calls for other symbols lose nothing. */
  lemma ConvictionSound(calls: seq<Call>, n: nat, window: int)
    requires n < |calls| && window > 1 && FixedWindow(calls[..n + 1], window)
    requires SelectedAt(calls, n)
    ensures var call := calls[n];
            var log := Within(History(calls[..n], call.symbol) + Tag(n + 1, call.signals), n + 1 - window);
            Convincing(log, Recall(MemoryAfter(calls[..n]), call).1.value, call.s.minAgreement, call.s.minConfidence)
  {
    hide Remember;
    hide Recall;
    hide Winner;
    hide Convincing;
    hide Within;
    hide Latest;
    hide History;
    hide Refines;
    hide SelectedAt;
    hide Awake;
    var prefix, call, upTo := calls[..n], calls[n], calls[..n + 1];
    assert upTo[..n] == prefix && upTo[n] == call;
    assert forall c :: c in prefix ==> c in upTo;
    assert call in upTo;
    MemoryRefinesHistory(prefix, call.symbol, window);
    SelectedIsAwake(calls, n);
    MergeRefines(upTo, window);
    var log := Within(History(prefix, call.symbol) + Tag(n + 1, call.signals), n + 1 - window);
    SelectedMeansSome(calls, n);
    WinnerConvincing(log, call.s.minAgreement, call.s.minConfidence);
  }

  lemma SelectedMeansSome(calls: seq<Call>, n: nat)
    requires n < |calls| && SelectedAt(calls, n)
    ensures Recall(MemoryAfter(calls[..n]), calls[n]).1.Some?
  {
  }

  lemma RememberSelection(m: Memory, call: Call, symbol: string)
    ensures var after := Remember(m, call).lastSignal;
            if Recall(m, call).1.Some? then after == m.lastSignal[call.symbol := m.tick + 1] else after == m.lastSignal
  {
  }

  lemma {:induction false} SelectionRemembered(calls: seq<Call>, i: nat)
    requires i < |calls| && SelectedAt(calls, i)
    ensures var m := MemoryAfter(calls);
            calls[i].symbol in m.lastSignal && m.lastSignal[calls[i].symbol] >= i + 1
  {
    hide Remember;
    hide Recall;
    var n := |calls| - 1;
    TickCountsCalls(calls[..n]);
    RememberSelection(MemoryAfter(calls[..n]), calls[n], calls[i].symbol);
    if i < n {
      assert calls[..n][..i] == calls[..i];
      SelectionRemembered(calls[..n], i);
    }
  }

  /** The remembered tick of a symbol is that of an earlier call that selected a signal for it. */
  lemma {:induction false} RememberedWasSelected(calls: seq<Call>, symbol: string) returns (i: nat)
    requires symbol in MemoryAfter(calls).lastSignal
    ensures i < |calls| && SelectedAt(calls, i) && calls[i].symbol == symbol
    ensures MemoryAfter(calls).lastSignal[symbol] == i + 1
  {
    hide Remember;
    hide Recall;
    var n := |calls| - 1;
    var before := calls[..n];
    TickCountsCalls(before);
    RememberSelection(MemoryAfter(before), calls[n], symbol);
    if SelectedAt(calls, n) && calls[n].symbol == symbol {
      i := n;
    } else {
      i := RememberedWasSelected(before, symbol);
      assert before[..i] == calls[..i];
    }
  }

  /** A call is past its symbol's cooldown if and only if the cooldown is off or every earlier selection for the symbol
      lies at least that many calls back: the cooldown neither ends early nor lasts. */
  lemma AwakeIff(calls: seq<Call>, n: nat)
    requires n < |calls|
    ensures Awake(calls, n) <==>
            || calls[n].s.cooldownTicks <= 0
            || forall i :: 0 <= i < n && calls[i].symbol == calls[n].symbol && SelectedAt(calls, i) ==>
                 n - i >= calls[n].s.cooldownTicks
  {
    hide Recall;
    hide Remember;
    var before, symbol := calls[..n], calls[n].symbol;
    if symbol in MemoryAfter(before).lastSignal {
      var last := RememberedWasSelected(before, symbol);
      assert before[..last] == calls[..last];
      assert SelectedAt(calls, last);
    }
    forall i | 0 <= i < n && calls[i].symbol == symbol && SelectedAt(calls, i)
      ensures symbol in MemoryAfter(before).lastSignal && MemoryAfter(before).lastSignal[symbol] >= i + 1
    {
      assert before[..i] == calls[..i];
      SelectionRemembered(before, i);
    }
  }

  lemma UnmergedSelection(calls: seq<Call>, n: nat)
    requires n < |calls|
    ensures !Awake(calls, n) ==> Recall(MemoryAfter(calls[..n]), calls[n]).1 == None
    ensures Awake(calls, n) && calls[n].s.memoryTicks <= 1 ==>
              Recall(MemoryAfter(calls[..n]), calls[n]).1 ==
              Winner(calls[n].signals, calls[n].s.minAgreement, calls[n].s.minConfidence)
  {
    hide Winner;
    hide Latest;
    hide Prune;
    TickCountsCalls(calls[..n]);
    hide MemoryAfter;
  }

  lemma MergedSelection(calls: seq<Call>, n: nat, window: int)
    requires n < |calls| && window > 1 && FixedWindow(calls[..n + 1], window) && Awake(calls, n)
    ensures Recall(MemoryAfter(calls[..n]), calls[n]).1 ==
            Chosen(History(calls[..n], calls[n].symbol) + Tag(n + 1, calls[n].signals), n + 1, calls[n])
  {
    hide Recall;
    hide Remember;
    hide Chosen;
    hide History;
    hide Refines;
    hide InCooldown;
    var prefix, upTo := calls[..n], calls[..n + 1];
    assert upTo[..n] == prefix && upTo[n] == calls[n];
    assert forall c :: c in prefix ==> c in upTo;
    assert calls[n] in upTo;
    MemoryRefinesHistory(prefix, calls[n].symbol, window);
    assert Awake(upTo, n);
    MergeRefines(upTo, window);
  }

  /** What every call selects: nothing in cooldown; otherwise the winner among the latest signals of the full history
      within the memory window, or among its own signals with memory off. */
  lemma SelectionExact(calls: seq<Call>, n: nat, window: int)
    requires n < |calls| && FixedWindow(calls[..n + 1], window)
    ensures var call := calls[n];
            Recall(MemoryAfter(calls[..n]), call).1 ==
            if !Awake(calls, n) then None
            else if window > 1 then
              Winner(Latest(Within(History(calls[..n], call.symbol) + Tag(n + 1, call.signals), n + 1 - window)),
                     call.s.minAgreement, call.s.minConfidence)
            else Winner(call.signals, call.s.minAgreement, call.s.minConfidence)
  {
    hide Recall;
    hide MemoryAfter;
    hide Awake;
    hide Winner;
    hide Latest;
    hide Within;
    hide History;
    hide Tag;
    assert calls[..n + 1][n] in calls[..n + 1];
    UnmergedSelection(calls, n);
    if Awake(calls, n) && window > 1 {
      MergedSelection(calls, n, window);
    }
  }

  /** Two selections for one symbol are at least a cooldown of calls apart, whatever happens in between. */
  lemma SelectionsSpaced(calls: seq<Call>, i: nat, j: nat)
    requires i < j < |calls| && calls[i].symbol == calls[j].symbol
    requires SelectedAt(calls, i) && SelectedAt(calls, j)
    ensures j - i >= calls[j].s.cooldownTicks
  {
    assert calls[..j][..i] == calls[..i];
    SelectionRemembered(calls[..j], i);
    TickCountsCalls(calls[..j]);
  }

  /** Towards risk counters and book a selected signal is one entry attempt: all of it or nothing of it. */
  lemma ProcessFacts(risk: R.RiskState, book: T.Book, best: Signal, call: Call, lotSize: int)
    requires lotSize >= 1
    ensures var (risk', book', outcome) := Process(risk, book, best, call, lotSize);
            var today := R.ResetIfNewDay(risk.stats, call.clock.day);
            && outcome.signal == best && risk'.kelly == risk.kelly
            && match outcome.result
               case AiRejected => risk' == risk && book' == book
               case RiskRejected(reason) => risk'.stats == today && book' == book && reason != R.Ok
               case Executed(qty, _) =>
                 && risk'.stats == R.Opened(today)
                 && today.openPositions < call.s.maxOpenPositions && today.tradesToday < call.s.maxTradesPerDay
                 && !call.s.killSwitch && qty >= 1
                 && book' == T.ExecuteOn(book, AdjustedSignal(best, call.verdict), qty, call.fill)
  {
  }

  /** The row an executed selection leaves in the book: the largest quantity in whole lots that the Kelly share of the
      risk budget pays for at the stop after adjustment, on that stop, at the fill or the signal's entry. */
  lemma ExecutedRow(risk: R.RiskState, book: T.Book, best: Signal, call: Call, lotSize: int)
    requires lotSize >= 1 && Process(risk, book, best, call, lotSize).2.result.Executed?
    ensures var (_, book', outcome) := Process(risk, book, best, call, lotSize);
            && call.verdict.approved && |book'.trades| == |book.trades| + 1
            && var row := book'.trades[|book.trades|];
               && row.symbol == best.symbol && row.strategy == best.strategy && row.side == best.side
               && row.target == best.target && row.status == T.Open
               && row.stopLoss == (if call.verdict.adjustedStop.Some? then call.verdict.adjustedStop.value else best.stop)
               && row.entryPrice == (if call.fill.avgPrice != 0.0 then call.fill.avgPrice else best.entry)
               && row.qty == outcome.result.qty >= 1
               && LargestFit(call.s.capital * (call.s.maxRiskPct * risk.kelly / 100.0),
                             Abs(best.entry - row.stopLoss), lotSize, row.qty)
  {
    hide LargestFit;
    hide R.Decide;
    var sig := AdjustedSignal(best, call.verdict);
    var today := R.ResetIfNewDay(risk.stats, call.clock.day);
    R.ApprovedQty(today, call.s, risk.kelly, sig, lotSize, call.clock, call.expiry);
    T.ExecuteExact(book, sig, R.Decide(today, call.s, risk.kelly, sig, lotSize, call.clock, call.expiry).qty, call.fill);
  }

  // ---- The orchestrator object ---------------------------------------------

  class Pipeline {
    var tick: nat
    var buffers: map<string, seq<Entry>>
    var lastSignal: map<string, nat>
    const risk: R.RiskEngine
    const execution: T.ExecutionService
    const lotSize: int

    constructor (risk: R.RiskEngine, execution: T.ExecutionService, lotSize: int)
      ensures this.risk == risk && this.execution == execution && this.lotSize == lotSize
      ensures tick == 0 && buffers == map[] && lastSignal == map[]
    {
      this.risk, this.execution, this.lotSize := risk, execution, lotSize;
      tick, buffers, lastSignal := 0, map[], map[];
    }

    ghost function View(): Live
      reads this, risk, execution.dal
    {
      Live(Memory(tick, buffers, lastSignal), risk.State(), execution.dal.View())
    }

    method MergeWithBuffer(symbol: string, signals: seq<Signal>, s: R.Settings) returns (merged: seq<Signal>)
      modifies `buffers
      ensures (Memory(tick, buffers, lastSignal), merged) ==
              Merge(old(Memory(tick, buffers, lastSignal)), symbol, signals, s.memoryTicks)
    {
      var window := s.memoryTicks;
      if window <= 1 {
        return signals;
      }
      var buffer := if symbol in buffers then buffers[symbol] else [];
      buffer := PushAndPrune(buffer, tick, signals, tick - window);
      buffers := buffers[symbol := buffer];
      merged := LatestByStrategy(buffer);
    }

    /** AI verdict, risk gates, execution; the signal's stop may be overwritten in place. */
    method ProcessOne(best: Signal, call: Call) returns (outcome: Outcome)
      requires lotSize >= 1 && risk.s == call.s
      modifies `buffers, risk`stats, execution.dal
      ensures Memory(tick, buffers, lastSignal) == Adjusted(old(Memory(tick, buffers, lastSignal)), call, best)
      ensures (risk.State(), execution.dal.View(), outcome) ==
              Process(old(risk.State()), old(execution.dal.View()), best, call, lotSize)
    {
      var snapshot := best;
      if !call.verdict.approved {
        return Outcome(snapshot, AiRejected);
      }
      var sig := best;
      if call.verdict.adjustedStop.Some? {
        sig := sig.(stop := call.verdict.adjustedStop.value);
        if call.s.memoryTicks > 1 {
          var buffer := if call.symbol in buffers then buffers[call.symbol] else [];
          buffers := buffers[call.symbol := AdjustLatest(buffer, best.strategy, sig.stop)];
        }
      }
      var d := risk.Evaluate(sig, lotSize, call.clock, call.expiry);
      if !d.approved {
        return Outcome(snapshot, RiskRejected(d.reason));
      }
      execution.Execute(sig, d.qty, call.fill);
      risk.RecordTradeOpen();
      outcome := Outcome(snapshot, Executed(d.qty, call.fill.avgPrice));
    }

    method Run(call: Call) returns (outcome: Option<Outcome>)
      requires lotSize >= 1
      modifies this, risk, execution.dal
      ensures (View(), outcome) == Step(old(View()), call, lotSize)
      ensures risk.s == call.s
    {
      risk.s := call.s;
      tick := tick + 1;
      var cooldown := call.s.cooldownTicks;
      if call.symbol in lastSignal && cooldown > 0 && tick - lastSignal[call.symbol] < cooldown {
        return None;
      }
      var merged := MergeWithBuffer(call.symbol, call.signals, call.s);
      var best := SelectBestSignal(merged, call.s.minAgreement, call.s.minConfidence);
      if best.None? {
        return None;
      }
      lastSignal := lastSignal[call.symbol := tick];
      var o := ProcessOne(best.value, call);
      outcome := Some(o);
    }
  }
}
