/** One scheduler tick as an atomic step, and what every sequence of ticks keeps. */
module Scheduler {
  import opened Prelude
  import opened Conviction
  import opened SignalMemory
  import opened Orchestrator
  import C = Calendar
  import R = Risk
  import Sizing
  import T = TradeBook

  // ---- Specification -------------------------------------------------------

  /** One symbol's fetched candles, with what the pipeline will be given for it. */
  datatype Frame = Frame(
    symbol: string,
    price: real,
    signals: seq<Signal>,
    s: R.Settings,
    clock: R.Clock,
    verdict: Verdict,
    fill: T.Fill)

  datatype Hours = Hours(open: int, close: int, squareOff: int, holidays: set<int>)

  /** `results` are the usable fetch results in watchlist order; a symbol listed twice appears twice. */
  datatype TickInput = TickInput(now: C.Instant, hours: Hours, watching: bool, results: seq<Frame>)

  datatype Sched = Sched(squaredOffOn: Option<int>, live: Live)

  /** Dictionary assignment keyed by symbol. */
  function Put(frames: seq<Frame>, f: Frame): seq<Frame> {
    if frames == [] then [f]
    else if frames[0].symbol == f.symbol then [f] + frames[1..]
    else [frames[0]] + Put(frames[1..], f)
  }

  function Frames(results: seq<Frame>): seq<Frame> {
    if results == [] then [] else Put(Frames(results[..|results| - 1]), results[|results| - 1])
  }

  function Prices(results: seq<Frame>): map<string, real> {
    if results == [] then map[]
    else Prices(results[..|results| - 1])[results[|results| - 1].symbol := results[|results| - 1].price]
  }

  function CallOf(f: Frame): Call {
    Call(f.symbol, f.signals, f.s, f.clock, false, f.verdict, f.fill)
  }

  function OpenSymbols(book: T.Book): set<string> {
    set r | r in T.OpenRows(book.trades) :: r.trade.symbol
  }

  /** The entry loop: symbols in a trade when the loop starts are skipped. */
  function Enter(live: Live, frames: seq<Frame>, inTrade: set<string>, lotSize: int): Live
    requires lotSize >= 1
  {
    if frames == [] then live
    else
      var n := |frames| - 1;
      var before := Enter(live, frames[..n], inTrade, lotSize);
      if frames[n].symbol in inTrade then before else Step(before, CallOf(frames[n]), lotSize).0
  }

  predicate Trading(input: TickInput) {
    input.watching && C.IsMarketOpen(input.now, input.hours.open, input.hours.close, input.hours.holidays)
  }

  /** The tick squares off: it is past the time, and this date has not been squared off yet. */
  predicate Fires(st: Sched, input: TickInput) {
    Trading(input) && input.now.time >= input.hours.squareOff && st.squaredOffOn != Some(input.now.day)
  }

  function Marked(st: Sched, input: TickInput): T.Book {
    T.Apply(st.live.book, T.MarkToMarket(Prices(input.results)))
  }

  function Tick(st: Sched, input: TickInput, lotSize: int): Sched
    requires lotSize >= 1
  {
    if !C.IsMarketOpen(input.now, input.hours.open, input.hours.close, input.hours.holidays) then
      st.(squaredOffOn := if st.squaredOffOn == Some(input.now.day) then st.squaredOffOn else None)
    else if !input.watching then st
    else
      var marked := Marked(st, input);
      if Fires(st, input) then
        Sched(Some(input.now.day), st.live.(book := T.Apply(marked, T.ForceCloseAll(Prices(input.results)))))
      else
        st.(live := Enter(st.live.(book := marked), Frames(input.results), OpenSymbols(marked), lotSize))
  }

  // ---- Collecting frames and prices ----------------------------------------

  /** Reference: the last result of a symbol. */
  function LastResult(results: seq<Frame>, symbol: string): Option<Frame> {
    if results == [] then None
    else if results[|results| - 1].symbol == symbol then Some(results[|results| - 1])
    else LastResult(results[..|results| - 1], symbol)
  }

  function Symbols(frames: seq<Frame>): seq<string> {
    seq(|frames|, i requires 0 <= i < |frames| => frames[i].symbol)
  }

  ghost predicate DistinctFrames(frames: seq<Frame>) {
    forall i, j :: 0 <= i < j < |frames| ==> frames[i].symbol != frames[j].symbol
  }

  lemma {:induction false} LastResultIn(results: seq<Frame>, symbol: string)
    ensures match LastResult(results, symbol)
            case None => forall f :: f in results ==> f.symbol != symbol
            case Some(f) => f in results && f.symbol == symbol
  {
    if results != [] {
      var n := |results| - 1;
      LastResultIn(results[..n], symbol);
      assert results == results[..n] + [results[n]];
    }
  }

  lemma SymbolsCons(f: Frame, frames: seq<Frame>)
    ensures Symbols([f] + frames) == [f.symbol] + Symbols(frames)
  {
  }

  lemma {:induction false} PutSymbols(frames: seq<Frame>, f: Frame)
    ensures Symbols(Put(frames, f)) ==
            if f.symbol in Symbols(frames) then Symbols(frames) else Symbols(frames) + [f.symbol]
  {
    if frames == [] {
      SymbolsCons(f, []);
    } else {
      var head, tail := frames[0], frames[1..];
      assert frames == [head] + tail;
      SymbolsCons(head, tail);
      SymbolsCons(f, tail);
      SymbolsCons(head, Put(tail, f));
      hide Symbols;
      if head.symbol != f.symbol {
        PutSymbols(tail, f);
        assert f.symbol in Symbols(frames) <==> f.symbol in Symbols(tail);
      }
    }
  }

  lemma {:induction false} PutMembers(frames: seq<Frame>, f: Frame, x: Frame)
    requires DistinctFrames(frames)
    ensures x in Put(frames, f) <==> x == f || (x in frames && x.symbol != f.symbol)
  {
    if frames != [] {
      assert frames == [frames[0]] + frames[1..];
      if frames[0].symbol == f.symbol {
        assert x in frames[1..] ==> x.symbol != f.symbol;
      } else {
        PutMembers(frames[1..], f, x);
      }
    }
  }

  lemma SymbolsDistinct(frames: seq<Frame>)
    ensures DistinctFrames(frames) <==>
            forall i, j :: 0 <= i < j < |frames| ==> Symbols(frames)[i] != Symbols(frames)[j]
  {
    assert forall i :: 0 <= i < |frames| ==> frames[i].symbol == Symbols(frames)[i];
  }

  /** The collected frames are exactly the last result of every symbol, in order of first appearance. */
  lemma {:induction false} FramesCorrect(results: seq<Frame>)
    ensures DistinctFrames(Frames(results))
    ensures Symbols(Frames(results)) == FirstAppearance(Symbols(results))
    ensures forall f :: f in Frames(results) <==> LastResult(results, f.symbol) == Some(f)
  {
    if results != [] {
      var init, last := results[..|results| - 1], results[|results| - 1];
      FramesCorrect(init);
      PutSymbols(Frames(init), last);
      assert Symbols(results)[..|results| - 1] == Symbols(init);
      forall x ensures x in Frames(results) <==> x == last || (x in Frames(init) && x.symbol != last.symbol) {
        PutMembers(Frames(init), last, x);
      }
      SymbolsDistinct(Frames(init));
      SymbolsDistinct(Frames(results));
    }
  }

  lemma {:induction false} PricesCorrect(results: seq<Frame>)
    ensures forall x :: x in Prices(results) <==> x in Symbols(results)
    ensures forall x :: x in Prices(results) ==>
              LastResult(results, x).Some? && Prices(results)[x] == LastResult(results, x).value.price
  {
    if results != [] {
      var n := |results| - 1;
      PricesCorrect(results[..n]);
      assert Symbols(results) == Symbols(results[..n]) + [results[n].symbol];
    }
  }

  // ---- What a tick does ----------------------------------------------------

  /** The call made for a frame: the strategy's signals under the tick's settings, never on the expiry rule. */
  function CallsFor(frames: seq<Frame>): seq<Call> {
    seq(|frames|, i requires 0 <= i < |frames| =>
      Call(frames[i].symbol, frames[i].signals, frames[i].s, frames[i].clock, false, frames[i].verdict, frames[i].fill))
  }

  /** The entry loop is a run of the pipeline over the frames whose symbol is not in a trade, each called once, in
      order. */
  lemma {:induction false} EnterIsRun(live: Live, frames: seq<Frame>, inTrade: set<string>, lotSize: int)
    requires lotSize >= 1
    ensures Enter(live, frames, inTrade, lotSize) ==
            Orchestrator.Run(live, CallsFor(Filter(frames, (f: Frame) => f.symbol !in inTrade)), lotSize)
  {
    hide Step;
    if frames != [] {
      var n := |frames| - 1;
      EnterIsRun(live, frames[..n], inTrade, lotSize);
      var kept := Filter(frames[..n], (f: Frame) => f.symbol !in inTrade);
      if frames[n].symbol !in inTrade {
        assert CallsFor(kept + [frames[n]])[..|kept|] == CallsFor(kept);
      }
    }
  }

  /** A trading tick that does not square off marks the book to market and then calls the pipeline once for every
      collected frame whose symbol has no OPEN trade left, in order. */
  lemma TickCalls(st: Sched, input: TickInput, lotSize: int)
    requires lotSize >= 1 && Trading(input) && !Fires(st, input)
    ensures var marked := T.Apply(st.live.book, T.MarkToMarket(Prices(input.results)));
            var flat := Filter(Frames(input.results), (f: Frame) => f.symbol !in OpenSymbols(marked));
            Tick(st, input, lotSize) ==
            st.(live := Orchestrator.Run(st.live.(book := marked), CallsFor(flat), lotSize))
  {
    hide Enter;
    hide T.Apply;
    hide Frames;
    EnterIsRun(st.live.(book := Marked(st, input)), Frames(input.results), OpenSymbols(Marked(st, input)), lotSize);
  }

  /** Outside market hours, or without a watchlist, a tick leaves pipeline, counters and book alone. */
  lemma IdleTick(st: Sched, input: TickInput, lotSize: int)
    requires lotSize >= 1 && !Trading(input)
    ensures Tick(st, input, lotSize).live == st.live
    ensures st.squaredOffOn == Some(input.now.day) ==> Tick(st, input, lotSize).squaredOffOn == st.squaredOffOn
  {
    hide Enter;
    hide T.Apply;
  }

  lemma {:induction false} RunKeepsRows(live: Live, calls: seq<Call>, lotSize: int)
    requires lotSize >= 1
    ensures live.book.trades <= Orchestrator.Run(live, calls, lotSize).book.trades
  {
    hide Step;
    if calls != [] {
      var n := |calls| - 1;
      RunKeepsRows(live, calls[..n], lotSize);
      StepCounts(Orchestrator.Run(live, calls[..n], lotSize), calls[n], lotSize);
    }
  }

  lemma LastPrice(results: seq<Frame>, symbol: string)
    ensures symbol in Prices(results) <==> LastResult(results, symbol).Some?
    ensures symbol in Prices(results) ==> Prices(results)[symbol] == LastResult(results, symbol).value.price
  {
    PricesCorrect(results);
    LastResultIn(results, symbol);
    hide Prices;
    hide LastResult;
    assert forall i :: 0 <= i < |results| ==> Symbols(results)[i] == results[i].symbol;
  }

  /** Every row over one tick: an OPEN trade closes at the symbol's last fetched price if that reaches its stop or
      target, or if the tick squares off; without a price only a square-off closes it, at its entry price. All other
      rows, and all rows outside trading hours, stay as they are. */
  lemma TickRows(st: Sched, input: TickInput, i: nat, lotSize: int)
    requires lotSize >= 1 && i < |st.live.book.trades|
    ensures var t, after := st.live.book.trades[i], Tick(st, input, lotSize).live.book.trades;
            && i < |after|
            && if !Trading(input) || t.status.Closed? then after[i] == t
               else
                 match LastResult(input.results, t.symbol)
                 case None => if Fires(st, input) then T.ClosedFor(t, after[i], t.entryPrice) else after[i] == t
                 case Some(f) =>
                   if Fires(st, input) || T.StopReached(t, f.price) || T.TargetReached(t, f.price)
                   then T.ClosedFor(t, after[i], f.price) else after[i] == t
  {
    hide T.Apply;
    hide Enter;
    hide Frames;
    hide T.ClosedFor;
    hide T.StopReached;
    hide T.TargetReached;
    hide Prices;
    hide LastResult;
    var prices := Prices(input.results);
    LastPrice(input.results, st.live.book.trades[i].symbol);
    if Trading(input) {
      T.MarkToMarketExact(st.live.book, prices, i);
      ClosedForIsClosed(st.live.book.trades[i], Marked(st, input).trades[i]);
      if Fires(st, input) {
        T.ForceCloseExact(Marked(st, input), prices, i);
      } else {
        TickCalls(st, input, lotSize);
        RunKeepsRows(st.live.(book := Marked(st, input)),
                     CallsFor(Filter(Frames(input.results), (f: Frame) => f.symbol !in OpenSymbols(Marked(st, input)))), lotSize);
      }
    }
  }

  lemma ClosedForIsClosed(t: T.Trade, t': T.Trade)
    ensures forall price :: T.ClosedFor(t, t', price) ==> t'.status.Closed?
  {
  }

  // ---- Square-off ----------------------------------------------------------

  /** The tick that fires marks to market, then closes the rest; it leaves no OPEN trade, adds none, calls no pipeline
      and remembers its date. */
  lemma FiringTickFlattens(st: Sched, input: TickInput, lotSize: int)
    requires lotSize >= 1 && Fires(st, input)
    ensures var after := Tick(st, input, lotSize);
            && T.OpenRows(after.live.book.trades) == [] && after.squaredOffOn == Some(input.now.day)
            && |after.live.book.trades| == |st.live.book.trades|
            && after.live.memory == st.live.memory && after.live.risk == st.live.risk
            && var prices := Prices(input.results);
               after.live.book == T.Apply(T.Apply(st.live.book, T.MarkToMarket(prices)), T.ForceCloseAll(prices))
  {
    T.ForceCloseLeavesNoneOpen(Marked(st, input), Prices(input.results));
  }

  ghost function Ticks(init: Sched, inputs: seq<TickInput>, lotSize: int): Sched
    requires lotSize >= 1
  {
    if inputs == [] then init
    else Tick(Ticks(init, inputs[..|inputs| - 1], lotSize), inputs[|inputs| - 1], lotSize)
  }

  ghost predicate MonotoneClock(inputs: seq<TickInput>) {
    forall i, j :: 0 <= i < j < |inputs| ==> inputs[i].now.day <= inputs[j].now.day
  }

  lemma TickKeepsMark(st: Sched, input: TickInput, lotSize: int)
    requires lotSize >= 1 && st.squaredOffOn == Some(input.now.day)
    ensures Tick(st, input, lotSize).squaredOffOn == st.squaredOffOn
  {
    hide Enter;
    hide T.Apply;
  }

  lemma {:induction false} MarkStays(init: Sched, inputs: seq<TickInput>, i: nat, lotSize: int)
    requires lotSize >= 1 && i < |inputs| && MonotoneClock(inputs)
    requires Fires(Ticks(init, inputs[..i], lotSize), inputs[i])
    requires inputs[|inputs| - 1].now.day == inputs[i].now.day
    ensures Ticks(init, inputs, lotSize).squaredOffOn == Some(inputs[i].now.day)
  {
    hide Tick;
    hide Fires;
    var n := |inputs| - 1;
    if i == n {
      FiringTickFlattens(Ticks(init, inputs[..n], lotSize), inputs[n], lotSize);
    } else {
      var before := inputs[..n];
      assert before[..i] == inputs[..i];
      assert inputs[i].now.day <= inputs[n - 1].now.day <= inputs[n].now.day;
      MarkStays(init, before, i, lotSize);
      TickKeepsMark(Ticks(init, before, lotSize), inputs[n], lotSize);
    }
  }

  /** With a clock that never goes back a day, square-off fires at most once per date, over any ticks in between. */
  lemma SquareOffOncePerDate(init: Sched, inputs: seq<TickInput>, i: nat, j: nat, lotSize: int)
    requires lotSize >= 1 && i < j < |inputs| && MonotoneClock(inputs)
    requires Fires(Ticks(init, inputs[..i], lotSize), inputs[i])
    requires inputs[i].now.day == inputs[j].now.day
    ensures !Fires(Ticks(init, inputs[..j], lotSize), inputs[j])
  {
    hide Tick;
    var before := inputs[..j];
    assert before[..i] == inputs[..i];
    assert inputs[i].now.day <= inputs[j - 1].now.day <= inputs[j].now.day;
    MarkStays(init, before, i, lotSize);
  }

  /** Square-off stops entries on its own tick only: once a date is squared off, its later ticks trade exactly as
      if the square-off time were still ahead. */
  lemma SquaredOffTicksTradeOn(st: Sched, input: TickInput, later: int, lotSize: int)
    requires lotSize >= 1 && st.squaredOffOn == Some(input.now.day) && input.now.time < later
    ensures Tick(st, input, lotSize) == Tick(st, input.(hours := input.hours.(squareOff := later)), lotSize)
  {
    hide Enter;
    hide T.Apply;
  }

  /** "Don't open new trades after square-off time", exactly: a tick at or past that time opens no trade whatever the
      strategies, verdicts and fills are if and only if its date has not been squared off before. */
  lemma NoEntriesIffFirstSquareOff(st: Sched, now: C.Instant, hours: Hours, lotSize: int)
    requires lotSize >= 1 && 0.0 < st.live.risk.kelly <= 1.0
    requires C.IsMarketOpen(now, hours.open, hours.close, hours.holidays) && now.time >= hours.squareOff
    ensures (forall results :: |Tick(st, TickInput(now, hours, true, results), lotSize).live.book.trades|
                               == |st.live.book.trades|)
            <==> st.squaredOffOn != Some(now.day)
  {
    hide Tick;
    hide Fires;
    if st.squaredOffOn != Some(now.day) {
      forall results ensures |Tick(st, TickInput(now, hours, true, results), lotSize).live.book.trades|
                             == |st.live.book.trades|
      {
        FirstPastTimeFires(st, TickInput(now, hours, true, results));
        FiringTickFlattens(st, TickInput(now, hours, true, results), lotSize);
      }
    } else {
      var frame := WillingFrame(st.live, lotSize);
      SquaredOffDoesNotFire(st, TickInput(now, hours, true, [frame]));
      WillingTickOpens(st, now, hours, frame, lotSize);
    }
  }

  lemma FirstPastTimeFires(st: Sched, input: TickInput)
    requires Trading(input) && input.now.time >= input.hours.squareOff && st.squaredOffOn != Some(input.now.day)
    ensures Fires(st, input)
  {
  }

  /** One frame whose only signal is sure to be executed: it wins alone, no AI objection, every risk gate passes. */
  ghost predicate Willing(live: Live, frame: Frame, lotSize: int)
    requires lotSize >= 1
  {
    && |frame.signals| == 1 && frame.signals[0].confidence >= 0.5
    && frame.s.minAgreement == 1 && frame.s.minConfidence == 0.5
    && frame.s.memoryTicks <= 1 && frame.s.cooldownTicks <= 0
    && frame.verdict == Verdict(true, None) && frame.clock.day == live.risk.stats.lastReset
    && R.Decide(live.risk.stats, frame.s, live.risk.kelly, frame.signals[0], lotSize, frame.clock, false).approved
  }

  ghost predicate Traded(book: T.Book, symbol: string) {
    exists t :: t in book.trades && t.symbol == symbol
  }

  lemma {:induction false} UntradedSymbol(trades: seq<T.Trade>) returns (symbol: string)
    ensures forall t :: t in trades ==> |t.symbol| < |symbol|
  {
    if trades == [] {
      symbol := "X";
    } else {
      var n := |trades| - 1;
      symbol := UntradedSymbol(trades[..n]);
      symbol := symbol + trades[n].symbol + "X";
      assert trades == trades[..n] + [trades[n]];
    }
  }

  /** Settings exist that let a one-lot signal for a new symbol through, whatever the counters are. */
  lemma WillingFrame(live: Live, lotSize: int) returns (frame: Frame)
    requires lotSize >= 1 && 0.0 < live.risk.kelly <= 1.0
    ensures Willing(live, frame, lotSize) && !Traded(live.book, frame.symbol)
  {
    var symbol := UntradedSymbol(live.book.trades);
    var stats := live.risk.stats;
    var capital := Abs(stats.realizedToday) + lotSize as real + 1.0;
    var s := R.Settings(false, stats.tradesToday + 1, stats.openPositions + 1, capital, 100.0, 100.0 / live.risk.kelly,
                        0, false, false, 0.0, 1, 0.5, 1, 0);
    var sig := Signal(symbol, "any", Buy, 1.0, 0.0, None, 0.5);
    frame := Frame(symbol, 1.0, [sig], s, R.Clock(stats.lastReset, 0), Verdict(true, None), T.Fill(1.0, "any"));
    hide R.Decide;
    R.ApprovedIff(stats, s, live.risk.kelly, sig, lotSize, frame.clock, false);
    WholeBudget(capital, live.risk.kelly);
  }

  lemma WholeBudget(capital: real, kelly: real)
    requires kelly > 0.0
    ensures Sizing.Budget(capital, 100.0) == capital
    ensures Sizing.Budget(capital, 100.0 / kelly * kelly) == capital
  {
  }

  /** A willing frame for a symbol without a trade is executed by every trading tick that does not square off. */
  lemma WillingTickOpens(st: Sched, now: C.Instant, hours: Hours, frame: Frame, lotSize: int)
    requires lotSize >= 1 && Willing(st.live, frame, lotSize) && !Traded(st.live.book, frame.symbol)
    requires Trading(TickInput(now, hours, true, [frame])) && !Fires(st, TickInput(now, hours, true, [frame]))
    ensures var after := Tick(st, TickInput(now, hours, true, [frame]), lotSize).live.book;
            && |after.trades| == |st.live.book.trades| + 1
            && after.trades[|st.live.book.trades|].status.Open?
  {
    hide Step;
    hide R.Decide;
    var input := TickInput(now, hours, true, [frame]);
    var marked := Marked(st, input);
    assert |marked.trades| == |st.live.book.trades|;
    assert frame.symbol !in OpenSymbols(marked) by {
      OpenSymbolsCorrect(marked);
      forall i | 0 <= i < |marked.trades| ensures marked.trades[i].symbol != frame.symbol {
        assert st.live.book.trades[i] in st.live.book.trades;
      }
    }
    SingleFrame(st.live.(book := marked), frame, OpenSymbols(marked), lotSize);
    WillingStep(st.live.(book := marked), frame, lotSize);
  }

  lemma WillingStep(live: Live, frame: Frame, lotSize: int)
    requires lotSize >= 1 && Willing(live, frame, lotSize)
    ensures var qty := R.Decide(live.risk.stats, frame.s, live.risk.kelly, frame.signals[0], lotSize, frame.clock, false).qty;
            Step(live, CallOf(frame), lotSize).0.book == T.ExecuteOn(live.book, frame.signals[0], qty, frame.fill)
  {
    hide Winner;
    hide R.Decide;
    var sig := frame.signals[0];
    assert frame.signals == [sig];
    LateWinner(sig);
  }

  /** A long NIFTY signal under default-like settings. */
  function LateFrame(day: int): Frame {
    Frame("NIFTY", 100.0, [Signal("NIFTY", "ema_breakout", Buy, 100.0, 99.0, None, 0.9)],
          R.Settings(false, 5, 3, 25000.0, 2.0, 1.0, 2, false, false, 2.0, 1, 0.5, 1, 0),
          R.Clock(day, 9), Verdict(true, None), T.Fill(100.0, "PAPER-1"))
  }

  lemma LateFrameWilling(live: Live, day: int)
    requires live.risk == R.RiskState(R.NewDay(day), 1.0)
    ensures Willing(live, LateFrame(day), 1)
  {
    var frame := LateFrame(day);
    R.ApprovedIff(R.NewDay(day), frame.s, 1.0, frame.signals[0], 1, frame.clock, false);
  }

  /** Two ticks of one day: the first squares off at the square-off time, the second, a minute later, opens a trade,
      which by `SquareOffOncePerDate` no later tick of that date squares off. */
  lemma LateEntry(day: int, holidays: set<int>) returns (init: Sched, inputs: seq<TickInput>)
    requires C.IsMarketDay(day, holidays)
    ensures init == Sched(None, Live(NO_MEMORY, R.RiskState(R.NewDay(day), 1.0), T.Book([], [])))
    ensures |inputs| == 2 && MonotoneClock(inputs) && inputs[0].now.day == inputs[1].now.day == day
    ensures inputs[1].now.time > inputs[0].now.time == inputs[0].hours.squareOff
    ensures Fires(init, inputs[0])
    ensures |T.OpenRows(Ticks(init, inputs, 1).live.book.trades)| == 1
  {
    hide LateFrame;
    var hours := Hours(555 * C.MINUTE, 930 * C.MINUTE, 920 * C.MINUTE, holidays);
    init := Sched(None, Live(NO_MEMORY, R.RiskState(R.NewDay(day), 1.0), T.Book([], [])));
    var first := TickInput(C.Instant(day, 920 * C.MINUTE), hours, true, []);
    var second := TickInput(C.Instant(day, 921 * C.MINUTE), hours, true, [LateFrame(day)]);
    inputs := [first, second];
    assert Fires(init, first);
    assert Trading(second);
    TwoTicks(init, first, second, 1);
    var between := Tick(init, first, 1);
    EmptyBookFires(init, first, 1);
    hide Tick;
    hide Fires;
    hide Trading;
    hide Willing;
    LateFrameWilling(between.live, day);
    SquaredOffDoesNotFire(between, second);
    WillingTickOpens(between, second.now, hours, LateFrame(day), 1);
    var after := Tick(between, second, 1).live.book;
    assert after.trades == [after.trades[0]];
    OneOpen(after.trades[0]);
  }

  lemma TwoTicks(init: Sched, first: TickInput, second: TickInput, lotSize: int)
    requires lotSize >= 1
    ensures Ticks(init, [first, second], lotSize) == Tick(Tick(init, first, lotSize), second, lotSize)
  {
    hide Tick;
    assert [first, second][..1] == [first];
    assert [first][..0] == [];
    assert Ticks(init, [first], lotSize) == Tick(init, first, lotSize);
  }

  lemma EmptyBookFires(st: Sched, input: TickInput, lotSize: int)
    requires lotSize >= 1 && Fires(st, input) && st.live.book == T.Book([], [])
    ensures Tick(st, input, lotSize) == Sched(Some(input.now.day), st.live)
  {
    assert Marked(st, input) == st.live.book;
    assert T.Apply(st.live.book, T.ForceCloseAll(Prices(input.results))) == st.live.book;
  }

  lemma SquaredOffDoesNotFire(st: Sched, input: TickInput)
    requires st.squaredOffOn == Some(input.now.day)
    ensures !Fires(st, input)
  {
  }

  lemma LateWinner(sig: Signal)
    requires sig.confidence >= 0.5
    ensures Winner([sig], 1, 0.5) == Some(sig)
  {
    var none: seq<Signal> := [];
    assert none + [sig] == [sig];
    FilterAppend(none, sig, (s: Signal) => s.confidence >= 0.5);
    FilterAppend(none, sig, (s: Signal) => s.side == sig.side);
    FilterAppend(none, sig, (s: Signal) => s.side == sig.side.Flip());
    assert Strong([sig], 0.5) == [sig];
    assert OnSide([sig], sig.side) == [sig];
    assert OnSide([sig], sig.side.Flip()) == [];
  }

  lemma SingleFrame(live: Live, frame: Frame, inTrade: set<string>, lotSize: int)
    requires lotSize >= 1 && frame.symbol !in inTrade
    ensures Frames([frame]) == [frame]
    ensures Enter(live, [frame], inTrade, lotSize) == Step(live, CallOf(frame), lotSize).0
  {
    hide Step;
    assert [frame][..0] == [];
  }

  lemma OneOpen(trade: T.Trade)
    requires trade.status.Open?
    ensures T.OpenRows([trade]) == [T.Row(1, trade)]
  {
  }

  // ---- Counting OPEN rows --------------------------------------------------

  function OpenCount(book: T.Book): nat {
    |T.OpenRows(book.trades)|
  }

  /** Never more than one OPEN trade per symbol. */
  ghost predicate OnePerSymbol(book: T.Book) {
    forall i, j :: 0 <= i < j < |book.trades| && book.trades[i].status.Open? && book.trades[j].status.Open? ==>
      book.trades[i].symbol != book.trades[j].symbol
  }

  /** `after` has the rows of `before`, some of them closed. */
  ghost predicate OnlyCloses(before: seq<T.Trade>, after: seq<T.Trade>) {
    |after| == |before| &&
    forall i :: 0 <= i < |before| ==>
      after[i].symbol == before[i].symbol && (after[i].status.Open? ==> before[i].status.Open?)
  }

  lemma {:induction false} ClosesCount(before: seq<T.Trade>, after: seq<T.Trade>)
    requires OnlyCloses(before, after)
    ensures |T.OpenRows(after)| <= |T.OpenRows(before)|
  {
    if before != [] {
      var n := |before| - 1;
      ClosesCount(before[..n], after[..n]);
    }
  }

  lemma {:induction false} OneCloseCount(before: seq<T.Trade>, after: seq<T.Trade>, k: nat)
    requires k < |before| == |after| && before[k].status.Open? && after == before[k := after[k]] && !after[k].status.Open?
    ensures |T.OpenRows(after)| == |T.OpenRows(before)| - 1
  {
    var n := |before| - 1;
    if k < n {
      assert after[..n] == before[..n][k := after[k]];
      OneCloseCount(before[..n], after[..n], k);
    } else {
      assert after[..n] == before[..n];
    }
  }

  lemma OpenSymbolsCorrect(book: T.Book)
    ensures forall x :: x in OpenSymbols(book) <==>
              exists i :: 0 <= i < |book.trades| && book.trades[i].status.Open? && book.trades[i].symbol == x
  {
    var trades := book.trades;
    T.OpenRowsCorrect(trades);
    forall x | exists i :: 0 <= i < |trades| && trades[i].status.Open? && trades[i].symbol == x
      ensures x in OpenSymbols(book)
    {
      var i :| 0 <= i < |trades| && trades[i].status.Open? && trades[i].symbol == x;
      assert T.Row(i + 1, trades[i]) in T.OpenRows(trades);
    }
  }

  // ---- Signals belong to their symbol --------------------------------------

  ghost predicate Own(symbol: string, signals: seq<Signal>) {
    forall s :: s in signals ==> s.symbol == symbol
  }

  ghost predicate OwnLog(symbol: string, log: seq<Entry>) {
    forall i :: 0 <= i < |log| ==> log[i].signal.symbol == symbol
  }

  ghost predicate OwnBuffers(m: Memory) {
    forall symbol :: symbol in m.buffers ==> OwnLog(symbol, m.buffers[symbol])
  }

  lemma {:induction false} PruneOwn(symbol: string, log: seq<Entry>, cutoff: int)
    requires OwnLog(symbol, log)
    ensures OwnLog(symbol, Prune(log, cutoff))
  {
    if log != [] && log[0].tick <= cutoff {
      PruneOwn(symbol, log[1..], cutoff);
    }
  }

  lemma LatestOwn(symbol: string, log: seq<Entry>)
    requires OwnLog(symbol, log)
    ensures Own(symbol, Latest(log))
  {
    LatestCorrect(log);
    forall s | s in Latest(log) ensures s.symbol == symbol {
      LatestOfOwn(symbol, log, s.strategy);
    }
  }

  lemma {:induction false} LatestOfOwn(symbol: string, log: seq<Entry>, strategy: string)
    requires OwnLog(symbol, log)
    ensures LatestOf(log, strategy).Some? ==> LatestOf(log, strategy).value.symbol == symbol
  {
    if log != [] && log[|log| - 1].signal.strategy != strategy {
      LatestOfOwn(symbol, log[..|log| - 1], strategy);
    }
  }

  lemma MergeOwn(m: Memory, symbol: string, signals: seq<Signal>, window: int)
    requires OwnBuffers(m) && Own(symbol, signals)
    ensures var (after, candidates) := Merge(m, symbol, signals, window);
            OwnBuffers(after) && Own(symbol, candidates)
  {
    hide Latest;
    hide Prune;
    if window > 1 {
      var grown := Buffered(m, symbol) + Tag(m.tick, signals);
      PruneOwn(symbol, grown, m.tick - window);
      LatestOwn(symbol, Prune(grown, m.tick - window));
    }
  }

  lemma WinnerOwn(symbol: string, signals: seq<Signal>, minAgreement: int, minConfidence: real)
    requires Own(symbol, signals)
    ensures match Winner(signals, minAgreement, minConfidence)
            case None => true
            case Some(w) => w.symbol == symbol
  {
    hide Winner;
    hide Beats;
    WinnerSound(signals, minAgreement, minConfidence);
  }

  lemma AdjustedOwn(m: Memory, call: Call, best: Signal)
    requires OwnBuffers(m)
    ensures OwnBuffers(Adjusted(m, call, best))
  {
  }

  lemma RecallOwn(m: Memory, call: Call)
    requires OwnBuffers(m) && Own(call.symbol, call.signals)
    ensures OwnBuffers(Recall(m, call).0)
    ensures Recall(m, call).1.Some? ==> Recall(m, call).1.value.symbol == call.symbol
  {
    hide Merge;
    hide Winner;
    var ticked := m.(tick := m.tick + 1);
    MergeOwn(ticked, call.symbol, call.signals, call.s.memoryTicks);
    var (_, candidates) := Merge(ticked, call.symbol, call.signals, call.s.memoryTicks);
    WinnerOwn(call.symbol, candidates, call.s.minAgreement, call.s.minConfidence);
  }

  lemma RememberOwn(m: Memory, call: Call)
    requires OwnBuffers(m) && Own(call.symbol, call.signals)
    ensures OwnBuffers(Remember(m, call))
  {
    hide Recall;
    hide Adjusted;
    RecallOwn(m, call);
    var (recalled, best) := Recall(m, call);
    if best.Some? {
      AdjustedOwn(recalled, call, best.value);
    }
  }

  // ---- The daily invariant -------------------------------------------------

  /** On one day under one position limit. */
  ghost predicate SameDay(frames: seq<Frame>, day: int, limit: int) {
    forall f :: f in frames ==> f.clock.day == day && f.s.maxOpenPositions == limit
  }

  /** Every strategy signals for the symbol it was asked about. */
  ghost predicate OwnSignals(frames: seq<Frame>) {
    forall f :: f in frames ==> Own(f.symbol, f.signals)
  }

  function Limit(limit: int): nat {
    if limit > 0 then limit else 0
  }

  /** The open-position counter the risk engine goes by on `day`: a date change clears it at the next evaluation. */
  function Counter(live: Live, day: int): int {
    R.ResetIfNewDay(live.risk.stats, day).openPositions
  }

  /** All OPEN trades but the `carried` ones are counted. Trades are carried into a day whose counter starts at zero
      while they are OPEN: overnight, or over a restart of the process. */
  ghost predicate Safe(live: Live, day: int, limit: int, carried: nat) {
    && OwnBuffers(live.memory)
    && OnePerSymbol(live.book)
    && OpenCount(live.book) <= Counter(live, day) + carried
    && Counter(live, day) <= Limit(limit)
  }

  /** One pipeline call opens at most one trade and counts it. */
  lemma StepCounts(live: Live, call: Call, lotSize: int)
    requires lotSize >= 1
    ensures var after := Step(live, call, lotSize).0;
            var day := call.clock.day;
            || (after.book == live.book && Counter(after, day) == Counter(live, day))
            || (&& |after.book.trades| == |live.book.trades| + 1
                && after.book.trades[..|live.book.trades|] == live.book.trades
                && after.book.trades[|live.book.trades|].status.Open?
                && Counter(after, day) == Counter(live, day) + 1
                && Counter(live, day) < call.s.maxOpenPositions)
  {
    hide Recall;
    hide Remember;
    hide Process;
    var best := Recall(live.memory, call).1;
    if best.Some? {
      ProcessFacts(live.risk, live.book, best.value, call, lotSize);
    }
  }

  /** A trade opened by a call is for the call's symbol. */
  lemma StepOwn(live: Live, call: Call, lotSize: int)
    requires lotSize >= 1 && OwnBuffers(live.memory) && Own(call.symbol, call.signals)
    ensures var after := Step(live, call, lotSize).0;
            && OwnBuffers(after.memory)
            && (|after.book.trades| == |live.book.trades| + 1 ==>
                  after.book.trades[|live.book.trades|].symbol == call.symbol)
  {
    hide Recall;
    hide Remember;
    hide Process;
    RecallOwn(live.memory, call);
    RememberOwn(live.memory, call);
    var best := Recall(live.memory, call).1;
    if best.Some? {
      ProcessFacts(live.risk, live.book, best.value, call, lotSize);
    }
  }

  lemma StepSafe(live: Live, call: Call, day: int, limit: int, carried: nat, lotSize: int)
    requires lotSize >= 1 && Safe(live, day, limit, carried)
    requires call.clock.day == day && call.s.maxOpenPositions == limit && Own(call.symbol, call.signals)
    requires call.symbol !in OpenSymbols(live.book)
    ensures var after := Step(live, call, lotSize).0;
            Safe(after, day, limit, carried) && OpenSymbols(after.book) <= OpenSymbols(live.book) + {call.symbol}
  {
    hide Step;
    hide OpenSymbols;
    hide OwnBuffers;
    StepCounts(live, call, lotSize);
    StepOwn(live, call, lotSize);
    OpenSymbolsCorrect(live.book);
    var after := Step(live, call, lotSize).0;
    OpenSymbolsCorrect(after.book);
  }

  lemma {:induction false} EnterSafe(live: Live, frames: seq<Frame>, day: int, limit: int, carried: nat, lotSize: int)
    requires lotSize >= 1 && Safe(live, day, limit, carried)
    requires SameDay(frames, day, limit) && OwnSignals(frames) && DistinctFrames(frames)
    ensures var after := Enter(live, frames, OpenSymbols(live.book), lotSize);
            && Safe(after, day, limit, carried)
            && OpenSymbols(after.book) <= OpenSymbols(live.book) + set f | f in frames :: f.symbol
  {
    hide Step;
    hide Safe;
    hide OpenSymbols;
    if frames != [] {
      var n := |frames| - 1;
      var inTrade := OpenSymbols(live.book);
      var before := Enter(live, frames[..n], inTrade, lotSize);
      EnterSafe(live, frames[..n], day, limit, carried, lotSize);
      var f := frames[n];
      assert f in frames;
      assert f.symbol !in (set g | g in frames[..n] :: g.symbol);
      if f.symbol !in inTrade {
        StepSafe(before, CallOf(f), day, limit, carried, lotSize);
      }
      assert forall g :: g in frames[..n] ==> g in frames;
    }
  }

  lemma {:induction false} FramesFacts(results: seq<Frame>)
    ensures DistinctFrames(Frames(results))
    ensures forall x :: x in Frames(results) ==> x in results
  {
    FramesCorrect(results);
    forall f | f in Frames(results) ensures f in results {
      LastResultIn(results, f.symbol);
    }
  }

  lemma SweepSafe(live: Live, op: T.Op, day: int, limit: int, carried: nat)
    requires Safe(live, day, limit, carried) && (op.MarkToMarket? || op.ForceCloseAll?)
    ensures Safe(live.(book := T.Apply(live.book, op)), day, limit, carried)
  {
    var after := T.Apply(live.book, op);
    assert OnlyCloses(live.book.trades, after.trades);
    ClosesCount(live.book.trades, after.trades);
  }

  lemma TickSafe(st: Sched, input: TickInput, day: int, limit: int, carried: nat, lotSize: int)
    requires lotSize >= 1 && Safe(st.live, day, limit, carried)
    requires SameDay(input.results, day, limit) && OwnSignals(input.results)
    ensures Safe(Tick(st, input, lotSize).live, day, limit, carried)
  {
    hide Safe;
    hide Enter;
    hide T.Apply;
    hide Frames;
    if Trading(input) {
      var prices := Prices(input.results);
      SweepSafe(st.live, T.MarkToMarket(prices), day, limit, carried);
      var marked := st.live.(book := Marked(st, input));
      if Fires(st, input) {
        SweepSafe(marked, T.ForceCloseAll(prices), day, limit, carried);
      } else {
        FramesFacts(input.results);
        EnterSafe(marked, Frames(input.results), day, limit, carried, lotSize);
      }
    }
  }

  // ---- Runs with manual closes ---------------------------------------------

  datatype Event = OnTick(input: TickInput) | ManualClose(id: nat, price: real)

  /** The close endpoint: closes an OPEN row, then records the row's profit with the risk engine, also when the row
      was closed before. An unknown id changes nothing. */
  function CloseByHand(st: Sched, id: nat, price: real): Sched {
    var book := T.Apply(st.live.book, T.CloseTrade(id, price));
    if 1 <= id <= |book.trades| && book.trades[id - 1].status.Closed?
    then st.(live := st.live.(book := book, risk := R.Apply(st.live.risk, R.Close(book.trades[id - 1].pnl))))
    else st.(live := st.live.(book := book))
  }

  function Handle(st: Sched, e: Event, lotSize: int): Sched
    requires lotSize >= 1
  {
    match e
    case OnTick(input) => Tick(st, input, lotSize)
    case ManualClose(id, price) => CloseByHand(st, id, price)
  }

  ghost function Run(init: Sched, events: seq<Event>, lotSize: int): Sched
    requires lotSize >= 1
  {
    if events == [] then init
    else Handle(Run(init, events[..|events| - 1], lotSize), events[|events| - 1], lotSize)
  }

  /** Closing a row by hand a second time leaves the book as it is but records the row's profit with the risk engine
      again, and counts one position less. */
  lemma SecondCloseRecordsAgain(st: Sched, id: nat, price: real)
    requires 1 <= id <= |st.live.book.trades| && st.live.book.trades[id - 1].status.Closed?
    ensures var after, stats := CloseByHand(st, id, price), st.live.risk.stats;
            && after.live.book == st.live.book && after.live.memory == st.live.memory
            && after.squaredOffOn == st.squaredOffOn && after.live.risk.kelly == st.live.risk.kelly
            && after.live.risk.stats.realizedToday == stats.realizedToday + st.live.book.trades[id - 1].pnl
            && after.live.risk.stats.openPositions == (if stats.openPositions >= 1 then stats.openPositions - 1 else 0)
            && after.live.risk.stats.tradesToday == stats.tradesToday && after.live.risk.stats.lastReset == stats.lastReset
  {
  }

  /** The first close of an OPEN row closes it at the given price and records the profit of that price. */
  lemma FirstCloseRecords(st: Sched, id: nat, price: real)
    requires 1 <= id <= |st.live.book.trades| && st.live.book.trades[id - 1].status.Open?
    ensures var after, stats := CloseByHand(st, id, price), st.live.risk.stats;
            && |after.live.book.trades| == |st.live.book.trades|
            && T.ClosedFor(st.live.book.trades[id - 1], after.live.book.trades[id - 1], price)
            && (forall j :: 0 <= j < |st.live.book.trades| && j != id - 1 ==> after.live.book.trades[j] == st.live.book.trades[j])
            && after.live.risk.stats.realizedToday == stats.realizedToday + after.live.book.trades[id - 1].pnl
            && after.live.risk.stats.openPositions == (if stats.openPositions >= 1 then stats.openPositions - 1 else 0)
  {
    T.CloseTradeExact(st.live.book, id, price);
    hide T.Pnl;
  }

  /** The counter can afford a manual close of row `id`: the row is OPEN, or there is nothing left to count down, or
      the counter covers more trades than are OPEN. An unknown id is refused by the endpoint. */
  predicate Affordable(live: Live, id: nat, day: int, carried: nat) {
    1 <= id <= |live.book.trades| ==>
      T.IsOpen(live.book, id) || Counter(live, day) <= 0 || OpenCount(live.book) < Counter(live, day) + carried
  }

  /** A close of a known row keeps the OPEN trades covered by the counter if and only if it was affordable. Closing a
      CLOSED row again, when every counted position is OPEN, breaks it. */
  lemma CounterSurvivesIffAffordable(st: Sched, id: nat, price: real, day: int, carried: nat)
    requires 1 <= id <= |st.live.book.trades|
    requires OpenCount(st.live.book) <= Counter(st.live, day) + carried
    ensures var after := CloseByHand(st, id, price).live;
            OpenCount(after.book) <= Counter(after, day) + carried <==> Affordable(st.live, id, day, carried)
  {
    var before, after := st.live.book.trades, CloseByHand(st, id, price).live.book.trades;
    if T.IsOpen(st.live.book, id) {
      OneCloseCount(before, after, id - 1);
    }
  }

  ghost predicate AffordableCloses(init: Sched, events: seq<Event>, day: int, carried: nat, lotSize: int)
    requires lotSize >= 1
  {
    forall k :: 0 <= k < |events| && events[k].ManualClose? ==>
      Affordable(Run(init, events[..k], lotSize).live, events[k].id, day, carried)
  }

  ghost predicate AllSameDay(events: seq<Event>, day: int, limit: int) {
    forall e :: e in events && e.OnTick? ==> SameDay(e.input.results, day, limit) && OwnSignals(e.input.results)
  }

  lemma CloseSafe(st: Sched, id: nat, price: real, day: int, limit: int, carried: nat)
    requires Safe(st.live, day, limit, carried) && Affordable(st.live, id, day, carried)
    ensures Safe(CloseByHand(st, id, price).live, day, limit, carried)
  {
    if 1 <= id <= |st.live.book.trades| {
      hide OpenCount;
      CounterSurvivesIffAffordable(st, id, price, day, carried);
    }
  }

  /** Over every sequence of ticks and affordable manual closes within a day: at most one OPEN trade per symbol, and
      never more than the position limit plus the OPEN trades the day's counter missed from the start. The start may
      be any state with one OPEN trade per symbol: with none carried it is the position limit that holds. Counters of
      an earlier day and signals remembered from it may be left over. */
  lemma {:induction false} DaySafe(init: Sched, events: seq<Event>, day: int, limit: int, carried: nat, lotSize: int)
    requires lotSize >= 1 && OwnBuffers(init.live.memory) && OnePerSymbol(init.live.book)
    requires OpenCount(init.live.book) <= Counter(init.live, day) + carried
    requires Counter(init.live, day) <= Limit(limit)
    requires AllSameDay(events, day, limit) && AffordableCloses(init, events, day, carried, lotSize)
    ensures Safe(Run(init, events, lotSize).live, day, limit, carried)
    ensures var book := Run(init, events, lotSize).live.book;
            OnePerSymbol(book) && OpenCount(book) <= Limit(limit) + carried
  {
    hide Tick;
    hide CloseByHand;
    hide Affordable;
    hide OnePerSymbol;
    hide OpenCount;
    hide OwnBuffers;
    if events != [] {
      var n := |events| - 1;
      var prefix, e := events[..n], events[n];
      assert e in events;
      assert forall x :: x in prefix ==> x in events;
      assert forall k :: 0 <= k < n ==> prefix[..k] == events[..k];
      DaySafe(init, prefix, day, limit, carried, lotSize);
      match e
      case OnTick(input) => TickSafe(Run(init, prefix, lotSize), input, day, limit, carried, lotSize);
      case ManualClose(id, price) => CloseSafe(Run(init, prefix, lotSize), id, price, day, limit, carried);
    }
  }

  /** A day that starts flat, with counters in range or of an earlier day, carries nothing. */
  lemma FlatStartCarriesNothing(live: Live, day: int, limit: int)
    requires OwnBuffers(live.memory) && T.OpenRows(live.book.trades) == []
    requires live.risk.stats.lastReset == day ==> 0 <= live.risk.stats.openPositions <= Limit(limit)
    ensures Safe(live, day, limit, 0)
  {
    T.NoOpenRows(live.book.trades);
  }

  // ---- How many trades a day can hold --------------------------------------

  /** From a state with `trades` rows and `counter` counted positions, and after `closes` manual closes: every new
      trade is still in the counter unless a close took one out, and new trades were opened below the limit only. */
  ghost predicate Counted(live: Live, trades: int, counter: int, closes: nat, day: int, limit: int) {
    var count := |live.book.trades| - trades;
    && 0 <= count <= Counter(live, day) - counter + closes
    && (count > 0 ==> count <= limit - counter + closes)
  }

  lemma {:induction false} EnterCounted(live: Live, frames: seq<Frame>, inTrade: set<string>, day: int, limit: int,
                                        trades: int, counter: int, closes: nat, lotSize: int)
    requires lotSize >= 1 && SameDay(frames, day, limit) && Counted(live, trades, counter, closes, day, limit)
    ensures Counted(Enter(live, frames, inTrade, lotSize), trades, counter, closes, day, limit)
  {
    hide Step;
    hide Counter;
    if frames != [] {
      var n := |frames| - 1;
      assert forall g :: g in frames[..n] ==> g in frames;
      EnterCounted(live, frames[..n], inTrade, day, limit, trades, counter, closes, lotSize);
      assert frames[n] in frames;
      StepCounts(Enter(live, frames[..n], inTrade, lotSize), CallOf(frames[n]), lotSize);
    }
  }

  lemma TickCounted(st: Sched, input: TickInput, day: int, limit: int, trades: int, counter: int, closes: nat, lotSize: int)
    requires lotSize >= 1 && SameDay(input.results, day, limit) && Counted(st.live, trades, counter, closes, day, limit)
    ensures Counted(Tick(st, input, lotSize).live, trades, counter, closes, day, limit)
  {
    hide Enter;
    hide Frames;
    if Trading(input) && !Fires(st, input) {
      FramesFacts(input.results);
      EnterCounted(st.live.(book := Marked(st, input)), Frames(input.results), OpenSymbols(Marked(st, input)),
                   day, limit, trades, counter, closes, lotSize);
    }
  }

  function ManualCloses(events: seq<Event>): nat {
    if events == [] then 0
    else ManualCloses(events[..|events| - 1]) + if events[|events| - 1].ManualClose? then 1 else 0
  }

  /** The scheduler never tells the risk engine about its own closes, only the close endpoint does: from any state, a
      day opens in all at most the limit, less what the counter of the day already holds, plus one per manual close,
      no matter how many trades stops, targets and square-off have closed again. */
  lemma {:induction false} TradesPerDay(init: Sched, events: seq<Event>, day: int, limit: int, lotSize: int)
    requires lotSize >= 1
    requires forall e :: e in events && e.OnTick? ==> SameDay(e.input.results, day, limit)
    ensures Counted(Run(init, events, lotSize).live, |init.live.book.trades|, Counter(init.live, day),
                    ManualCloses(events), day, limit)
    ensures var count := |Run(init, events, lotSize).live.book.trades| - |init.live.book.trades|;
            count > 0 ==> count <= limit - Counter(init.live, day) + ManualCloses(events)
  {
    hide Tick;
    if events != [] {
      var n := |events| - 1;
      var prefix, e := events[..n], events[n];
      assert e in events;
      assert forall x :: x in prefix ==> x in events;
      TradesPerDay(init, prefix, day, limit, lotSize);
      if e.OnTick? {
        TickCounted(Run(init, prefix, lotSize), e.input, day, limit, |init.live.book.trades|,
                    Counter(init.live, day), ManualCloses(prefix), lotSize);
      }
    }
  }

  // ---- The scheduler object ------------------------------------------------

  class MarketScheduler {
    var squaredOffOn: Option<int>
    const pipeline: Pipeline

    constructor (pipeline: Pipeline)
      ensures this.pipeline == pipeline && squaredOffOn == None
    {
      this.pipeline := pipeline;
      squaredOffOn := None;
    }

    ghost function View(): Sched
      reads this, pipeline, pipeline.risk, pipeline.execution.dal
    {
      Sched(squaredOffOn, pipeline.View())
    }

    /** Collect the last price and the candles of every symbol: one entry per symbol, at the place of its first
        result and with the contents of its last. */
    static method CollectFrames(results: seq<Frame>) returns (prices: map<string, real>, frames: seq<Frame>)
      ensures prices == Prices(results) && frames == Frames(results)
      ensures Symbols(frames) == FirstAppearance(Symbols(results))
      ensures forall f :: f in frames <==> LastResult(results, f.symbol) == Some(f)
      ensures forall x :: x in prices <==> x in Symbols(results)
      ensures forall x :: x in prices ==>
                LastResult(results, x).Some? && prices[x] == LastResult(results, x).value.price
    {
      prices, frames := map[], [];
      for i := 0 to |results|
        invariant prices == Prices(results[..i]) && frames == Frames(results[..i])
      {
        assert results[..i + 1][..i] == results[..i];
        prices := prices[results[i].symbol := results[i].price];
        frames := Put(frames, results[i]);
      }
      assert results[..|results|] == results;
      FramesCorrect(results);
      PricesCorrect(results);
    }

    method EnterTrades(frames: seq<Frame>, inTrade: set<string>)
      requires pipeline.lotSize >= 1
      modifies pipeline, pipeline.risk, pipeline.execution.dal
      ensures pipeline.View() == Enter(old(pipeline.View()), frames, inTrade, pipeline.lotSize)
    {
      hide Step;
      ghost var start := pipeline.View();
      for i := 0 to |frames|
        invariant pipeline.View() == Enter(start, frames[..i], inTrade, pipeline.lotSize)
      {
        assert frames[..i + 1][..i] == frames[..i];
        if frames[i].symbol !in inTrade {
          var _ := pipeline.Run(CallOf(frames[i]));
        }
      }
      assert frames[..|frames|] == frames;
    }

    method RunTick(input: TickInput)
      requires pipeline.lotSize >= 1
      modifies this, pipeline, pipeline.risk, pipeline.execution.dal
      ensures View() == Tick(old(View()), input, pipeline.lotSize)
    {
      hide Enter;
      hide T.Apply;
      if !C.IsMarketOpen(input.now, input.hours.open, input.hours.close, input.hours.holidays) {
        if squaredOffOn.Some? && squaredOffOn != Some(input.now.day) {
          squaredOffOn := None;
        }
        return;
      }
      if !input.watching {
        return;
      }
      var prices, frames := CollectFrames(input.results);
      var _ := pipeline.execution.MarkToMarket(prices);
      if input.now.time >= input.hours.squareOff && squaredOffOn != Some(input.now.day) {
        var _ := pipeline.execution.ForceCloseAll(prices);
        squaredOffOn := Some(input.now.day);
        return;
      }
      var inTrade := pipeline.execution.dal.ListOpenSymbols();
      assert inTrade == OpenSymbols(pipeline.execution.dal.View());
      EnterTrades(frames, inTrade);
    }
  }
}
