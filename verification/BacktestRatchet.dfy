/** The trailing ratchet in closed form, and the exact bar on which a trade leaves. */
module BacktestRatchet {
  import opened Prelude
  import opened Rounding
  import opened Conviction
  import opened Backtest

  // ---- When rounding loosens a stop ----------------------------------------

  /** The stop lies off the cent grid, strictly less than half a cent on the price side of its rounding. */
  predicate RoundsAway(side: Side, stop: real) {
    if side.Buy? then Round2(stop) < stop < Round2(stop) + 0.005
    else Round2(stop) - 0.005 < stop < Round2(stop)
  }

  lemma SameCent(side: Side, stop: real, level: real)
    requires Tighter(side, level, stop) && Tighter(side, stop, Round2(level))
    ensures RoundsAway(side, stop)
  {
    RoundNear(stop);
    RoundNear(level);
    var a, b := Cents(Round2(stop)), Cents(Round2(level));
    if side.Buy? {
      RoundMonotone(stop, level);
    } else {
      RoundMonotone(level, stop);
    }
    assert -1 < b - a < 1;
  }

  lemma InsideCent(r: real, level: real)
    requires OnGrid(r) && -0.005 < level - r < 0.005
    ensures Round2(level) == r
  {
    var k := Cents(r);
    if level >= r {
      assert (level * 100.0).Floor == k;
    } else {
      assert (level * 100.0).Floor == k - 1;
    }
  }

  /** The "ratchet" can move a stop away from the price exactly when the stop rounds away from it. */
  lemma RatchetLoosensIff(pos: Position)
    ensures (exists bar: Bar, mult :: Tighter(pos.side, pos.stop, Trailed(bar, pos, mult).stop))
            <==> RoundsAway(pos.side, pos.stop)
  {
    if bar: Bar, mult :| Tighter(pos.side, pos.stop, Trailed(bar, pos, mult).stop) {
      SameCent(pos.side, pos.stop, TrailLevel(bar, pos.side, mult));
    }
    if RoundsAway(pos.side, pos.stop) {
      var r := Round2(pos.stop);
      RoundNear(pos.stop);
      var level := if pos.side.Buy? then (pos.stop + r + 0.005) / 2.0 else (pos.stop + r - 0.005) / 2.0;
      InsideCent(r, level);
      var close := if pos.side.Buy? then level + 1.0 else level - 1.0;
      var bar := Bar(close, close, close, close, 0.0, Some(1.0));
      assert TrailLevel(bar, pos.side, 1.0) == level;
      assert Tighter(pos.side, pos.stop, Trailed(bar, pos, 1.0).stop);
    }
  }

  // ---- Closed form ---------------------------------------------------------

  /** The more protective of two stops. */
  function Nearer(side: Side, a: real, b: real): real {
    if side.Buy? then Max(a, b) else Min(a, b)
  }

  /** The initial stop and, for every bar after the entry up to bar j with a usable ATR, its close minus (long) or
      plus (short) the ATR multiple, rounded to the cent. */
  function Levels(cfg: Config, bars: seq<Bar>, pos: Position, j: nat): seq<real>
    requires pos.bar <= j < |bars|
  {
    if j == pos.bar then [pos.stop]
    else
      var before := Levels(cfg, bars, pos, j - 1);
      if cfg.trailMult > 0.0 && bars[j].atr.Some? && bars[j].atr.value > 0.0 then
        before + [Round2(if pos.side.Buy? then bars[j].close - bars[j].atr.value * cfg.trailMult
                         else bars[j].close + bars[j].atr.value * cfg.trailMult)]
      else before
  }

  lemma LevelsStep(cfg: Config, bars: seq<Bar>, pos: Position, j: nat)
    requires pos.bar < j < |bars|
    ensures Levels(cfg, bars, pos, j) ==
            Levels(cfg, bars, pos, j - 1) +
            if Trails(bars[j], cfg.trailMult) then [Round2(TrailLevel(bars[j], pos.side, cfg.trailMult))] else []
  {
    hide Round2;
  }

  /** s is the extreme of the levels: the largest for a long trade, the smallest for a short one. */
  ghost predicate IsExtreme(side: Side, levels: seq<real>, s: real) {
    s in levels && forall x :: x in levels ==> if side.Buy? then x <= s else x >= s
  }

  /** The position as the loop carries it from bar to bar. */
  function HeldPos(cfg: Config, bars: seq<Bar>, pos: Position, j: nat): Position
    requires pos.bar <= j < |bars|
    decreases j
  {
    if j == pos.bar then pos
    else Trailed(bars[j], HeldPos(cfg, bars, pos, j - 1), cfg.trailMult)
  }

  lemma {:induction false} HeldKeeps(cfg: Config, bars: seq<Bar>, pos: Position, j: nat)
    requires pos.bar <= j < |bars|
    ensures var held := HeldPos(cfg, bars, pos, j);
            held == pos.(stop := held.stop, trailed := held.trailed)
  {
    if j > pos.bar {
      HeldKeeps(cfg, bars, pos, j - 1);
    }
  }

  /** With the initial stop on the cent grid, the carried stop is the extreme of all levels so far: one pass over
      the bars, each compared before rounding, computes the maximum of the rounded levels. */
  lemma {:induction false} RatchetClosedForm(cfg: Config, bars: seq<Bar>, pos: Position, j: nat)
    requires pos.bar <= j < |bars| && OnGrid(pos.stop)
    ensures OnGrid(HeldPos(cfg, bars, pos, j).stop)
    ensures IsExtreme(pos.side, Levels(cfg, bars, pos, j), HeldPos(cfg, bars, pos, j).stop)
  {
    if j > pos.bar {
      hide OnGrid;
      hide Round2;
      var before := HeldPos(cfg, bars, pos, j - 1);
      RatchetClosedForm(cfg, bars, pos, j - 1);
      HeldKeeps(cfg, bars, pos, j - 1);
      LevelsStep(cfg, bars, pos, j);
      hide Levels;
      hide IsExtreme;
      if Trails(bars[j], cfg.trailMult) {
        var level := TrailLevel(bars[j], pos.side, cfg.trailMult);
        hide TrailLevel;
        RoundedMove(pos.side, before.stop, level);
        RoundNear(level);
        assert HeldPos(cfg, bars, pos, j).stop == Nearer(pos.side, before.stop, Round2(level));
        NewExtreme(pos.side, Levels(cfg, bars, pos, j - 1), before.stop, Round2(level));
      }
    }
  }

  /** Bar k's unrounded level, its close less (long) or plus (short) the ATR multiple, beats the given stop. */
  predicate Beaten(cfg: Config, bar: Bar, side: Side, stop: real) {
    && cfg.trailMult > 0.0 && bar.atr.Some? && bar.atr.value > 0.0
    && if side.Buy? then bar.close - bar.atr.value * cfg.trailMult > stop
       else bar.close + bar.atr.value * cfg.trailMult < stop
  }

  /** Some held bar's unrounded level beat the stop in force on it. */
  ghost predicate Moved(cfg: Config, bars: seq<Bar>, pos: Position, j: nat)
    requires pos.bar <= j < |bars|
  {
    exists k :: pos.bar < k <= j && Beaten(cfg, bars[k], pos.side, HeldPos(cfg, bars, pos, k - 1).stop)
  }

  lemma TrailedStep(cfg: Config, bar: Bar, pos: Position)
    ensures var after := Trailed(bar, pos, cfg.trailMult);
            if Beaten(cfg, bar, pos.side, pos.stop) then after.trailed else after == pos
  {
  }

  lemma MovedStep(cfg: Config, bars: seq<Bar>, pos: Position, j: nat)
    requires pos.bar < j < |bars|
    ensures Moved(cfg, bars, pos, j) <==>
            Moved(cfg, bars, pos, j - 1) || Beaten(cfg, bars[j], pos.side, HeldPos(cfg, bars, pos, j - 1).stop)
  {
    hide Beaten;
    hide HeldPos;
  }

  lemma NotMovedAtEntry(cfg: Config, bars: seq<Bar>, pos: Position)
    requires pos.bar < |bars|
    ensures !Moved(cfg, bars, pos, pos.bar)
  {
  }

  lemma HeldStep(cfg: Config, bars: seq<Bar>, pos: Position, j: nat)
    requires pos.bar <= j < |bars|
    ensures HeldPos(cfg, bars, pos, j) ==
            if j == pos.bar then pos else Trailed(bars[j], HeldPos(cfg, bars, pos, j - 1), cfg.trailMult)
  {
    hide Trailed;
  }

  /** A trade counts as trailed exactly when the stop has moved; until then the stop is the initial one. */
  lemma {:induction false} TrailedIff(cfg: Config, bars: seq<Bar>, pos: Position, j: nat)
    requires pos.bar <= j < |bars| && !pos.trailed
    ensures var held := HeldPos(cfg, bars, pos, j);
            && (held.trailed <==> Moved(cfg, bars, pos, j))
            && (!held.trailed ==> held.stop == pos.stop)
  {
    hide Moved;
    hide Beaten;
    hide Trailed;
    HeldStep(cfg, bars, pos, j);
    hide HeldPos;
    if j == pos.bar {
      NotMovedAtEntry(cfg, bars, pos);
    } else {
      TrailedIff(cfg, bars, pos, j - 1);
      HeldKeeps(cfg, bars, pos, j - 1);
      TrailedStep(cfg, bars[j], HeldPos(cfg, bars, pos, j - 1));
      TrailedStays(bars[j], HeldPos(cfg, bars, pos, j - 1), cfg.trailMult);
      MovedStep(cfg, bars, pos, j);
    }
  }

  lemma TrailedStays(bar: Bar, pos: Position, trailMult: real)
    ensures pos.trailed ==> Trailed(bar, pos, trailMult).trailed
  {
  }

  lemma RoundedMove(side: Side, stop: real, level: real)
    requires OnGrid(stop)
    ensures Nearer(side, stop, Round2(level)) == if Tighter(side, level, stop) then Round2(level) else stop
  {
  }

  lemma NewExtreme(side: Side, levels: seq<real>, s: real, x: real)
    requires IsExtreme(side, levels, s)
    ensures IsExtreme(side, levels + [x], Nearer(side, s, x))
  {
  }

  /** So a stop on the grid never loosens over the life of a trade. */
  lemma {:induction false} RatchetNeverLoosens(cfg: Config, bars: seq<Bar>, pos: Position, i: nat, j: nat)
    requires pos.bar <= i <= j < |bars| && OnGrid(pos.stop)
    ensures !Tighter(pos.side, HeldPos(cfg, bars, pos, i).stop, HeldPos(cfg, bars, pos, j).stop)
    decreases j
  {
    if i < j {
      RatchetNeverLoosens(cfg, bars, pos, i, j - 1);
      var before := HeldPos(cfg, bars, pos, j - 1);
      RatchetClosedForm(cfg, bars, pos, j - 1);
      HeldKeeps(cfg, bars, pos, j - 1);
      if Trails(bars[j], cfg.trailMult) {
        RoundedMove(pos.side, before.stop, TrailLevel(bars[j], pos.side, cfg.trailMult));
      }
    }
  }

  // ---- First touch ---------------------------------------------------------

  /** No bar after the entry and up to j touches the stop or target in force on it. */
  ghost predicate Untouched(cfg: Config, bars: seq<Bar>, pos: Position, j: nat)
    requires pos.bar <= j < |bars|
  {
    forall k :: pos.bar < k <= j ==> ExitOn(bars[k], HeldPos(cfg, bars, pos, k - 1)).None?
  }

  /** The record is the exit of this position on the first bar that touches it. */
  ghost predicate FirstTouch(cfg: Config, bars: seq<Bar>, pos: Position, e: nat, record: TradeRecord) {
    && pos.bar < e < |bars|
    && Untouched(cfg, bars, pos, e - 1)
    && var held := HeldPos(cfg, bars, pos, e - 1);
       match ExitOn(bars[e], held)
       case None => false
       case Some((price, reason)) => record == Record(cfg, held, price, reason, e - pos.bar)
  }

  /** The record is the end-of-data close of a position no bar ever touched. */
  ghost predicate HeldToEnd(cfg: Config, bars: seq<Bar>, pos: Position, e: nat, record: TradeRecord) {
    && pos.bar <= e == |bars| - 1
    && Untouched(cfg, bars, pos, e)
    && record == Record(cfg, HeldPos(cfg, bars, pos, e), bars[e].close, EodExit, e - pos.bar)
  }

  ghost predicate Explained(cfg: Config, bars: seq<Bar>, n: nat, st: State)
    requires n <= |bars|
  {
    && Tracked(st) && |st.spans| == |st.trades|
    && (forall k :: 0 <= k < |st.spans| ==>
          !st.spans[k].initial.trailed
          && FirstTouch(cfg, bars, st.spans[k].initial, st.spans[k].closedAt, st.trades[k]))
    && (st.pos.Some? ==>
          && !st.initial.value.trailed && st.initial.value.bar < n
          && Untouched(cfg, bars, st.initial.value, n - 1)
          && st.pos.value == HeldPos(cfg, bars, st.initial.value, n - 1))
  }

  lemma ExitExplained(cfg: Config, bars: seq<Bar>, i: nat, st: State)
    requires i < |bars| && Explained(cfg, bars, i, st)
    ensures Explained(cfg, bars, i + 1, CheckExit(cfg, bars[i], i, st))
  {
    hide Trailed;
    hide ExitOn;
    hide Record;
    if st.pos.Some? {
      var pos := st.initial.value;
      HeldKeeps(cfg, bars, pos, i - 1);
      match Simulate(cfg, bars[i], i, st.pos.value)
      case Exited(record) =>
        assert FirstTouch(cfg, bars, pos, i, record);
      case Held(_) =>
    }
  }

  lemma EntryExplained(cfg: Config, policy: Policy, bars: seq<Bar>, i: nat, st: State)
    requires i < |bars| && cfg.lotSize >= 1 && Explained(cfg, bars, i + 1, st)
    ensures Explained(cfg, bars, i + 1, TryEnter(cfg, policy, bars, i, st))
  {
  }

  lemma StartExplained(cfg: Config, capital: real, bars: seq<Bar>, n: nat)
    requires n <= |bars|
    ensures Explained(cfg, bars, n, Start(capital))
  {
  }

  lemma {:induction false} RunExplained(cfg: Config, policy: Policy, capital: real, bars: seq<Bar>, n: nat)
    requires cfg.lotSize >= 1 && n <= |bars|
    ensures Explained(cfg, bars, n, RunTo(cfg, policy, capital, bars, n))
  {
    hide TryEnter;
    hide CheckExit;
    hide Explained;
    if n <= WARMUP {
      StartExplained(cfg, capital, bars, n);
    } else {
      var before := RunTo(cfg, policy, capital, bars, n - 1);
      RunExplained(cfg, policy, capital, bars, n - 1);
      ExitExplained(cfg, bars, n - 1, before);
      EntryExplained(cfg, policy, bars, n - 1, CheckExit(cfg, bars[n - 1], n - 1, before));
    }
  }

  /** Every record of every run is the first touch of the position it opened, or the end of data if there was none. */
  lemma EveryTradeExplained(cfg: Config, policy: Policy, capital: real, bars: seq<Bar>, k: nat)
    requires cfg.lotSize >= 1
    requires k < |Run(cfg, policy, capital, bars).spans|
    ensures var st := Run(cfg, policy, capital, bars);
            && |st.spans| == |st.trades| && !st.spans[k].initial.trailed
            && (FirstTouch(cfg, bars, st.spans[k].initial, st.spans[k].closedAt, st.trades[k])
                || HeldToEnd(cfg, bars, st.spans[k].initial, st.spans[k].closedAt, st.trades[k]))
  {
    hide RunTo;
    hide FirstTouch;
    hide NetPnl;
    hide Round2;
    RunExplained(cfg, policy, capital, bars, |bars|);
    var st := RunTo(cfg, policy, capital, bars, |bars|);
    if st.pos.Some? {
      HeldKeeps(cfg, bars, st.initial.value, |bars| - 1);
    }
  }

  /** The bar stays above (long) or below (short) all given stops and short of the target; a target of zero is none. */
  ghost predicate ClearOf(bar: Bar, pos: Position, levels: seq<real>) {
    && (forall x :: x in levels ==> if pos.side.Buy? then bar.low > x else bar.high < x)
    && (pos.target.Some? && pos.target.value != 0.0 ==>
          if pos.side.Buy? then bar.high < pos.target.value else bar.low > pos.target.value)
  }

  /** Every bar after the entry and up to j is clear of the levels of the bars before it. */
  ghost predicate Clear(cfg: Config, bars: seq<Bar>, pos: Position, j: nat)
    requires pos.bar <= j < |bars|
  {
    forall k :: pos.bar < k <= j ==> ClearOf(bars[k], pos, Levels(cfg, bars, pos, k - 1))
  }

  ghost predicate BeatsAll(cfg: Config, bar: Bar, side: Side, levels: seq<real>) {
    forall x :: x in levels ==> Beaten(cfg, bar, side, x)
  }

  /** Some bar after the entry and up to j has an unrounded level beyond all levels before it. */
  ghost predicate Ratcheted(cfg: Config, bars: seq<Bar>, pos: Position, j: nat)
    requires pos.bar <= j < |bars|
  {
    exists k :: pos.bar < k <= j && BeatsAll(cfg, bars[k], pos.side, Levels(cfg, bars, pos, k - 1))
  }

  lemma ClearOfStop(bar: Bar, pos: Position, held: Position, levels: seq<real>)
    requires IsExtreme(pos.side, levels, held.stop) && held.side == pos.side && held.target == pos.target
    ensures ClearOf(bar, pos, levels) <==> ExitOn(bar, held).None?
  {
  }

  lemma BeatsExtreme(cfg: Config, bar: Bar, side: Side, levels: seq<real>, stop: real)
    requires IsExtreme(side, levels, stop)
    ensures BeatsAll(cfg, bar, side, levels) <==> Beaten(cfg, bar, side, stop)
  {
  }

  lemma ClearIsUntouched(cfg: Config, bars: seq<Bar>, pos: Position, j: nat)
    requires pos.bar <= j < |bars| && OnGrid(pos.stop)
    ensures Clear(cfg, bars, pos, j) <==> Untouched(cfg, bars, pos, j)
  {
    hide OnGrid;
    hide Levels;
    hide HeldPos;
    hide ClearOf;
    hide ExitOn;
    forall k | pos.bar < k <= j
      ensures ClearOf(bars[k], pos, Levels(cfg, bars, pos, k - 1)) <==> ExitOn(bars[k], HeldPos(cfg, bars, pos, k - 1)).None?
    {
      RatchetClosedForm(cfg, bars, pos, k - 1);
      HeldKeeps(cfg, bars, pos, k - 1);
      ClearOfStop(bars[k], pos, HeldPos(cfg, bars, pos, k - 1), Levels(cfg, bars, pos, k - 1));
    }
  }

  lemma RatchetedIsMoved(cfg: Config, bars: seq<Bar>, pos: Position, j: nat)
    requires pos.bar <= j < |bars| && OnGrid(pos.stop)
    ensures Ratcheted(cfg, bars, pos, j) <==> Moved(cfg, bars, pos, j)
  {
    hide OnGrid;
    hide Levels;
    hide HeldPos;
    hide Beaten;
    hide BeatsAll;
    forall k | pos.bar < k <= j
      ensures BeatsAll(cfg, bars[k], pos.side, Levels(cfg, bars, pos, k - 1)) <==>
              Beaten(cfg, bars[k], pos.side, HeldPos(cfg, bars, pos, k - 1).stop)
    {
      RatchetClosedForm(cfg, bars, pos, k - 1);
      BeatsExtreme(cfg, bars[k], pos.side, Levels(cfg, bars, pos, k - 1), HeldPos(cfg, bars, pos, k - 1).stop);
    }
    hide IsExtreme;
    if Moved(cfg, bars, pos, j) {
      var k :| pos.bar < k <= j && Beaten(cfg, bars[k], pos.side, HeldPos(cfg, bars, pos, k - 1).stop);
      assert BeatsAll(cfg, bars[k], pos.side, Levels(cfg, bars, pos, k - 1));
    }
    if Ratcheted(cfg, bars, pos, j) {
      var k :| pos.bar < k <= j && BeatsAll(cfg, bars[k], pos.side, Levels(cfg, bars, pos, k - 1));
      assert Beaten(cfg, bars[k], pos.side, HeldPos(cfg, bars, pos, k - 1).stop);
    }
  }

  /** The gross result of the record's own prices and quantity, less the slippage of the exit leg and half a
      round-trip fee. The entry already contains its slippage. */
  function NetResult(cfg: Config, t: TradeRecord): real {
    (if t.side.Buy? then t.exit - t.entry else t.entry - t.exit) * t.qty as real
    - t.exit * cfg.slip * t.qty as real - cfg.brokerage / 2.0
  }

  /** What a record must carry: its net result, rounded to the cent. */
  predicate Netted(cfg: Config, t: TradeRecord) {
    t.pnl == Round2(NetResult(cfg, t))
  }

  lemma NetFormula(cfg: Config, pos: Position, exit: real, reason: ExitReason, barsHeld: int)
    ensures NetResult(cfg, Record(cfg, pos, exit, reason, barsHeld)) == NetPnl(cfg, pos, exit)
  {
    hide Round2;
  }

  lemma RecordNetted(cfg: Config, pos: Position, exit: real, reason: ExitReason, barsHeld: int)
    ensures Netted(cfg, Record(cfg, pos, exit, reason, barsHeld))
  {
    NetFormula(cfg, pos, exit, reason, barsHeld);
    hide NetPnl;
    hide NetResult;
    hide Round2;
  }

  /** Every record of every run, off the grid too and end-of-data records included, carries this profit. */
  lemma EveryRecordNetted(cfg: Config, policy: Policy, capital: real, bars: seq<Bar>, k: nat)
    requires cfg.lotSize >= 1
    requires k < |Run(cfg, policy, capital, bars).trades|
    ensures Netted(cfg, Run(cfg, policy, capital, bars).trades[k])
  {
    hide Run;
    hide Record;
    hide Netted;
    hide ExitOn;
    SpansMatch(cfg, policy, capital, bars);
    EveryTradeExplained(cfg, policy, capital, bars, k);
    var st := Run(cfg, policy, capital, bars);
    var pos, e, record := st.spans[k].initial, st.spans[k].closedAt, st.trades[k];
    if FirstTouch(cfg, bars, pos, e, record) {
      var held := HeldPos(cfg, bars, pos, e - 1);
      var exit := ExitOn(bars[e], held).value;
      RecordNetted(cfg, held, exit.0, exit.1, e - pos.bar);
    } else {
      RecordNetted(cfg, HeldPos(cfg, bars, pos, e), bars[e].close, EodExit, e - pos.bar);
    }
  }

  lemma SpansMatch(cfg: Config, policy: Policy, capital: real, bars: seq<Bar>)
    requires cfg.lotSize >= 1
    ensures |Run(cfg, policy, capital, bars).spans| == |Run(cfg, policy, capital, bars).trades|
  {
    hide RunTo;
    hide Record;
    RunExplained(cfg, policy, capital, bars, |bars|);
  }

  /** A record in the trader's terms: the stop recorded is the extreme level of the bars before the exit, and the
      profit is net of costs. A trade the data did not end left on the first bar that touched it: at that stop if the
      bar reaches it, as a trailing exit if the stop had moved and at the initial stop otherwise, or at the target,
      which the bar then reaches. */
  ghost predicate InTradersTerms(cfg: Config, bars: seq<Bar>, pos: Position, e: nat, record: TradeRecord)
    requires pos.bar <= e < |bars|
  {
    && record.side == pos.side && record.entry == pos.entry && record.qty == pos.qty && record.target == pos.target
    && record.contributors == pos.contributors && record.barsHeld == e - pos.bar
    && Netted(cfg, record)
    && if record.reason.EodExit? then
         && e == |bars| - 1 && Clear(cfg, bars, pos, e)
         && IsExtreme(pos.side, Levels(cfg, bars, pos, e), record.stopLoss)
         && record.exit == bars[e].close
       else
         && pos.bar < e && Clear(cfg, bars, pos, e - 1)
         && IsExtreme(pos.side, Levels(cfg, bars, pos, e - 1), record.stopLoss)
         && if (if pos.side.Buy? then bars[e].low <= record.stopLoss else bars[e].high >= record.stopLoss) then
              && record.exit == record.stopLoss
              && record.reason == (if Ratcheted(cfg, bars, pos, e - 1) then TrailingExit else StopExit)
              && (record.reason.StopExit? ==> record.exit == pos.stop)
            else
              && pos.target.Some? && pos.target.value != 0.0
              && record.exit == pos.target.value && record.reason.TargetExit?
              && if pos.side.Buy? then bars[e].high >= pos.target.value else bars[e].low <= pos.target.value
  }

  lemma FirstTouchPrice(cfg: Config, bars: seq<Bar>, pos: Position, e: nat, record: TradeRecord)
    requires FirstTouch(cfg, bars, pos, e, record) && OnGrid(pos.stop) && !pos.trailed
    ensures InTradersTerms(cfg, bars, pos, e, record)
  {
    hide Levels;
    hide IsExtreme;
    hide HeldPos;
    hide Round2;
    hide Moved;
    hide Ratcheted;
    hide Untouched;
    hide Clear;
    hide OnGrid;
    RatchetClosedForm(cfg, bars, pos, e - 1);
    HeldKeeps(cfg, bars, pos, e - 1);
    TrailedIff(cfg, bars, pos, e - 1);
    ClearIsUntouched(cfg, bars, pos, e - 1);
    RatchetedIsMoved(cfg, bars, pos, e - 1);
    var held := HeldPos(cfg, bars, pos, e - 1);
    var exit := ExitOn(bars[e], held).value;
    RecordNetted(cfg, held, exit.0, exit.1, e - pos.bar);
    hide NetPnl;
  }

  lemma HeldToEndPrice(cfg: Config, bars: seq<Bar>, pos: Position, e: nat, record: TradeRecord)
    requires HeldToEnd(cfg, bars, pos, e, record) && OnGrid(pos.stop)
    ensures InTradersTerms(cfg, bars, pos, e, record)
  {
    hide Levels;
    hide IsExtreme;
    hide HeldPos;
    hide Round2;
    hide Untouched;
    hide Clear;
    hide OnGrid;
    RatchetClosedForm(cfg, bars, pos, e);
    HeldKeeps(cfg, bars, pos, e);
    ClearIsUntouched(cfg, bars, pos, e);
    RecordNetted(cfg, HeldPos(cfg, bars, pos, e), bars[e].close, EodExit, e - pos.bar);
    hide NetPnl;
  }

  /** Every record of every run whose initial stop is on the cent grid reads as above. */
  lemma EveryRecordPriced(cfg: Config, policy: Policy, capital: real, bars: seq<Bar>, k: nat)
    requires cfg.lotSize >= 1
    requires k < |Run(cfg, policy, capital, bars).spans|
    requires OnGrid(Run(cfg, policy, capital, bars).spans[k].initial.stop)
    ensures var st := Run(cfg, policy, capital, bars);
            && |st.spans| == |st.trades|
            && st.spans[k].initial.bar <= st.spans[k].closedAt < |bars|
            && InTradersTerms(cfg, bars, st.spans[k].initial, st.spans[k].closedAt, st.trades[k])
  {
    hide Run;
    hide InTradersTerms;
    EveryTradeExplained(cfg, policy, capital, bars, k);
    var st := Run(cfg, policy, capital, bars);
    var span, record := st.spans[k], st.trades[k];
    if FirstTouch(cfg, bars, span.initial, span.closedAt, record) {
      FirstTouchPrice(cfg, bars, span.initial, span.closedAt, record);
    } else {
      HeldToEndPrice(cfg, bars, span.initial, span.closedAt, record);
    }
  }
}
