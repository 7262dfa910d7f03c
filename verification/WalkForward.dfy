/** Walk-forward validation: fresh single-strategy runs over windows that tile the data. */
module WalkForward {
  import opened Prelude
  import opened Backtest
  import opened BacktestTiling

  datatype Strategy = Strategy(name: string, generate: Generator)

  datatype Frame = Frame(cfg: Config, capital: real, bars: seq<Bar>, trainBars: nat, testBars: nat)

  // ---- Specification -------------------------------------------------------

  /** Index of the first test bar of window w. */
  function WindowStart(f: Frame, w: nat): nat {
    f.trainBars + w * f.testBars
  }

  /** Index of the first bar handed to the run: the test bars preceded by at most 60 warm-up bars. */
  function SliceStart(f: Frame, w: nat): nat {
    if WindowStart(f, w) > WARMUP then WindowStart(f, w) - WARMUP else 0
  }

  predicate Fits(f: Frame, w: nat) {
    WindowStart(f, w) + f.testBars <= |f.bars|
  }

  function Window(f: Frame, w: nat): seq<Bar>
    requires Fits(f, w)
  {
    f.bars[SliceStart(f, w)..WindowStart(f, w) + f.testBars]
  }

  function WindowTrades(f: Frame, s: Strategy, w: nat): seq<TradeRecord>
    requires f.cfg.lotSize >= 1 && Fits(f, w)
  {
    Run(f.cfg, Solo(s.generate), f.capital, Window(f, w)).trades
  }

  /** One window's records for a name: the dictionary merges strategies that share it. */
  function NamedTrades(f: Frame, strategies: seq<Strategy>, name: string, w: nat): seq<TradeRecord>
    requires f.cfg.lotSize >= 1 && Fits(f, w)
  {
    if strategies == [] then []
    else
      var n := |strategies| - 1;
      NamedTrades(f, strategies[..n], name, w) +
      if strategies[n].name == name then WindowTrades(f, strategies[n], w) else []
  }

  lemma FitsBefore(f: Frame, w: nat, v: nat)
    requires Fits(f, w) && v <= w
    ensures Fits(f, v) && WindowStart(f, v) <= WindowStart(f, w)
  {
  }

  function WalkTrades(f: Frame, strategies: seq<Strategy>, name: string, windows: nat): seq<TradeRecord>
    requires f.cfg.lotSize >= 1 && (windows > 0 ==> Fits(f, windows - 1))
  {
    if windows == 0 then []
    else
      assert windows > 1 ==> Fits(f, windows - 2) by {
        if windows > 1 { FitsBefore(f, windows - 1, windows - 2); }
      }
      WalkTrades(f, strategies, name, windows - 1) + NamedTrades(f, strategies, name, windows - 1)
  }

  /** How many whole test windows the data holds. */
  function WindowCount(f: Frame): nat
    requires f.testBars >= 1
  {
    if |f.bars| < f.trainBars then 0 else (|f.bars| - f.trainBars) / f.testBars
  }

  lemma MulMonotone(a: int, b: int, size: nat)
    requires a <= b
    ensures a * size <= b * size
  {
  }

  lemma DivBelow(x: nat, size: nat, w: int)
    requires size >= 1
    ensures w < x / size <==> (w + 1) * size <= x
  {
    var q, r := x / size, x % size;
    assert x == q * size + r;
    if w < q {
      MulMonotone(w + 1, q, size);
    } else {
      MulMonotone(q + 1, w + 1, size);
      assert (q + 1) * size == q * size + size;
    }
  }

  lemma CountFits(f: Frame, w: nat)
    requires f.testBars >= 1
    ensures w < WindowCount(f) <==> Fits(f, w)
  {
    assert (w + 1) * f.testBars == w * f.testBars + f.testBars;
    if |f.bars| >= f.trainBars {
      DivBelow(|f.bars| - f.trainBars, f.testBars, w);
    } else {
      MulMonotone(0, w, f.testBars);
    }
  }

  // ---- Tiling --------------------------------------------------------------

  /** Bar b of the data is evaluated (exits checked, entries tried) by the run over window w. */
  predicate EvaluatedIn(f: Frame, w: nat, b: nat)
    requires Fits(f, w)
  {
    SliceStart(f, w) + WARMUP <= b < SliceStart(f, w) + |Window(f, w)|
  }

  /** Every bar from the end of training (or of the warm-up) to the end of the last whole window is evaluated
      in exactly one window, and no other bar is evaluated at all. */
  lemma EvaluatedOnce(f: Frame, w: nat, b: nat)
    requires f.testBars >= 1 && w < WindowCount(f)
    ensures Fits(f, w)
    ensures EvaluatedIn(f, w, b) <==>
              && b >= WARMUP && b >= f.trainBars
              && b < f.trainBars + WindowCount(f) * f.testBars
              && w == (b - f.trainBars) / f.testBars
  {
    CountFits(f, w);
    var k, start := WindowCount(f), WindowStart(f, w);
    assert EvaluatedIn(f, w, b) <==> b >= WARMUP && start <= b < start + f.testBars;
    hide WindowCount;
    MulMonotone(w + 1, k, f.testBars);
    MulMonotone(0, w, f.testBars);
    assert (w + 1) * f.testBars == w * f.testBars + f.testBars;
    if b >= f.trainBars {
      InWindow(b - f.trainBars, f.testBars, w);
    }
  }

  lemma InWindow(x: nat, size: nat, w: nat)
    requires size >= 1
    ensures w * size <= x < w * size + size <==> w == x / size
  {
    DivBelow(x, size, w);
    DivBelow(x, size, w - 1);
    assert (w + 1) * size == w * size + size;
  }

  /** A run that never gets past its warm-up holds no trade. */
  lemma ShortRun(cfg: Config, policy: Policy, capital: real, bars: seq<Bar>)
    requires cfg.lotSize >= 1 && |bars| <= WARMUP
    ensures Run(cfg, policy, capital, bars) == Start(capital)
  {
  }

  /** No trade reaches over the edge of its window: it opens and closes on bars evaluated there. */
  lemma TradesStayInWindow(f: Frame, s: Strategy, w: nat, k: nat)
    requires f.cfg.lotSize >= 1 && f.testBars >= 1 && w < WindowCount(f)
    requires Fits(f, w)
    requires k < |Run(f.cfg, Solo(s.generate), f.capital, Window(f, w)).spans|
    ensures var span := Run(f.cfg, Solo(s.generate), f.capital, Window(f, w)).spans[k];
            && EvaluatedIn(f, w, SliceStart(f, w) + span.initial.bar)
            && EvaluatedIn(f, w, SliceStart(f, w) + span.closedAt)
  {
    hide Run;
    if |Window(f, w)| <= WARMUP {
      ShortRun(f.cfg, Solo(s.generate), f.capital, Window(f, w));
      assert false;
    } else {
      RunTiles(f.cfg, Solo(s.generate), f.capital, Window(f, w));
    }
  }

  // ---- What the aggregate is made of ----------------------------------------

  /** The records of one window for a list of strategies, in order. */
  function Gathered(f: Frame, chosen: seq<Strategy>, w: nat): seq<TradeRecord>
    requires f.cfg.lotSize >= 1 && Fits(f, w)
  {
    if chosen == [] then []
    else Gathered(f, chosen[..|chosen| - 1], w) + WindowTrades(f, chosen[|chosen| - 1], w)
  }

  lemma {:induction false} NamedIsGathered(f: Frame, strategies: seq<Strategy>, name: string, w: nat)
    requires f.cfg.lotSize >= 1 && Fits(f, w)
    ensures NamedTrades(f, strategies, name, w) == Gathered(f, Filter(strategies, (s: Strategy) => s.name == name), w)
  {
    hide WindowTrades;
    if strategies != [] {
      NamedIsGathered(f, strategies[..|strategies| - 1], name, w);
    }
  }

  lemma {:induction false} OnlyOneNamed(strategies: seq<Strategy>, j: nat)
    requires j < |strategies| && forall m :: 0 <= m < |strategies| && m != j ==> strategies[m].name != strategies[j].name
    ensures Filter(strategies, (s: Strategy) => s.name == strategies[j].name) == [strategies[j]]
  {
    var n := |strategies| - 1;
    if j < n {
      OnlyOneNamed(strategies[..n], j);
    } else {
      NoneNamed(strategies[..n], strategies[j].name);
    }
  }

  lemma {:induction false} NoneNamed(strategies: seq<Strategy>, name: string)
    requires forall m :: 0 <= m < |strategies| ==> strategies[m].name != name
    ensures Filter(strategies, (s: Strategy) => s.name == name) == []
  {
    if strategies != [] {
      NoneNamed(strategies[..|strategies| - 1], name);
    }
  }

  lemma {:induction false} WalkGrows(f: Frame, strategies: seq<Strategy>, name: string, v: nat, w: nat)
    requires f.cfg.lotSize >= 1 && v <= w && (w > 0 ==> Fits(f, w - 1))
    ensures v > 0 ==> Fits(f, v - 1)
    ensures WalkTrades(f, strategies, name, v) <= WalkTrades(f, strategies, name, w)
    decreases w
  {
    hide NamedTrades;
    if v < w {
      if w > 1 {
        FitsBefore(f, w - 1, w - 2);
      }
      WalkGrows(f, strategies, name, v, w - 1);
    }
  }

  lemma BlockIsNamed(f: Frame, strategies: seq<Strategy>, name: string, w: nat, windows: nat)
    requires f.cfg.lotSize >= 1 && w < windows && Fits(f, windows - 1)
    ensures Fits(f, w) && (w > 0 ==> Fits(f, w - 1))
    ensures var all, from, to := WalkTrades(f, strategies, name, windows), |WalkTrades(f, strategies, name, w)|,
                                 |WalkTrades(f, strategies, name, w + 1)|;
            && from <= to <= |all| && (w == 0 ==> from == 0) && (w == windows - 1 ==> to == |all|)
            && all[from..to] == NamedTrades(f, strategies, name, w)
  {
    hide NamedTrades;
    FitsBefore(f, windows - 1, w);
    if w > 0 {
      FitsBefore(f, windows - 1, w - 1);
    }
    WalkGrows(f, strategies, name, w + 1, windows);
  }

  /** The trades of one name in one window: what all strategies of that name recorded there, in order. For a name used
      once that is a fresh single-strategy run, with the starting capital, on the window's test bars preceded by at
      most 60 bars of warm-up. */
  lemma NamedExact(f: Frame, strategies: seq<Strategy>, j: nat, w: nat)
    requires f.cfg.lotSize >= 1 && j < |strategies| && Fits(f, w)
    ensures var name := strategies[j].name;
            var start := f.trainBars + w * f.testBars;
            && NamedTrades(f, strategies, name, w) == Gathered(f, Filter(strategies, (s: Strategy) => s.name == name), w)
            && ((forall m :: 0 <= m < |strategies| && m != j ==> strategies[m].name != name) ==>
                  NamedTrades(f, strategies, name, w) ==
                  Run(f.cfg, Solo(strategies[j].generate), f.capital,
                      f.bars[if start > 60 then start - 60 else 0..start + f.testBars]).trades)
  {
    hide Run;
    hide NamedTrades;
    hide Gathered;
    var name := strategies[j].name;
    NamedIsGathered(f, strategies, name, w);
    if forall m :: 0 <= m < |strategies| && m != j ==> strategies[m].name != name {
      OnlyOneNamed(strategies, j);
      GatheredOne(f, strategies[j], w);
    }
  }

  /** The aggregate of a name falls into one block per whole window, in order. */
  lemma WindowBlocks(f: Frame, strategies: seq<Strategy>, j: nat, w: nat, windows: nat)
    requires f.cfg.lotSize >= 1 && j < |strategies| && w < windows && Fits(f, windows - 1)
    ensures Fits(f, w) && (w > 0 ==> Fits(f, w - 1))
    ensures var name := strategies[j].name;
            var start := f.trainBars + w * f.testBars;
            var all, from, to := WalkTrades(f, strategies, name, windows), |WalkTrades(f, strategies, name, w)|,
                                 |WalkTrades(f, strategies, name, w + 1)|;
            && from <= to <= |all| && (w == 0 ==> from == 0) && (w == windows - 1 ==> to == |all|)
            && all[from..to] == Gathered(f, Filter(strategies, (s: Strategy) => s.name == name), w)
            && ((forall m :: 0 <= m < |strategies| && m != j ==> strategies[m].name != name) ==>
                  all[from..to] == Run(f.cfg, Solo(strategies[j].generate), f.capital,
                                       f.bars[if start > 60 then start - 60 else 0..start + f.testBars]).trades)
  {
    BlockIsNamed(f, strategies, strategies[j].name, w, windows);
    NamedExact(f, strategies, j, w);
    hide Run;
    hide NamedTrades;
    hide Gathered;
    hide WalkTrades;
    hide Filter;
  }

  lemma GatheredOne(f: Frame, s: Strategy, w: nat)
    requires f.cfg.lotSize >= 1 && Fits(f, w)
    ensures Gathered(f, [s], w) == WindowTrades(f, s, w)
  {
    hide WindowTrades;
    assert Gathered(f, [s][..0], w) == [];
  }

  // ---- The loops -----------------------------------------------------------

  /** `run_backtest` over a list of strategies: one independent run each. */
  method RunAll(cfg: Config, strategies: seq<Strategy>, capital: real, bars: seq<Bar>)
    returns (results: seq<seq<TradeRecord>>)
    requires cfg.lotSize >= 1
    ensures |results| == |strategies|
    ensures forall j :: 0 <= j < |strategies| ==>
              results[j] == Run(cfg, Solo(strategies[j].generate), capital, bars).trades
  {
    results := [];
    for j := 0 to |strategies|
      invariant |results| == j
      invariant forall m :: 0 <= m < j ==> results[m] == Run(cfg, Solo(strategies[m].generate), capital, bars).trades
    {
      var trades, _ := RunBacktest(cfg, strategies[j].generate, capital, bars);
      results := results + [trades];
    }
  }

  /** The slice handed to the run: the test bars after at most 60 warm-up bars. */
  method RunWindow(f: Frame, strategies: seq<Strategy>, ghost w: nat, windowStart: nat)
    returns (results: seq<seq<TradeRecord>>)
    requires f.cfg.lotSize >= 1 && Fits(f, w) && windowStart == WindowStart(f, w)
    ensures |results| == |strategies|
    ensures forall j :: 0 <= j < |strategies| ==> results[j] == WindowTrades(f, strategies[j], w)
  {
    hide Run;
    var warmupStart := if windowStart > WARMUP then windowStart - WARMUP else 0;
    results := RunAll(f.cfg, strategies, f.capital, f.bars[warmupStart..windowStart + f.testBars]);
  }

  /** `extend` the record list of every strategy's name with one window's results. */
  method Collect(f: Frame, strategies: seq<Strategy>, ghost w: nat, results: seq<seq<TradeRecord>>,
                 before: map<string, seq<TradeRecord>>)
    returns (after: map<string, seq<TradeRecord>>)
    requires f.cfg.lotSize >= 1 && Fits(f, w) && |results| == |strategies|
    requires forall j :: 0 <= j < |strategies| ==> results[j] == WindowTrades(f, strategies[j], w)
    requires forall j :: 0 <= j < |strategies| ==> strategies[j].name in before
    ensures after.Keys == before.Keys
    ensures forall name :: name in before ==> after[name] == before[name] + NamedTrades(f, strategies, name, w)
  {
    hide WindowTrades;
    after := before;
    for j := 0 to |strategies|
      invariant after.Keys == before.Keys
      invariant forall name :: name in before ==> after[name] == before[name] + NamedTrades(f, strategies[..j], name, w)
    {
      assert strategies[..j + 1][..j] == strategies[..j];
      var name := strategies[j].name;
      after := after[name := after[name] + results[j]];
    }
    assert strategies[..|strategies|] == strategies;
  }

  method WalkForward(f: Frame, strategies: seq<Strategy>) returns (aggregated: seq<seq<TradeRecord>>)
    requires f.cfg.lotSize >= 1 && f.testBars >= 1
    ensures WindowCount(f) > 0 ==> Fits(f, WindowCount(f) - 1)
    ensures |aggregated| == |strategies|
    ensures forall j :: 0 <= j < |strategies| ==>
              aggregated[j] == WalkTrades(f, strategies, strategies[j].name, WindowCount(f))
  {
    hide Run;
    hide NamedTrades;
    hide WindowCount;
    hide SliceStart;
    var names := set j | 0 <= j < |strategies| :: strategies[j].name;
    var allTrades: map<string, seq<TradeRecord>> := map name | name in names :: [];
    var windowStart := f.trainBars;
    ghost var w := 0;
    while windowStart + f.testBars <= |f.bars|
      invariant windowStart == WindowStart(f, w)
      invariant w > 0 ==> Fits(f, w - 1)
      invariant forall m :: 0 <= m < |strategies| ==> strategies[m].name in allTrades
      invariant forall name :: name in allTrades ==> allTrades[name] == WalkTrades(f, strategies, name, w)
      decreases |f.bars| - windowStart
    {
      var results := RunWindow(f, strategies, w, windowStart);
      allTrades := Collect(f, strategies, w, results, allTrades);
      windowStart := windowStart + f.testBars;
      w := w + 1;
    }
    LastWindow(f, w);
    aggregated := Aggregate(strategies, allTrades);
  }

  method Aggregate(strategies: seq<Strategy>, allTrades: map<string, seq<TradeRecord>>)
    returns (aggregated: seq<seq<TradeRecord>>)
    requires forall j :: 0 <= j < |strategies| ==> strategies[j].name in allTrades
    ensures |aggregated| == |strategies|
    ensures forall j :: 0 <= j < |strategies| ==> aggregated[j] == allTrades[strategies[j].name]
  {
    aggregated := [];
    for j := 0 to |strategies|
      invariant |aggregated| == j
      invariant forall m :: 0 <= m < j ==> aggregated[m] == allTrades[strategies[m].name]
    {
      aggregated := aggregated + [allTrades[strategies[j].name]];
    }
  }

  lemma LastWindow(f: Frame, w: nat)
    requires f.testBars >= 1 && !Fits(f, w) && (w > 0 ==> Fits(f, w - 1))
    ensures w == WindowCount(f)
  {
    CountFits(f, w);
    if w > 0 {
      CountFits(f, w - 1);
    }
  }
}
