/** Where the trades of a run lie on the time axis. */
module BacktestTiling {
  import opened Prelude
  import Rounding
  import opened Backtest

  function Pnls(trades: seq<TradeRecord>): seq<real> {
    if trades == [] then [] else Pnls(trades[..|trades| - 1]) + [trades[|trades| - 1].pnl]
  }

  function BarsHeld(trades: seq<TradeRecord>): int {
    if trades == [] then 0 else BarsHeld(trades[..|trades| - 1]) + trades[|trades| - 1].barsHeld
  }

  /** Entries are at least this far apart. */
  function Gap(cfg: Config): int {
    if cfg.cooldown > 1 then cfg.cooldown else 1
  }

  function EarliestEntry(k: nat, gap: int): int {
    WARMUP + k * gap
  }

  lemma NextEntry(k: nat, gap: int)
    ensures EarliestEntry(k + 1, gap) == EarliestEntry(k, gap) + gap
  {
  }

  ghost predicate SpanAt(st: State, k: nat, gap: int)
    requires k < |st.spans| == |st.trades|
  {
    var s := st.spans[k];
    && EarliestEntry(k, gap) <= s.initial.bar <= s.closedAt
    && st.trades[k].barsHeld == s.closedAt - s.initial.bar
  }

  /** The k-th trade is over before the next one starts; they may share the bar of exit and entry. */
  ghost predicate Disjoint(spans: seq<Span>) {
    forall j, k :: 0 <= j < k < |spans| ==> spans[j].closedAt <= spans[k].initial.bar
  }

  /** Entries respect the cooldown. */
  ghost predicate Spaced(spans: seq<Span>, gap: int) {
    forall k :: 0 <= k && k + 1 < |spans| ==> spans[k].initial.bar + gap <= spans[k + 1].initial.bar
  }

  ghost predicate Placed(cfg: Config, capital: real, n: nat, st: State) {
    && |st.spans| == |st.trades|
    && st.capital == capital + Sum(Pnls(st.trades))
    && (forall k :: 0 <= k < |st.spans| ==> SpanAt(st, k, Gap(cfg)))
    && (forall k :: 0 <= k < |st.spans| ==> st.spans[k].closedAt < n)
    && Disjoint(st.spans) && Spaced(st.spans, Gap(cfg))
  }

  /** The open trade started after every closed one and keeps the bar it started on. */
  ghost predicate Running(cfg: Config, n: nat, st: State) {
    && Tracked(st)
    && (st.pos.Some? ==>
          && st.pos.value.bar == st.initial.value.bar < n
          && EarliestEntry(|st.spans|, Gap(cfg)) <= st.pos.value.bar
          && (st.spans != [] ==> st.spans[|st.spans| - 1].initial.bar + Gap(cfg) <= st.pos.value.bar)
          && forall k :: 0 <= k < |st.spans| ==> st.spans[k].closedAt <= st.pos.value.bar)
    && (st.lastEntry.Some? <==> st.pos.Some? || st.spans != [])
    && (st.pos.Some? ==> st.lastEntry == Some(st.pos.value.bar))
    && (st.pos.None? && st.spans != [] ==>
          st.lastEntry == Some(st.spans[|st.spans| - 1].initial.bar)
          && st.spans[|st.spans| - 1].initial.bar < st.spans[|st.spans| - 1].closedAt)
  }

  lemma PnlsAppend(trades: seq<TradeRecord>, r: TradeRecord)
    ensures Sum(Pnls(trades + [r])) == Sum(Pnls(trades)) + r.pnl
    ensures BarsHeld(trades + [r]) == BarsHeld(trades) + r.barsHeld
  {
  }

  lemma SettlePlaced(cfg: Config, capital: real, n: nat, st: State, record: TradeRecord, i: nat)
    requires Placed(cfg, capital, n, st) && Running(cfg, n, st) && st.pos.Some?
    requires n <= i + 1 && st.pos.value.bar <= i && record.barsHeld == i - st.pos.value.bar
    ensures Placed(cfg, capital, i + 1, Settle(st, record, i))
  {
    var after := Settle(st, record, i);
    PnlsAppend(st.trades, record);
    forall k | 0 <= k < |after.spans|
      ensures SpanAt(after, k, Gap(cfg)) && after.spans[k].closedAt < i + 1
    {
      if k < |st.spans| {
        assert SpanAt(st, k, Gap(cfg));
      }
    }
  }

  lemma ExitPlaced(cfg: Config, capital: real, bar: Bar, i: nat, st: State)
    requires Placed(cfg, capital, i, st) && Running(cfg, i, st)
    ensures var r := CheckExit(cfg, bar, i, st);
            Placed(cfg, capital, i + 1, r) && Running(cfg, i + 1, r)
  {
    hide Placed;
    if st.pos.Some? {
      match Simulate(cfg, bar, i, st.pos.value)
      case Exited(record) => SettlePlaced(cfg, capital, i, st, record, i);
      case Held(pos) => Widen(cfg, capital, i, st, st.(pos := Some(pos)));
    } else {
      Widen(cfg, capital, i, st, st);
    }
  }

  lemma Widen(cfg: Config, capital: real, n: nat, st: State, after: State)
    requires Placed(cfg, capital, n, st)
    requires after.spans == st.spans && after.trades == st.trades && after.capital == st.capital
    ensures Placed(cfg, capital, n + 1, after)
  {
    forall k | 0 <= k < |after.spans| ensures SpanAt(after, k, Gap(cfg)) {
      assert SpanAt(st, k, Gap(cfg));
    }
  }

  lemma EnterPlaced(cfg: Config, policy: Policy, capital: real, bars: seq<Bar>, i: nat, st: State)
    requires i < |bars| && cfg.lotSize >= 1 && i >= WARMUP
    requires Placed(cfg, capital, i + 1, st) && Running(cfg, i + 1, st)
    ensures var r := TryEnter(cfg, policy, bars, i, st);
            Placed(cfg, capital, i + 1, r) && Running(cfg, i + 1, r)
  {
    hide Evaluate;
    var r := TryEnter(cfg, policy, bars, i, st);
    forall k | 0 <= k < |r.spans| ensures SpanAt(r, k, Gap(cfg)) {
      assert SpanAt(st, k, Gap(cfg));
    }
    if st.pos.None? && r.pos.Some? && st.spans != [] {
      var k := |st.spans| - 1;
      assert SpanAt(st, k, Gap(cfg));
      assert EarliestEntry(|st.spans|, Gap(cfg)) <= i by {
        hide EarliestEntry;
        NextEntry(k, Gap(cfg));
      }
    }
  }

  lemma {:induction false} RunPlaced(cfg: Config, policy: Policy, capital: real, bars: seq<Bar>, n: nat)
    requires cfg.lotSize >= 1 && n <= |bars|
    ensures var st := RunTo(cfg, policy, capital, bars, n);
            Placed(cfg, capital, n, st) && Running(cfg, n, st)
  {
    hide TryEnter;
    hide CheckExit;
    hide Placed;
    hide Running;
    if n <= WARMUP {
      StartPlaced(cfg, capital, n);
    } else {
      var before := RunTo(cfg, policy, capital, bars, n - 1);
      RunPlaced(cfg, policy, capital, bars, n - 1);
      ExitPlaced(cfg, capital, bars[n - 1], n - 1, before);
      EnterPlaced(cfg, policy, capital, bars, n - 1, CheckExit(cfg, bars[n - 1], n - 1, before));
    }
  }

  lemma StartPlaced(cfg: Config, capital: real, n: nat)
    ensures Placed(cfg, capital, n, Start(capital)) && Running(cfg, n, Start(capital))
  {
  }

  lemma {:induction false} HeldWithin(st: State, k: nat, gap: int)
    requires k <= |st.spans| == |st.trades|
    requires forall j :: 0 <= j < |st.spans| ==> SpanAt(st, j, gap)
    requires Disjoint(st.spans) && gap >= 1
    ensures BarsHeld(st.trades[..k]) <= if k == 0 then 0 else st.spans[k - 1].closedAt - WARMUP
  {
    if k > 0 {
      HeldWithin(st, k - 1, gap);
      assert SpanAt(st, k - 1, gap);
      assert st.trades[..k][..k - 1] == st.trades[..k - 1];
      EntryAfterWarmup(k - 1, gap);
    }
  }

  lemma EntryAfterWarmup(k: nat, gap: int)
    requires gap >= 1
    ensures EarliestEntry(k, gap) >= WARMUP
  {
  }

  lemma CountBound(trades: nat, gap: int, n: nat)
    requires gap >= 1 && trades >= 1 && EarliestEntry(trades - 1, gap) <= n - 1
    ensures trades <= (n - WARMUP + gap - 1) / gap
  {
    var q := (n - WARMUP + gap - 1) / gap;
    assert (trades - 1) * gap <= n - WARMUP - 1;
    assert trades > q ==> (trades - 1) * gap >= q * gap;
  }

  /** One run on more than 60 bars: positions overlap at most in an endpoint, the bars held fit into the bars
      evaluated, entries respect the cooldown, and capital is the starting capital plus the recorded profits. */
  lemma RunTiles(cfg: Config, policy: Policy, capital: real, bars: seq<Bar>)
    requires cfg.lotSize >= 1 && |bars| > WARMUP
    ensures var st := Run(cfg, policy, capital, bars);
            && |st.spans| == |st.trades|
            && Disjoint(st.spans) && Spaced(st.spans, Gap(cfg))
            && (forall k :: 0 <= k < |st.spans| ==>
                  WARMUP <= st.spans[k].initial.bar <= st.spans[k].closedAt < |bars|)
            && BarsHeld(st.trades) <= |bars| - WARMUP - 1
            && |st.trades| <= (|bars| - WARMUP + Gap(cfg) - 1) / Gap(cfg)
            && st.capital == capital + Sum(Pnls(st.trades))
  {
    hide RunTo;
    hide CloseEod;
    hide SpanAt;
    RunPlaced(cfg, policy, capital, bars, |bars|);
    EodPlaced(cfg, capital, bars, RunTo(cfg, policy, capital, bars, |bars|));
    PlacedBounds(cfg, capital, |bars|, Run(cfg, policy, capital, bars));
  }

  lemma EodPlaced(cfg: Config, capital: real, bars: seq<Bar>, last: State)
    requires bars != [] && Placed(cfg, capital, |bars|, last) && Running(cfg, |bars|, last)
    ensures Placed(cfg, capital, |bars|, CloseEod(cfg, bars, last))
  {
    hide Placed;
    hide NetPnl;
    hide Rounding.Round2;
    if last.pos.Some? {
      var n, pos := |bars|, last.pos.value;
      SettlePlaced(cfg, capital, n, last, Record(cfg, pos, bars[n - 1].close, EodExit, n - 1 - pos.bar), n - 1);
    }
  }

  lemma PlacedBounds(cfg: Config, capital: real, n: nat, st: State)
    requires n > WARMUP && Placed(cfg, capital, n, st)
    ensures forall k :: 0 <= k < |st.spans| ==> WARMUP <= st.spans[k].initial.bar <= st.spans[k].closedAt < n
    ensures BarsHeld(st.trades) <= n - WARMUP - 1
    ensures |st.trades| <= (n - WARMUP + Gap(cfg) - 1) / Gap(cfg)
  {
    var gap := Gap(cfg);
    forall k | 0 <= k < |st.spans|
      ensures WARMUP <= st.spans[k].initial.bar <= st.spans[k].closedAt < n
    {
      assert SpanAt(st, k, gap);
      EntryAfterWarmup(k, gap);
    }
    assert st.trades[..|st.trades|] == st.trades;
    HeldWithin(st, |st.spans|, gap);
    if st.spans != [] {
      assert SpanAt(st, |st.spans| - 1, gap);
      CountBound(|st.spans|, gap, n);
    } else {
      assert (n - WARMUP + gap - 1) / gap >= 0;
    }
  }
}
