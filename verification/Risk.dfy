/** The daily risk gates and their counters. */
module Risk {
  import opened Prelude
  import opened Conviction
  import opened Sizing

  datatype Settings = Settings(
    killSwitch: bool,
    maxTradesPerDay: int,
    maxOpenPositions: int,
    capital: real,
    maxDailyLossPct: real,
    maxRiskPct: real,
    blockExpiryLastHours: int,
    kellySizing: bool,
    rrGate: bool,
    minRr: real,
    minAgreement: int,
    minConfidence: real,
    memoryTicks: int,
    cooldownTicks: int)

  /** The two facts `evaluate` reads off the wall clock. */
  datatype Clock = Clock(day: int, minutesToClose: int)

  datatype Stats = Stats(tradesToday: int, realizedToday: real, openPositions: int, lastReset: int)

  datatype Reason =
    | KillSwitchOn | MaxTradesPerDay | MaxOpenPositions | DailyLossLimit | ExpiryBlock
    | QtyBelowLot | RiskExceedsCap | RrBelowMinimum | Ok

  datatype Decision = Decision(approved: bool, qty: int, reason: Reason)

  function NewDay(day: int): Stats {
    Stats(0, 0.0, 0, day)
  }

  function ResetIfNewDay(stats: Stats, day: int): Stats {
    if day != stats.lastReset then NewDay(day) else stats
  }

  function Opened(stats: Stats): Stats {
    stats.(tradesToday := stats.tradesToday + 1, openPositions := stats.openPositions + 1)
  }

  function Closed(stats: Stats, pnl: real): Stats {
    stats.(openPositions := if stats.openPositions - 1 > 0 then stats.openPositions - 1 else 0,
           realizedToday := stats.realizedToday + pnl)
  }

  function EffectiveRiskPct(s: Settings, kelly: real): real {
    s.maxRiskPct * kelly
  }

  function Sized(s: Settings, kelly: real, sig: Signal, lotSize: int): int
    requires lotSize >= 1
  {
    PositionSize(s.capital, EffectiveRiskPct(s, kelly), sig.entry, sig.stop, lotSize)
  }

  function RiskAmount(sig: Signal, qty: int): real {
    Abs(sig.entry - sig.stop) * qty as real
  }

  predicate ExceedsCap(s: Settings, sig: Signal, qty: int) {
    RiskAmount(sig, qty) > Budget(s.capital, s.maxRiskPct) * 1.0001
  }

  predicate PoorReward(s: Settings, sig: Signal) {
    && s.rrGate && sig.target.Some?
    && Abs(sig.entry - sig.stop) > 0.0
    && Abs(sig.target.value - sig.entry) / Abs(sig.entry - sig.stop) < s.minRr
  }

  /** The gates in the order the engine tries them, on statistics already rolled to today. */
  function Decide(stats: Stats, s: Settings, kelly: real, sig: Signal, lotSize: int, clock: Clock, expiry: bool)
    : Decision
    requires lotSize >= 1
  {
    var qty := Sized(s, kelly, sig, lotSize);
    if s.killSwitch then Decision(false, 0, KillSwitchOn)
    else if stats.tradesToday >= s.maxTradesPerDay then Decision(false, 0, MaxTradesPerDay)
    else if stats.openPositions >= s.maxOpenPositions then Decision(false, 0, MaxOpenPositions)
    else if stats.realizedToday <= -Budget(s.capital, s.maxDailyLossPct) then Decision(false, 0, DailyLossLimit)
    else if expiry && clock.minutesToClose <= s.blockExpiryLastHours * 60 then Decision(false, 0, ExpiryBlock)
    else if qty < 1 then Decision(false, 0, QtyBelowLot)
    else if ExceedsCap(s, sig, qty) then Decision(false, 0, RiskExceedsCap)
    else if PoorReward(s, sig) then Decision(false, 0, RrBelowMinimum)
    else Decision(true, qty, Ok)
  }

  /** The per-trade cap gate can never fire: sizing has already spent at most the Kelly share of the same budget. */
  lemma CapGateDead(stats: Stats, s: Settings, kelly: real, sig: Signal, lotSize: int, clock: Clock, expiry: bool)
    requires lotSize >= 1 && 0.0 < kelly <= 1.0
    ensures Decide(stats, s, kelly, sig, lotSize, clock, expiry).reason != RiskExceedsCap
    ensures var d := Decide(stats, s, kelly, sig, lotSize, clock, expiry);
            d.approved ==>
              && d.qty >= 1 && d.qty % lotSize == 0
              && RiskAmount(sig, d.qty) <= Budget(s.capital, s.maxRiskPct)
  {
    var qty := Sized(s, kelly, sig, lotSize);
    if qty >= 1 {
      SizedWithinBudget(s, kelly, sig, lotSize);
    }
  }

  /** Approval in the trader's terms, for every Kelly multiplier the engine can hold: the cap gate drops out. */
  lemma ApprovedIff(stats: Stats, s: Settings, kelly: real, sig: Signal, lotSize: int, clock: Clock, expiry: bool)
    requires lotSize >= 1 && 0.0 < kelly <= 1.0
    ensures var risk := Abs(sig.entry - sig.stop);
            var d := Decide(stats, s, kelly, sig, lotSize, clock, expiry);
            d.approved <==>
              && !s.killSwitch
              && stats.tradesToday < s.maxTradesPerDay && stats.openPositions < s.maxOpenPositions
              && stats.realizedToday > -Budget(s.capital, s.maxDailyLossPct)
              && (expiry ==> clock.minutesToClose > s.blockExpiryLastHours * 60)
              && risk > 0.0 && lotSize as real * risk <= Budget(s.capital, EffectiveRiskPct(s, kelly))
              && (s.rrGate && sig.target.Some? ==> Abs(sig.target.value - sig.entry) >= s.minRr * risk)
  {
    hide ExceedsCap;
    hide PoorReward;
    hide Sized;
    hide Budget;
    SizedAtLeastOneLot(s, kelly, sig, lotSize);
    if Sized(s, kelly, sig, lotSize) >= 1 {
      SizedWithinBudget(s, kelly, sig, lotSize);
    }
    if s.rrGate && sig.target.Some? && sig.entry != sig.stop {
      RewardGate(s, sig);
    }
    NoGate(s, sig);
  }

  /** The approved quantity: whole lots, and as many as the Kelly share of the risk budget pays for, not one fewer. */
  lemma ApprovedQty(stats: Stats, s: Settings, kelly: real, sig: Signal, lotSize: int, clock: Clock, expiry: bool)
    requires lotSize >= 1
    requires Decide(stats, s, kelly, sig, lotSize, clock, expiry).approved
    ensures var qty := Decide(stats, s, kelly, sig, lotSize, clock, expiry).qty;
            qty >= 1 && LargestFit(s.capital * (s.maxRiskPct * kelly / 100.0), Abs(sig.entry - sig.stop), lotSize, qty)
  {
    hide LargestFit;
    hide ExceedsCap;
    hide PoorReward;
    hide Budget;
    if sig.entry != sig.stop {
      SizeIsLargestFit(s.capital, EffectiveRiskPct(s, kelly), s.capital * (s.maxRiskPct * kelly / 100.0),
                       sig.entry, sig.stop, lotSize);
    }
  }

  /** A refusal names the first gate that fails, in the order of the code, and buys nothing. */
  lemma RefusalNamesFirstGate(stats: Stats, s: Settings, kelly: real, sig: Signal, lotSize: int, clock: Clock, expiry: bool)
    requires lotSize >= 1 && 0.0 < kelly <= 1.0
    ensures var d := Decide(stats, s, kelly, sig, lotSize, clock, expiry);
            var switch, trades, slots := s.killSwitch, stats.tradesToday >= s.maxTradesPerDay,
                                         stats.openPositions >= s.maxOpenPositions;
            var loss := stats.realizedToday <= -(s.capital * (s.maxDailyLossPct / 100.0));
            var late := expiry && clock.minutesToClose <= s.blockExpiryLastHours * 60;
            var risk := Abs(sig.entry - sig.stop);
            var lot := risk == 0.0 || lotSize as real * risk > s.capital * (s.maxRiskPct * kelly / 100.0);
            && (d.reason == Ok <==> d.approved)
            && (!d.approved ==> d.qty == 0)
            && (d.reason == KillSwitchOn <==> switch)
            && (d.reason == MaxTradesPerDay <==> !switch && trades)
            && (d.reason == MaxOpenPositions <==> !switch && !trades && slots)
            && (d.reason == DailyLossLimit <==> !switch && !trades && !slots && loss)
            && (d.reason == ExpiryBlock <==> !switch && !trades && !slots && !loss && late)
            && (d.reason == QtyBelowLot <==> !switch && !trades && !slots && !loss && !late && lot)
            && (d.reason == RrBelowMinimum <==>
                  && !switch && !trades && !slots && !loss && !late && !lot
                  && s.rrGate && sig.target.Some? && Abs(sig.target.value - sig.entry) < s.minRr * risk)
            && d.reason != RiskExceedsCap
  {
    hide ExceedsCap;
    hide PoorReward;
    hide Sized;
    SizedAtLeastOneLot(s, kelly, sig, lotSize);
    if Sized(s, kelly, sig, lotSize) >= 1 {
      SizedWithinBudget(s, kelly, sig, lotSize);
    }
    if s.rrGate && sig.target.Some? && sig.entry != sig.stop {
      RewardGate(s, sig);
    }
    NoGate(s, sig);
  }

  lemma NoGate(s: Settings, sig: Signal)
    ensures !s.rrGate || sig.target.None? ==> !PoorReward(s, sig)
  {
  }

  /** A unit is bought exactly when one whole lot is affordable. */
  lemma SizedAtLeastOneLot(s: Settings, kelly: real, sig: Signal, lotSize: int)
    requires lotSize >= 1
    ensures Sized(s, kelly, sig, lotSize) >= 1 <==>
            Abs(sig.entry - sig.stop) > 0.0
            && lotSize as real * Abs(sig.entry - sig.stop) <= Budget(s.capital, EffectiveRiskPct(s, kelly))
  {
    hide Budget;
    if sig.entry != sig.stop {
      OneLot(s.capital, EffectiveRiskPct(s, kelly), sig.entry, sig.stop, lotSize);
    }
  }

  lemma OneLot(capital: real, pct: real, entry: real, stop: real, lotSize: int)
    requires lotSize >= 1 && entry != stop
    ensures PositionSize(capital, pct, entry, stop, lotSize) >= 1 <==>
            lotSize as real * Abs(entry - stop) <= Budget(capital, pct)
  {
    LargestAffordable(capital, pct, entry, stop, lotSize, 1);
    assert 1 * lotSize == lotSize;
    hide PositionSize;
    var qty := PositionSize(capital, pct, entry, stop, lotSize);
    if qty >= 1 {
      MultipleAtLeast(qty, lotSize);
    }
  }

  lemma RewardGate(s: Settings, sig: Signal)
    requires s.rrGate && sig.target.Some? && sig.entry != sig.stop
    ensures PoorReward(s, sig) <==> Abs(sig.target.value - sig.entry) < s.minRr * Abs(sig.entry - sig.stop)
  {
  }

  lemma SizedWithinBudget(s: Settings, kelly: real, sig: Signal, lotSize: int)
    requires lotSize >= 1 && 0.0 < kelly <= 1.0
    requires Sized(s, kelly, sig, lotSize) >= 1
    ensures var qty := Sized(s, kelly, sig, lotSize);
            && qty % lotSize == 0
            && 0.0 < RiskAmount(sig, qty) <= Budget(s.capital, s.maxRiskPct)
            && !ExceedsCap(s, sig, qty)
  {
    var qty := Sized(s, kelly, sig, lotSize);
    SpentWithin(s.capital, EffectiveRiskPct(s, kelly), sig, lotSize);
    KellyShare(s, kelly);
    ShareBelowWhole(kelly, Budget(s.capital, s.maxRiskPct));
  }

  lemma SpentWithin(capital: real, pct: real, sig: Signal, lotSize: int)
    requires lotSize >= 1
    requires PositionSize(capital, pct, sig.entry, sig.stop, lotSize) >= 1
    ensures var qty := PositionSize(capital, pct, sig.entry, sig.stop, lotSize);
            qty % lotSize == 0 && 0.0 < RiskAmount(sig, qty) <= Budget(capital, pct)
  {
    var qty := PositionSize(capital, pct, sig.entry, sig.stop, lotSize);
    LargestAffordable(capital, pct, sig.entry, sig.stop, lotSize, 0);
    PositiveProduct(Abs(sig.entry - sig.stop), qty);
  }

  lemma PositiveProduct(unit: real, qty: int)
    requires unit > 0.0 && qty >= 1
    ensures unit * qty as real > 0.0
  {
  }

  lemma KellyShare(s: Settings, kelly: real)
    ensures Budget(s.capital, EffectiveRiskPct(s, kelly)) == kelly * Budget(s.capital, s.maxRiskPct)
  {
  }

  lemma ShareBelowWhole(kelly: real, full: real)
    requires 0.0 < kelly <= 1.0 && kelly * full > 0.0
    ensures 0.0 < full && kelly * full <= full
  {
  }

  // ---- Runs of the engine --------------------------------------------------

  datatype RiskState = RiskState(stats: Stats, kelly: real)

  /** An entry attempt is `evaluate` followed, when approved, by `record_trade_open`. */
  datatype Event =
    | Attempt(s: Settings, sig: Signal, lotSize: int, clock: Clock, expiry: bool)
    | Close(pnl: real)
    | UpdateKelly(enabled: bool, history: seq<real>)

  ghost predicate WellFormed(events: seq<Event>) {
    forall e :: e in events && e.Attempt? ==> e.lotSize >= 1
  }

  function Apply(state: RiskState, e: Event): RiskState
    requires e.Attempt? ==> e.lotSize >= 1
  {
    match e
    case Attempt(s, sig, lotSize, clock, expiry) =>
      var today := ResetIfNewDay(state.stats, clock.day);
      if Decide(today, s, state.kelly, sig, lotSize, clock, expiry).approved
      then state.(stats := Opened(today)) else state.(stats := today)
    case Close(pnl) => state.(stats := Closed(state.stats, pnl))
    case UpdateKelly(enabled, history) =>
      if enabled then state.(kelly := KellyFraction(history)) else state
  }

  ghost function Run(init: RiskState, events: seq<Event>): RiskState
    requires WellFormed(events)
  {
    if events == [] then init
    else Apply(Run(init, events[..|events| - 1]), events[|events| - 1])
  }

  /** Starting from 1, the multiplier stays in [1/4, 1], so no run ever reports `risk_exceeds_cap`. */
  lemma {:induction false} KellyBounded(init: RiskState, events: seq<Event>)
    requires WellFormed(events) && 0.25 <= init.kelly <= 1.0
    ensures 0.25 <= Run(init, events).kelly <= 1.0
  {
    if events != [] {
      KellyBounded(init, events[..|events| - 1]);
      if events[|events| - 1].UpdateKelly? {
        KellyRange(events[|events| - 1].history);
      }
    }
  }

  lemma CapGateNeverFires(init: RiskState, events: seq<Event>, k: nat)
    requires WellFormed(events) && 0.25 <= init.kelly <= 1.0
    requires k < |events| && events[k].Attempt?
    ensures var before := Run(init, events[..k]);
            var e := events[k];
            var d := Decide(ResetIfNewDay(before.stats, e.clock.day), e.s, before.kelly, e.sig, e.lotSize, e.clock, e.expiry);
            d.reason != RiskExceedsCap && (d.approved ==> RiskAmount(e.sig, d.qty) <= Budget(e.s.capital, e.s.maxRiskPct))
  {
    KellyBounded(init, events[..k]);
    var e := events[k];
    var before := Run(init, events[..k]);
    CapGateDead(ResetIfNewDay(before.stats, e.clock.day), e.s, before.kelly, e.sig, e.lotSize, e.clock, e.expiry);
  }

  function DailyCap(s: Settings): real {
    Max(0.0, Budget(s.capital, s.maxDailyLossPct))
  }

  function Slots(s: Settings): nat {
    if s.maxOpenPositions > 0 then s.maxOpenPositions else 0
  }

  /** All attempts fall on one day under one set of limits; no single close loses more than `worst`. */
  ghost predicate OneDay(events: seq<Event>, day: int, s: Settings, worst: real) {
    forall e :: e in events ==>
      match e
      case Attempt(s', _, lotSize, clock, _) =>
        && lotSize >= 1 && clock.day == day
        && s'.capital == s.capital && s'.maxDailyLossPct == s.maxDailyLossPct
        && s'.maxOpenPositions == s.maxOpenPositions && s'.maxTradesPerDay == s.maxTradesPerDay
      case Close(pnl) => pnl >= -worst
      case UpdateKelly(_, _) => true
  }

  /** Closes that arrive while the counter is already zero: they belong to no entry counted today. */
  ghost function Unmatched(init: RiskState, events: seq<Event>): nat
    requires WellFormed(events)
  {
    if events == [] then 0
    else
      var before := events[..|events| - 1];
      Unmatched(init, before) +
      (if events[|events| - 1].Close? && Run(init, before).stats.openPositions == 0 then 1 else 0)
  }

  /** What the day may still lose when `k` position slots and unmatched closes are outstanding. */
  function Allowance(k: int, worst: real): real {
    k as real * worst
  }

  lemma AllowanceStep(k: int, worst: real)
    ensures Allowance(k + 1, worst) == Allowance(k, worst) + worst
    ensures k >= 0 && worst >= 0.0 ==> Allowance(k, worst) >= 0.0
  {
  }

  lemma AllowanceMonotone(k: int, m: int, worst: real)
    requires k <= m && worst >= 0.0
    ensures Allowance(k, worst) <= Allowance(m, worst)
  {
  }

  /** Every entry spends one unit of allowance, every close earns it back: the amortised invariant. */
  lemma {:induction false} DailyInvariant(events: seq<Event>, day: int, s: Settings, kelly: real, worst: real)
    requires worst >= 0.0
    requires OneDay(events, day, s, worst)
    ensures WellFormed(events)
    ensures var init := RiskState(NewDay(day), kelly);
            var stats := Run(init, events).stats;
            && stats.lastReset == day
            && 0 <= stats.openPositions <= Slots(s)
            && 0 <= stats.tradesToday && (stats.tradesToday > 0 ==> stats.tradesToday <= s.maxTradesPerDay)
            && stats.realizedToday + DailyCap(s)
               + Allowance(Slots(s) + Unmatched(init, events) - stats.openPositions, worst) >= 0.0
  {
    var init := RiskState(NewDay(day), kelly);
    if events == [] {
      AllowanceStep(Slots(s), worst);
    } else {
      var before, e := events[..|events| - 1], events[|events| - 1];
      assert forall x :: x in before ==> x in events;
      DailyInvariant(before, day, s, kelly, worst);
      assert e in events;
      var pre, post := Run(init, before).stats, Run(init, events).stats;
      var k := Slots(s) + Unmatched(init, before) - pre.openPositions;
      AllowanceStep(k, worst);
      if e.Attempt? && post != pre {
        EntryLeavesRoom(pre, e, Run(init, before).kelly, s);
        AllowanceStep(k - 1, worst);
      }
    }
  }

  /** An entry is approved only above the loss cap and with a slot to spare. */
  lemma EntryLeavesRoom(pre: Stats, e: Event, kelly: real, s: Settings)
    requires e.Attempt? && e.lotSize >= 1 && pre.lastReset == e.clock.day
    requires e.s.capital == s.capital && e.s.maxDailyLossPct == s.maxDailyLossPct
    requires e.s.maxOpenPositions == s.maxOpenPositions && e.s.maxTradesPerDay == s.maxTradesPerDay
    requires Apply(RiskState(pre, kelly), e).stats != pre
    ensures Apply(RiskState(pre, kelly), e).stats == Opened(pre)
    ensures pre.realizedToday > -DailyCap(s)
    ensures pre.openPositions < s.maxOpenPositions && pre.tradesToday < s.maxTradesPerDay
  {
  }

  /** However closes and entries interleave, the day's loss overshoots its cap by at most one `worst`
      per position slot, plus one per close that matches no entry of the day. */
  lemma DailyLossBound(events: seq<Event>, day: int, s: Settings, kelly: real, worst: real)
    requires worst >= 0.0
    requires OneDay(events, day, s, worst)
    ensures WellFormed(events)
    ensures var init := RiskState(NewDay(day), kelly);
            var stats := Run(init, events).stats;
            && stats.realizedToday >= -DailyCap(s) - Allowance(Slots(s) + Unmatched(init, events), worst)
            && stats.openPositions <= Slots(s)
            && (stats.tradesToday > 0 ==> stats.tradesToday <= s.maxTradesPerDay)
  {
    hide *;
    DailyInvariant(events, day, s, kelly, worst);
    var init := RiskState(NewDay(day), kelly);
    var k := Slots(s) + Unmatched(init, events);
    AllowanceMonotone(k - Run(init, events).stats.openPositions, k, worst);
  }

  // ---- The engine object ---------------------------------------------------

  class RiskEngine {
    var s: Settings
    var stats: Stats
    var kelly: real

    constructor (settings: Settings, today: int)
      ensures s == settings && stats == NewDay(today) && kelly == 1.0
    {
      s, stats, kelly := settings, NewDay(today), 1.0;
    }

    ghost function State(): RiskState
      reads this
    {
      RiskState(stats, kelly)
    }

    method MaybeResetDay(day: int)
      modifies `stats
      ensures stats == ResetIfNewDay(old(stats), day)
      ensures stats == if day == old(stats.lastReset) then old(stats) else Stats(0, 0.0, 0, day)
    {
      if day != stats.lastReset {
        stats := NewDay(day);
      }
    }

    method UpdateKellyFraction(history: seq<real>)
      modifies `kelly
      ensures State() == Apply(old(State()), UpdateKelly(s.kellySizing, history))
      ensures kelly == if s.kellySizing then KellyFraction(history) else old(kelly)
    {
      if !s.kellySizing {
        return;
      }
      kelly := KellyFraction(history);
    }

    method RecordTradeOpen()
      modifies `stats
      ensures stats == Opened(old(stats))
      ensures stats.tradesToday == old(stats.tradesToday) + 1 && stats.openPositions == old(stats.openPositions) + 1
      ensures stats.realizedToday == old(stats.realizedToday) && stats.lastReset == old(stats.lastReset)
    {
      stats := stats.(tradesToday := stats.tradesToday + 1);
      stats := stats.(openPositions := stats.openPositions + 1);
    }

    method RecordTradeClose(pnl: real)
      modifies `stats
      ensures State() == Apply(old(State()), Close(pnl))
      ensures stats.openPositions == (if old(stats.openPositions) >= 1 then old(stats.openPositions) - 1 else 0)
      ensures stats.realizedToday == old(stats.realizedToday) + pnl
      ensures stats.tradesToday == old(stats.tradesToday) && stats.lastReset == old(stats.lastReset)
    {
      var left := stats.openPositions - 1;
      stats := stats.(openPositions := if left > 0 then left else 0);
      stats := stats.(realizedToday := stats.realizedToday + pnl);
    }

    /** Gate by gate, returning at the first refusal. */
    method Evaluate(sig: Signal, lotSize: int, clock: Clock, expiry: bool) returns (d: Decision)
      requires lotSize >= 1
      modifies `stats
      ensures stats == ResetIfNewDay(old(stats), clock.day)
      ensures d == Decide(stats, s, kelly, sig, lotSize, clock, expiry)
      ensures (if d.approved then Opened(stats) else stats) ==
              Apply(old(State()), Attempt(s, sig, lotSize, clock, expiry)).stats
    {
      MaybeResetDay(clock.day);
      if s.killSwitch {
        return Decision(false, 0, KillSwitchOn);
      }
      if stats.tradesToday >= s.maxTradesPerDay {
        return Decision(false, 0, MaxTradesPerDay);
      }
      if stats.openPositions >= s.maxOpenPositions {
        return Decision(false, 0, MaxOpenPositions);
      }
      var dailyLossCap := -Budget(s.capital, s.maxDailyLossPct);
      if stats.realizedToday <= dailyLossCap {
        return Decision(false, 0, DailyLossLimit);
      }
      if expiry && clock.minutesToClose <= s.blockExpiryLastHours * 60 {
        return Decision(false, 0, ExpiryBlock);
      }
      var qty := Sized(s, kelly, sig, lotSize);
      if qty < 1 {
        return Decision(false, 0, QtyBelowLot);
      }
      if ExceedsCap(s, sig, qty) {
        return Decision(false, 0, RiskExceedsCap);
      }
      if PoorReward(s, sig) {
        return Decision(false, 0, RrBelowMinimum);
      }
      d := Decision(true, qty, Ok);
    }
  }
}
