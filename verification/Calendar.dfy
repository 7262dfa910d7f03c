/** Market days, market hours, and the search for the next opening instant. */
module Calendar {

  /** Proleptic Gregorian ordinals: day 1 is a Monday. */
  function Weekday(day: int): int {
    (day + 6) % 7
  }

  const MINUTE := 60_000_000
  const DAY := 24 * 60 * MINUTE

  /** A wall-clock instant in IST: a day and the microseconds since its midnight. */
  datatype Instant = Instant(day: int, time: int)

  predicate Valid(at: Instant) {
    0 <= at.time < DAY
  }

  predicate Before(a: Instant, b: Instant) {
    a.day < b.day || (a.day == b.day && a.time < b.time)
  }

  predicate IsWeekday(day: int) {
    Weekday(day) < 5
  }

  predicate IsMarketDay(day: int, holidays: set<int>) {
    IsWeekday(day) && day !in holidays
  }

  predicate IsMarketOpen(at: Instant, open: int, close: int, holidays: set<int>) {
    IsMarketDay(at.day, holidays) && open <= at.time <= close
  }

  /** The market trades from the open to the close, both included, on days that are no holiday and, counted from
      Thursday the first of January 1970, ordinal 719163, neither Saturday nor Sunday. */
  lemma TradingInstants(at: Instant, open: int, close: int, holidays: set<int>)
    ensures IsMarketOpen(at, open, close, holidays) <==>
            && at.day !in holidays && open <= at.time && at.time <= close
            && (at.day - 719_163) % 7 != 2 && (at.day - 719_163) % 7 != 3
  {
  }

  // ---- How long the market can stay closed ---------------------------------

  function Weekdays(start: int, k: nat): nat {
    if k == 0 then 0 else Weekdays(start, k - 1) + if IsWeekday(start + k - 1) then 1 else 0
  }

  /** Saturdays and Sundays counted by division: both recur every seven days. */
  lemma {:induction false} WeekdaysClosedForm(start: int, k: nat)
    ensures Weekdays(start, k) ==
            k - ((start + k + 7) / 7 - (start + 7) / 7) - ((start + k + 6) / 7 - (start + 6) / 7)
  {
    if k > 0 {
      WeekdaysClosedForm(start, k - 1);
    }
  }

  /** The longest run of closed days that uses up w weekdays. */
  function LongestClosure(w: nat): nat {
    w + 2 * (w / 5 + 1)
  }

  /** Every seven days hold five weekdays. */
  lemma FullWeek(start: int, k: nat)
    ensures Weekdays(start, k + 7) == Weekdays(start, k) + 5
  {
    WeekdaysClosedForm(start, k);
    WeekdaysClosedForm(start, k + 7);
    hide Weekdays;
  }

  lemma PartialWeek(start: int, k: nat)
    requires k < 7
    ensures k - 2 <= Weekdays(start, k) <= k
  {
    WeekdaysClosedForm(start, k);
    hide Weekdays;
  }

  lemma {:induction false} ClosureLength(start: int, k: nat)
    ensures k <= LongestClosure(Weekdays(start, k))
  {
    hide Weekdays;
    if k < 7 {
      PartialWeek(start, k);
    } else {
      FullWeek(start, k - 7);
      ClosureLength(start, k - 7);
    }
  }

  lemma LongestClosureMonotone(v: nat, w: nat)
    requires v <= w
    ensures LongestClosure(v) <= LongestClosure(w)
  {
  }

  /** Closed weekdays are holidays, and different ones at that. */
  lemma {:induction false} ClosedWeekdays(start: int, k: nat, holidays: set<int>) returns (days: set<int>)
    requires forall d :: start <= d < start + k ==> !IsMarketDay(d, holidays)
    ensures days <= holidays && |days| == Weekdays(start, k)
    ensures forall d :: d in days ==> start <= d < start + k
  {
    if k == 0 {
      days := {};
    } else {
      days := ClosedWeekdays(start, k - 1, holidays);
      if IsWeekday(start + k - 1) {
        assert !IsMarketDay(start + k - 1, holidays);
        days := days + {start + k - 1};
      }
    }
  }

  lemma SubsetSize(a: set<int>, b: set<int>)
    requires a <= b
    ensures |a| <= |b|
  {
    assert b == a + (b - a);
    assert |a + (b - a)| == |a| + |b - a|;
  }

  lemma ClosureBounded(start: int, k: nat, holidays: set<int>)
    requires forall d :: start <= d < start + k ==> !IsMarketDay(d, holidays)
    ensures k <= LongestClosure(|holidays|)
  {
    var days := ClosedWeekdays(start, k, holidays);
    SubsetSize(days, holidays);
    ClosureLength(start, k);
    LongestClosureMonotone(|days|, |holidays|);
  }

  lemma {:induction false} EveryWeekday(start: int, k: nat) returns (days: set<int>)
    ensures |days| == Weekdays(start, k)
    ensures forall d :: d in days <==> start <= d < start + k && IsWeekday(d)
  {
    if k == 0 {
      days := {};
    } else {
      days := EveryWeekday(start, k - 1);
      if IsWeekday(start + k - 1) {
        days := days + {start + k - 1};
      }
    }
  }

  lemma {:induction false} WeekdaysFromSaturday(saturday: int, h: nat)
    requires Weekday(saturday) == 5
    ensures Weekdays(saturday, LongestClosure(h)) == h
  {
    hide Weekdays;
    if h < 5 {
      WeekdaysClosedForm(saturday, h + 2);
    } else {
      FullWeek(saturday, LongestClosure(h - 5));
      WeekdaysFromSaturday(saturday, h - 5);
    }
  }

  /** The bound is reached for every number of holidays: on the weekdays that follow a Saturday they keep the market
      shut for `LongestClosure` days. */
  lemma ClosureTight(saturday: int, h: nat) returns (holidays: set<int>)
    requires Weekday(saturday) == 5
    ensures |holidays| == h
    ensures forall d :: saturday <= d < saturday + LongestClosure(h) ==> !IsMarketDay(d, holidays)
  {
    WeekdaysFromSaturday(saturday, h);
    holidays := EveryWeekday(saturday, LongestClosure(h));
  }

  // ---- The search ----------------------------------------------------------

  /** The opening time with seconds dropped, as the search sets it. */
  function OpeningTime(open: int): int {
    open - open % MINUTE
  }

  /** Step day by day from the first candidate; the answer is the earliest opening instant after `at`, and the loop
      takes at most as many steps as the holidays can keep the market shut. */
  method NextMarketOpen(at: Instant, open: int, holidays: set<int>) returns (next: Instant, ghost steps: nat)
    requires Valid(at) && 0 <= open < DAY
    ensures Before(at, next) && IsMarketDay(next.day, holidays) && next.time == OpeningTime(open)
    ensures next.time % 60_000_000 == 0 && next.time <= open < next.time + 60_000_000
    ensures forall d :: IsMarketDay(d, holidays) && Before(at, Instant(d, OpeningTime(open))) ==> next.day <= d
    ensures steps <= LongestClosure(|holidays|)
    ensures next.day <= at.day + 1 + steps
  {
    var candidate := Instant(at.day, open - open % MINUTE);
    if !Before(at, candidate) {
      candidate := candidate.(day := candidate.day + 1);
    }
    ghost var start := candidate.day;
    steps := 0;
    ClosureBounded(start, 0, holidays);
    while !IsMarketDay(candidate.day, holidays)
      invariant candidate == Instant(start + steps, OpeningTime(open))
      invariant forall d :: start <= d < candidate.day ==> !IsMarketDay(d, holidays)
      invariant steps <= LongestClosure(|holidays|)
      decreases LongestClosure(|holidays|) - steps
    {
      ClosureBounded(start, steps + 1, holidays);
      candidate := candidate.(day := candidate.day + 1);
      steps := steps + 1;
    }
    next := candidate;
  }

  /** The market is closed from `at` to the answer: between them no instant is inside trading hours that start
      at the opening time, except those of the session `at` itself falls into. */
  lemma ClosedUntilNext(at: Instant, next: Instant, open: int, close: int, holidays: set<int>, x: Instant)
    requires Valid(at) && Valid(x) && 0 <= open < DAY && open % MINUTE == 0
    requires forall d :: IsMarketDay(d, holidays) && Before(at, Instant(d, open)) ==> next.day <= d
    requires next.time == open
    requires Before(at, x) && Before(x, next)
    requires IsMarketOpen(x, open, close, holidays)
    ensures x.day == at.day && open <= at.time
  {
  }
}
