/** Position sizing and the half-Kelly multiplier. */
module Sizing {
  import opened Prelude

  function Budget(capital: real, riskPct: real): real {
    capital * (riskPct / 100.0)
  }

  function PositionSize(capital: real, riskPct: real, entry: real, stop: real, lotSize: int): int
    requires lotSize >= 1
  {
    var riskPerUnit := Abs(entry - stop);
    if riskPerUnit <= 0.0 then 0
    else
      var rawQty := Budget(capital, riskPct) / riskPerUnit;
      (rawQty / lotSize as real).Floor * lotSize
  }

  /** A lot multiple is affordable exactly when it does not exceed the computed size: no larger one fits. */
  lemma LargestAffordable(capital: real, riskPct: real, entry: real, stop: real, lotSize: int, lots: int)
    requires lotSize >= 1 && entry != stop
    ensures var qty := PositionSize(capital, riskPct, entry, stop, lotSize);
            && ((lots * lotSize) as real * Abs(entry - stop) <= Budget(capital, riskPct) <==> lots * lotSize <= qty)
            && qty % lotSize == 0
            && qty as real * Abs(entry - stop) <= Budget(capital, riskPct)
  {
    var unit, budget := Abs(entry - stop), Budget(capital, riskPct);
    var raw := budget / unit;
    var f := (raw / lotSize as real).Floor;
    MultipleFits(budget, unit, lotSize, lots);
    MultipleFits(budget, unit, lotSize, f);
    MultipleOrder(lots, f, lotSize);
    LotRemainder(f, lotSize);
  }

  function Units(lots: int, lotSize: int): int {
    lots * lotSize
  }

  /** qty is a whole number of lots, and a number of lots costs no more than the budget exactly when it is not more. */
  ghost predicate LargestFit(budget: real, unit: real, lotSize: int, qty: int)
    requires lotSize >= 1
  {
    && qty % lotSize == 0
    && forall lots :: Units(lots, lotSize) as real * unit <= budget <==> Units(lots, lotSize) <= qty
  }

  lemma SizeIsLargestFit(capital: real, riskPct: real, budget: real, entry: real, stop: real, lotSize: int)
    requires lotSize >= 1 && entry != stop && budget == capital * (riskPct / 100.0)
    ensures LargestFit(budget, Abs(entry - stop), lotSize, PositionSize(capital, riskPct, entry, stop, lotSize))
  {
    hide PositionSize;
    forall lots
      ensures Units(lots, lotSize) as real * Abs(entry - stop) <= budget <==>
              Units(lots, lotSize) <= PositionSize(capital, riskPct, entry, stop, lotSize)
    {
      LargestAffordable(capital, riskPct, entry, stop, lotSize, lots);
    }
    LargestAffordable(capital, riskPct, entry, stop, lotSize, 0);
  }

  /** There is only one such quantity. */
  lemma LargestFitUnique(budget: real, unit: real, lotSize: int, a: int, b: int)
    requires lotSize >= 1 && LargestFit(budget, unit, lotSize, a) && LargestFit(budget, unit, lotSize, b)
    ensures a == b
  {
    assert Units(a / lotSize, lotSize) == a && Units(b / lotSize, lotSize) == b;
  }

  /** At least one unit is bought exactly when one whole lot is affordable. */
  lemma OneLotFits(budget: real, unit: real, lotSize: int, qty: int)
    requires lotSize >= 1 && LargestFit(budget, unit, lotSize, qty)
    ensures qty >= 1 <==> lotSize as real * unit <= budget
  {
    assert Units(1, lotSize) == lotSize;
    MultipleAtLeast(qty, lotSize);
  }

  lemma MultipleAtLeast(qty: int, lotSize: int)
    requires lotSize >= 1 && qty % lotSize == 0
    ensures qty >= 1 ==> qty >= lotSize
  {
  }

  lemma MultipleFits(budget: real, unit: real, lotSize: int, lots: int)
    requires unit > 0.0 && lotSize >= 1
    ensures (lots * lotSize) as real * unit <= budget <==> lots <= (budget / unit / lotSize as real).Floor
  {
    var perLot := unit * lotSize as real;
    assert perLot > 0.0;
    assert (lots * lotSize) as real * unit == lots as real * perLot;
    var ratio := budget / unit / lotSize as real;
    assert ratio * perLot == budget by {
      assert budget / unit * unit == budget;
      assert ratio * lotSize as real == budget / unit;
    }
    assert lots as real * perLot <= ratio * perLot <==> lots as real <= ratio by {
      assert (ratio - lots as real) * perLot == ratio * perLot - lots as real * perLot;
      if lots as real <= ratio {
        assert (ratio - lots as real) * perLot >= 0.0;
      } else {
        assert (lots as real - ratio) * perLot > 0.0;
      }
    }
  }

  lemma MultipleOrder(a: int, b: int, lotSize: int)
    requires lotSize >= 1
    ensures a <= b <==> a * lotSize <= b * lotSize
  {
  }

  lemma LotRemainder(lots: int, lotSize: int)
    requires lotSize >= 1
    ensures (lots * lotSize) % lotSize == 0
  {
    var q, r := (lots * lotSize) / lotSize, (lots * lotSize) % lotSize;
    assert lots * lotSize == q * lotSize + r;
    assert r == (lots - q) * lotSize;
    assert lots - q >= 1 ==> (lots - q) * lotSize >= lotSize;
    assert lots - q <= -1 ==> (lots - q) * lotSize <= -lotSize;
  }

  /** Sizing only looks at the distance to the stop. */
  lemma SizeMirrored(capital: real, riskPct: real, entry: real, stop: real, lotSize: int)
    requires lotSize >= 1
    ensures PositionSize(capital, riskPct, -entry, -stop, lotSize) ==
            PositionSize(capital, riskPct, entry, stop, lotSize)
  {
  }

  // ---- Half-Kelly ----------------------------------------------------------

  function Wins(history: seq<real>): seq<real> {
    Filter(history, (p: real) => p > 0.0)
  }

  function Losses(history: seq<real>): seq<real> {
    Filter(history, (p: real) => p <= 0.0)
  }

  lemma {:induction false} SumPositive(s: seq<real>)
    requires s != [] && forall x :: x in s ==> x > 0.0
    ensures Sum(s) > 0.0
  {
    var init, last := s[..|s| - 1], s[|s| - 1];
    assert last in s;
    forall x | x in init ensures x > 0.0 {
      assert x in s;
    }
    if init != [] {
      SumPositive(init);
    }
  }

  /** The multiplier once both outcomes have occurred and the losses are not all zero. */
  function HalfKelly(winRate: real, avgWin: real, avgLoss: real): real
    requires avgWin > 0.0 && avgLoss > 0.0
  {
    assert avgWin / avgLoss > 0.0;
    Max(0.25, Min(1.0, (winRate - (1.0 - winRate) / (avgWin / avgLoss)) / 2.0))
  }

  function Mean(s: seq<real>): real
    requires s != []
  {
    Sum(s) / |s| as real
  }

  lemma MeanPositive(s: seq<real>)
    requires s != [] && forall x :: x in s ==> x > 0.0
    ensures Mean(s) > 0.0
  {
    SumPositive(s);
  }

  lemma MeanWinPositive(history: seq<real>)
    requires Wins(history) != []
    ensures Mean(Wins(history)) > 0.0
  {
    FilterMembers(history, (p: real) => p > 0.0);
    MeanPositive(Wins(history));
  }

  function KellyFraction(history: seq<real>): real {
    if |history| < 5 then 1.0
    else
      var wins, losses := Wins(history), Losses(history);
      if wins == [] || losses == [] then 1.0
      else
        var avgWin, avgLoss := Mean(wins), Abs(Mean(losses));
        MeanWinPositive(history);
        if avgLoss == 0.0 then 1.0
        else HalfKelly(|wins| as real / |history| as real, avgWin, avgLoss)
  }

  lemma KellyRange(history: seq<real>)
    ensures 0.25 <= KellyFraction(history) <= 1.0
  {
  }

  /** Too few trades, only wins, only losses, or losses that are all zero. */
  predicate Inconclusive(history: seq<real>) {
    |history| < 5 || Wins(history) == [] || Losses(history) == [] || Mean(Losses(history)) == 0.0
  }

  lemma HalfKellyBelowHalf(winRate: real, avgWin: real, avgLoss: real)
    requires winRate < 1.0 && avgWin > 0.0 && avgLoss > 0.0
    ensures 0.25 <= HalfKelly(winRate, avgWin, avgLoss) < 0.5
  {
  }

  lemma {:induction false} WinsAndLosses(history: seq<real>)
    ensures |Wins(history)| + |Losses(history)| == |history|
  {
    if history != [] {
      WinsAndLosses(history[..|history| - 1]);
    }
  }

  /** The upper clamp at 1 is dead: a conclusive history always gives a multiplier below one half, and only an
      inconclusive one gives the full 1. */
  lemma KellyFullIffInconclusive(history: seq<real>)
    ensures KellyFraction(history) == 1.0 <==> Inconclusive(history)
    ensures !Inconclusive(history) ==> 0.25 <= KellyFraction(history) < 0.5
  {
    hide HalfKelly;
    if !Inconclusive(history) {
      MeanWinPositive(history);
      WinsAndLosses(history);
      var winRate := |Wins(history)| as real / |history| as real;
      FractionBelowOne(|Wins(history)|, |history|);
      HalfKellyBelowHalf(winRate, Mean(Wins(history)), Abs(Mean(Losses(history))));
    }
  }

  lemma FractionBelowOne(a: nat, b: nat)
    requires a < b
    ensures a as real / b as real < 1.0
  {
  }

  /** Wins and losses add up to the result of the whole history. */
  lemma {:induction false} SumsSplit(history: seq<real>)
    ensures Sum(Wins(history)) + Sum(Losses(history)) == Sum(history)
  {
    if history != [] {
      var init, last := history[..|history| - 1], history[|history| - 1];
      SumsSplit(init);
      SumAppend(Wins(init), last);
      SumAppend(Losses(init), last);
    }
  }

  lemma {:induction false} SumNonpositive(s: seq<real>)
    requires forall x :: x in s ==> x <= 0.0
    ensures Sum(s) <= 0.0
    ensures Sum(s) == 0.0 <==> forall x :: x in s ==> x == 0.0
  {
    if s != [] {
      var init, last := s[..|s| - 1], s[|s| - 1];
      assert s == init + [last];
      assert forall x :: x in init ==> x in s;
      assert last in s;
      SumNonpositive(init);
      if Sum(s) == 0.0 {
        assert Sum(init) == 0.0;
      }
    }
  }

  lemma MeanZero(s: seq<real>)
    requires s != []
    ensures Mean(s) == 0.0 <==> Sum(s) == 0.0
    ensures Mean(s) <= 0.0 <==> Sum(s) <= 0.0
  {
  }

  /** A history is conclusive exactly when it has at least five trades, a profit and a loss among them. */
  lemma ConclusiveIff(history: seq<real>)
    ensures !Inconclusive(history) <==>
            |history| >= 5 && (exists p :: p in history && p > 0.0) && (exists p :: p in history && p < 0.0)
  {
    FilterMembers(history, (p: real) => p > 0.0);
    FilterMembers(history, (p: real) => p <= 0.0);
    var wins, losses := Wins(history), Losses(history);
    SumNonpositive(losses);
    if losses != [] {
      MeanZero(losses);
    }
    hide Wins;
    hide Losses;
    hide Mean;
    if p :| p in history && p > 0.0 {
      assert p in wins;
    }
    if p :| p in history && p < 0.0 {
      assert p in losses;
    }
    if wins != [] {
      assert wins[0] in wins && wins[0] in history;
    }
    if losses != [] && Sum(losses) != 0.0 {
      var q :| q in losses && q != 0.0;
      assert q in history && q < 0.0;
    }
  }

  lemma Quotient(x: real, d: real)
    requires d != 0.0
    ensures x / d * d == x
  {
  }

  lemma QuotientIs(x: real, d: real, q: real)
    requires d > 0.0 && q * d == x
    ensures x / d == q
  {
  }

  lemma Cancel(x: real, y: real, d: real)
    requires d > 0.0 && x * d == y * d
    ensures x == y
  {
    assert (x - y) * d == 0.0;
  }

  /** Multiplied out: with win rate w, loss rate v, lost share u and ratio of means r. */
  lemma KellyProducts(a: real, b: real, gross: real, lost: real, w: real, v: real, u: real, r: real)
    requires a > 0.0 && b > 0.0 && gross > 0.0 && lost > 0.0
    requires w * (a + b) == a && v * (a + b) == b && u * gross == lost && r * a * lost == gross * b
    ensures w * u * r == v
  {
    var n := a + b;
    calc {
      w * u * r * gross * n;
      (w * n) * (u * gross) * r;
      a * lost * r;
      gross * b;
      v * gross * n;
    }
    Cancel(w * u * r * gross, v * gross, n);
    Cancel(w * u * r, v, gross);
  }

  lemma RatioOfMeans(a: real, b: real, gross: real, lost: real)
    requires a > 0.0 && b > 0.0 && gross > 0.0 && lost > 0.0
    ensures gross / a > 0.0 && lost / b > 0.0 && gross / a / (lost / b) > 0.0
    ensures gross / a / (lost / b) * a * lost == gross * b
  {
    var x, y := gross / a, lost / b;
    Quotient(gross, a);
    Quotient(lost, b);
    PositiveQuotient(gross, a);
    PositiveQuotient(lost, b);
    PositiveQuotient(x, y);
    Quotient(x, y);
    var r := x / y;
    calc {
      r * a * lost;
      r * a * (y * b);
      (r * y) * a * b;
      x * a * b;
      gross * b;
    }
  }

  lemma PositiveQuotient(x: real, d: real)
    requires x > 0.0 && d > 0.0
    ensures x / d > 0.0
  {
  }

  function Textbook(winRate: real, ratio: real): real
    requires ratio > 0.0
  {
    winRate - (1.0 - winRate) / ratio
  }

  /** The textbook fraction, with the ratio of the means, is the win rate times net over gross profit. */
  lemma KellyAlgebra(a: real, b: real, n: real, gross: real, lost: real)
    requires a > 0.0 && b > 0.0 && gross > 0.0 && lost > 0.0 && n == a + b
    ensures gross / a > 0.0 && lost / b > 0.0 && gross / a / (lost / b) > 0.0
    ensures Textbook(a / n, gross / a / (lost / b)) == a / n * ((gross - lost) / gross)
  {
    var w, u, r := a / n, lost / gross, gross / a / (lost / b);
    Quotient(a, n);
    Quotient(lost, gross);
    RatioOfMeans(a, b, gross, lost);
    assert (1.0 - w) * n == b;
    KellyProducts(a, b, gross, lost, w, 1.0 - w, u, r);
    QuotientIs(1.0 - w, r, w * u);
    assert (1.0 - u) * gross == gross - lost;
    QuotientIs(gross - lost, gross, 1.0 - u);
    assert w * (1.0 - u) == w - w * u;
  }

  function WinRate(history: seq<real>): real
    requires history != []
  {
    |Wins(history)| as real / |history| as real
  }

  /** Half of rate * net / gross. */
  function HalfShare(rate: real, net: real, gross: real): real
    requires gross > 0.0
  {
    rate * (net / gross) / 2.0
  }

  /** Half-Kelly in closed form: half the win rate times the net result over the gross profit, but at least 1/4. */
  lemma KellyClosedForm(history: seq<real>)
    requires !Inconclusive(history)
    ensures history != [] && Sum(Wins(history)) > 0.0
    ensures KellyFraction(history) == Max(0.25, HalfShare(WinRate(history), Sum(history), Sum(Wins(history))))
  {
    hide *;
    SignsOfSums(history);
    SumsSplit(history);
    var a, b, n := Shares(history);
    ConclusiveFraction(history, a, b, n);
    KellyFullIffInconclusive(history);
    ClampedShare(a, b, n, WinRate(history), Sum(Wins(history)), -Sum(Losses(history)), Sum(history), KellyFraction(history));
  }

  /** The counts as reals. */
  lemma Shares(history: seq<real>) returns (a: real, b: real, n: real)
    requires |Wins(history)| > 0 && |Losses(history)| > 0
    ensures a == |Wins(history)| as real && b == |Losses(history)| as real && n == |history| as real
    ensures a > 0.0 && b > 0.0 && n == a + b && WinRate(history) == a / n
  {
    WinsAndLosses(history);
    a, b, n := |Wins(history)| as real, |Losses(history)| as real, |history| as real;
  }

  lemma ClampedShare(a: real, b: real, n: real, rate: real, gross: real, lost: real, net: real, clamped: real)
    requires a > 0.0 && b > 0.0 && gross > 0.0 && lost > 0.0 && n == a + b && net == gross - lost && rate == a / n
    requires gross / a > 0.0 && lost / b > 0.0 && gross / a / (lost / b) > 0.0
    requires clamped == Max(0.25, Min(1.0, Textbook(a / n, gross / a / (lost / b)) / 2.0)) && clamped < 0.5
    ensures clamped == Max(0.25, HalfShare(rate, net, gross))
  {
    KellyAlgebra(a, b, n, gross, lost);
    var raw := Textbook(a / n, gross / a / (lost / b));
    hide Max;
    hide Min;
    hide Textbook;
    ClampBelowHalf(clamped, raw / 2.0);
  }

  lemma ClampBelowHalf(clamped: real, raw: real)
    requires clamped == Max(0.25, Min(1.0, raw)) && clamped < 0.5
    ensures clamped == Max(0.25, raw)
  {
  }

  lemma SignsOfSums(history: seq<real>)
    requires !Inconclusive(history)
    ensures Sum(Wins(history)) > 0.0 && Sum(Losses(history)) < 0.0
    ensures |Wins(history)| > 0 && |Losses(history)| > 0
  {
    FilterMembers(history, (p: real) => p > 0.0);
    FilterMembers(history, (p: real) => p <= 0.0);
    SumPositive(Wins(history));
    SumNonpositive(Losses(history));
    MeanZero(Losses(history));
  }

  /** The clamped textbook fraction of a conclusive history. */
  lemma ConclusiveFraction(history: seq<real>, a: real, b: real, n: real)
    requires !Inconclusive(history)
    requires a == |Wins(history)| as real > 0.0 && b == |Losses(history)| as real > 0.0 && n == |history| as real > 0.0
    requires Sum(Wins(history)) > 0.0 && Sum(Losses(history)) < 0.0
    ensures var gross, lost := Sum(Wins(history)), -Sum(Losses(history));
            && gross / a > 0.0 && lost / b > 0.0 && gross / a / (lost / b) > 0.0
            && KellyFraction(history) == Max(0.25, Min(1.0, Textbook(a / n, gross / a / (lost / b)) / 2.0))
  {
    hide Wins;
    hide Losses;
    RatioOfMeans(a, b, Sum(Wins(history)), -Sum(Losses(history)));
    NegatedQuotient(Sum(Losses(history)), b);
    hide Sum;
  }

  lemma NegatedQuotient(x: real, d: real)
    requires x < 0.0 && d > 0.0
    ensures Abs(x / d) == -x / d
  {
  }

  lemma FilterPermuted(s: seq<real>, t: seq<real>, keep: real -> bool)
    requires multiset(s) == multiset(t)
    ensures multiset(Filter(s, keep)) == multiset(Filter(t, keep))
  {
    forall x: real
      ensures multiset(Filter(s, keep))[x] == multiset(Filter(t, keep))[x]
    {
      FilterMultiset(s, keep, x);
      FilterMultiset(t, keep, x);
    }
  }

  lemma SameLength(s: seq<real>, t: seq<real>)
    requires multiset(s) == multiset(t)
    ensures |s| == |t|
  {
    assert |multiset(s)| == |s|;
    assert |multiset(t)| == |t|;
  }

  /** The order in which trades were closed does not matter. */
  lemma KellyPermutation(s: seq<real>, t: seq<real>)
    requires multiset(s) == multiset(t)
    ensures KellyFraction(s) == KellyFraction(t)
  {
    SameLength(s, t);
    FilterPermuted(s, t, (p: real) => p > 0.0);
    FilterPermuted(s, t, (p: real) => p <= 0.0);
    SameLength(Wins(s), Wins(t));
    SameLength(Losses(s), Losses(t));
    SumPermutation(Wins(s), Wins(t));
    SumPermutation(Losses(s), Losses(t));
  }

  function Times(c: real, x: real): real {
    c * x
  }

  function Scale(s: seq<real>, c: real): seq<real> {
    if s == [] then [] else Scale(s[..|s| - 1], c) + [Times(c, s[|s| - 1])]
  }

  lemma TimesSign(c: real, x: real)
    requires c > 0.0
    ensures Times(c, x) > 0.0 <==> x > 0.0
  {
  }

  lemma {:induction false} ScaleAppend(s: seq<real>, x: real, c: real)
    ensures Scale(s + [x], c) == Scale(s, c) + [Times(c, x)]
  {
  }

  lemma {:induction false} ScaleLength(s: seq<real>, c: real)
    ensures |Scale(s, c)| == |s|
  {
    if s != [] {
      ScaleLength(s[..|s| - 1], c);
    }
  }

  lemma {:induction false} ScaleSum(s: seq<real>, c: real)
    ensures Sum(Scale(s, c)) == c * Sum(s)
  {
    if s != [] {
      var init, last := s[..|s| - 1], s[|s| - 1];
      ScaleSum(init, c);
      SumAppend(Scale(init, c), Times(c, last));
    }
  }

  lemma {:induction false} ScaleWins(s: seq<real>, c: real)
    requires c > 0.0
    ensures Wins(Scale(s, c)) == Scale(Wins(s), c)
  {
    if s != [] {
      var init, last := s[..|s| - 1], s[|s| - 1];
      ScaleWins(init, c);
      hide Times;
      TimesSign(c, last);
      FilterAppend(Scale(init, c), Times(c, last), (p: real) => p > 0.0);
      ScaleAppend(Wins(init), last, c);
    }
  }

  lemma {:induction false} ScaleLosses(s: seq<real>, c: real)
    requires c > 0.0
    ensures Losses(Scale(s, c)) == Scale(Losses(s), c)
  {
    if s != [] {
      var init, last := s[..|s| - 1], s[|s| - 1];
      ScaleLosses(init, c);
      hide Times;
      TimesSign(c, last);
      FilterAppend(Scale(init, c), Times(c, last), (p: real) => p <= 0.0);
      ScaleAppend(Losses(init), last, c);
    }
  }

  lemma ScaleQuotient(c: real, a: real, n: real)
    requires n != 0.0
    ensures c * a / n == c * (a / n)
  {
  }

  lemma RatioScale(p: real, q: real, c: real)
    requires c > 0.0 && q > 0.0
    ensures c * q > 0.0
    ensures c * p / (c * q) == p / q
  {
  }

  lemma HalfKellyScaled(winRate: real, avgWin: real, avgLoss: real, win: real, loss: real, c: real)
    requires c > 0.0 && avgWin > 0.0 && avgLoss > 0.0
    requires win == c * avgWin && loss == c * avgLoss
    ensures win > 0.0 && loss > 0.0
    ensures HalfKelly(winRate, win, loss) == HalfKelly(winRate, avgWin, avgLoss)
  {
    RatioScale(avgWin, avgLoss, c);
    ScaledAbs(c, avgWin);
    assert win / loss == avgWin / avgLoss;
  }

  lemma MeanScale(s: seq<real>, c: real)
    requires s != []
    ensures Scale(s, c) != [] && Mean(Scale(s, c)) == Times(c, Mean(s))
  {
    ScaleLength(s, c);
    ScaleSum(s, c);
    ScaleQuotient(c, Sum(s), |s| as real);
  }

  lemma KellyCase(winRate: real, avgWin: real, meanLoss: real, c: real)
    requires c > 0.0 && avgWin > 0.0
    ensures Times(c, avgWin) > 0.0
    ensures Abs(Times(c, meanLoss)) == 0.0 <==> Abs(meanLoss) == 0.0
    ensures meanLoss != 0.0 ==>
              HalfKelly(winRate, Times(c, avgWin), Abs(Times(c, meanLoss))) == HalfKelly(winRate, avgWin, Abs(meanLoss))
  {
    ScaledAbs(c, meanLoss);
    ScaledAbs(c, avgWin);
    if meanLoss != 0.0 {
      HalfKellyScaled(winRate, avgWin, Abs(meanLoss), Times(c, avgWin), Abs(Times(c, meanLoss)), c);
    }
  }

  /** The currency unit does not matter either. */
  lemma KellyScale(s: seq<real>, c: real)
    requires c > 0.0
    ensures KellyFraction(Scale(s, c)) == KellyFraction(s)
  {
    var wins, losses := Wins(s), Losses(s);
    ScaleWins(s, c);
    ScaleLosses(s, c);
    ScaleLength(s, c);
    ScaleLength(wins, c);
    ScaleLength(losses, c);
    if |s| >= 5 && wins != [] && losses != [] {
      MeanScale(wins, c);
      MeanScale(losses, c);
      MeanWinPositive(s);
      KellyCase(|wins| as real / |s| as real, Mean(wins), Mean(losses), c);
    }
  }

  lemma ScaledAbs(c: real, x: real)
    requires c > 0.0
    ensures Abs(c * x) == c * Abs(x)
    ensures c * x > 0.0 <==> x > 0.0
    ensures c * x < 0.0 <==> x < 0.0
  {
    assert x > 0.0 ==> c * x > 0.0;
    assert x < 0.0 ==> c * -x > 0.0;
    assert c * -x == -(c * x);
  }
}
