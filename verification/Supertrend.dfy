/** The Supertrend indicator: two ratcheting bands around the price and a trend that flips when the close crosses one. */
module Supertrend {
  import opened Prelude

  datatype Candle = Candle(high: real, low: real, close: real)
  datatype Trend = Bullish | Bearish

  /** The frame with the ATR period and the band width. */
  datatype Frame = Frame(candles: seq<Candle>, period: nat, multiplier: real)

  /** With a period of 1 the first average is over no defined range and every band stays undefined. */
  predicate Valid(f: Frame) {
    f.period >= 2
  }

  /** The averaging window of the bar is complete and holds a defined range. */
  predicate HasAtr(f: Frame, i: nat) {
    f.period >= 1 && f.period - 1 <= i < |f.candles| && i >= 1
  }

  /** Bars from here on have bands. */
  predicate Banded(f: Frame, i: nat) {
    Valid(f) && f.period - 1 <= i < |f.candles|
  }

  // ---- Specification -------------------------------------------------------

  /** Undefined on the first bar, which has no previous close. */
  function TrueRange(f: Frame, i: nat): real
    requires 1 <= i < |f.candles|
  {
    var c, prev := f.candles[i], f.candles[i - 1].close;
    Max(c.high - c.low, Max(Abs(c.high - prev), Abs(c.low - prev)))
  }

  function RangeSum(f: Frame, lo: nat, hi: nat): real
    requires 1 <= lo <= hi <= |f.candles|
    decreases hi
  {
    if lo == hi then 0.0 else RangeSum(f, lo, hi - 1) + TrueRange(f, hi - 1)
  }

  /** First bar of the averaging window, without the undefined first range. */
  function WindowFrom(f: Frame, i: nat): nat {
    if i + 1 > f.period + 1 then i + 1 - f.period else 1
  }

  /** Mean of the defined true ranges among the last `period` bars. */
  function Atr(f: Frame, i: nat): real
    requires HasAtr(f, i)
  {
    RangeSum(f, WindowFrom(f, i), i + 1) / (i + 1 - WindowFrom(f, i)) as real
  }

  function Middle(f: Frame, i: nat): real
    requires i < |f.candles|
  {
    (f.candles[i].high + f.candles[i].low) / 2.0
  }

  function BasicUpper(f: Frame, i: nat): real
    requires HasAtr(f, i)
  {
    Middle(f, i) + f.multiplier * Atr(f, i)
  }

  function BasicLower(f: Frame, i: nat): real
    requires HasAtr(f, i)
  {
    Middle(f, i) - f.multiplier * Atr(f, i)
  }

  function Upper(f: Frame, i: nat): real
    requires Banded(f, i)
  {
    if i == f.period - 1 then BasicUpper(f, i)
    else if BasicUpper(f, i) < Upper(f, i - 1) || f.candles[i - 1].close > Upper(f, i - 1) then BasicUpper(f, i)
    else Upper(f, i - 1)
  }

  function Lower(f: Frame, i: nat): real
    requires Banded(f, i)
  {
    if i == f.period - 1 then BasicLower(f, i)
    else if BasicLower(f, i) > Lower(f, i - 1) || f.candles[i - 1].close < Lower(f, i - 1) then BasicLower(f, i)
    else Lower(f, i - 1)
  }

  function Direction(f: Frame, i: nat): Trend
    requires Valid(f) && i < |f.candles|
  {
    if i < f.period then Bullish
    else
      var prev := Direction(f, i - 1);
      if prev.Bearish? && f.candles[i].close > Upper(f, i) then Bullish
      else if prev.Bullish? && f.candles[i].close < Lower(f, i) then Bearish
      else prev
  }

  function Line(f: Frame, i: nat): real
    requires Banded(f, i)
  {
    if Direction(f, i).Bullish? then Lower(f, i) else Upper(f, i)
  }

  // ---- What the bands average ----------------------------------------------

  /** x is the largest of the bar's height and the distances of its ends from the previous close. */
  predicate IsTrueRange(f: Frame, i: nat, x: real)
    requires 1 <= i < |f.candles|
  {
    var h, l, prev := f.candles[i].high, f.candles[i].low, f.candles[i - 1].close;
    && x >= h - l && x >= h - prev && x >= prev - h && x >= l - prev && x >= prev - l
    && (x == h - l || x == h - prev || x == prev - h || x == l - prev || x == prev - l)
  }

  lemma {:induction false} RangesOf(f: Frame, lo: nat, hi: nat) returns (ranges: seq<real>)
    requires 1 <= lo <= hi <= |f.candles|
    ensures |ranges| == hi - lo && Sum(ranges) == RangeSum(f, lo, hi)
    ensures forall k :: 0 <= k < hi - lo ==> IsTrueRange(f, lo + k, ranges[k])
    decreases hi
  {
    ranges := [];
    if lo < hi {
      var before := RangesOf(f, lo, hi - 1);
      ranges := before + [TrueRange(f, hi - 1)];
      SumAppend(before, TrueRange(f, hi - 1));
      assert IsTrueRange(f, hi - 1, TrueRange(f, hi - 1));
      hide IsTrueRange;
      hide TrueRange;
    }
  }

  /** The bands lie the multiplier times the mean of these ranges away from the middle of bar i. */
  predicate BandsAround(f: Frame, i: nat, ranges: seq<real>, upper: real, lower: real)
    requires i < |f.candles| && ranges != []
  {
    && upper == (f.candles[i].high + f.candles[i].low) / 2.0 + f.multiplier * (Sum(ranges) / |ranges| as real)
    && lower == (f.candles[i].high + f.candles[i].low) / 2.0 - f.multiplier * (Sum(ranges) / |ranges| as real)
  }

  /** The basic bands of a bar are around the true ranges of the last `period` bars up to it, of which the very first
      bar of the data has none. */
  lemma BasicBandsExact(f: Frame, i: nat) returns (from: nat, ranges: seq<real>)
    requires HasAtr(f, i)
    ensures from == (if i + 1 - f.period >= 1 then i + 1 - f.period else 1) <= i
    ensures |ranges| == i + 1 - from
    ensures forall k :: 0 <= k < |ranges| ==> IsTrueRange(f, from + k, ranges[k])
    ensures BandsAround(f, i, ranges, BasicUpper(f, i), BasicLower(f, i))
  {
    hide RangeSum;
    hide IsTrueRange;
    from := WindowFrom(f, i);
    ranges := RangesOf(f, from, i + 1);
  }

  // ---- No lookahead --------------------------------------------------------

  function Truncate(f: Frame, n: nat): Frame
    requires n <= |f.candles|
  {
    f.(candles := f.candles[..n])
  }

  lemma {:induction false} RangeSumPrefix(f: Frame, n: nat, lo: nat, hi: nat)
    requires 1 <= lo <= hi <= n <= |f.candles|
    ensures RangeSum(Truncate(f, n), lo, hi) == RangeSum(f, lo, hi)
    decreases hi
  {
    if lo < hi {
      RangeSumPrefix(f, n, lo, hi - 1);
    }
  }

  lemma AtrPrefix(f: Frame, n: nat, i: nat)
    requires n <= |f.candles| && i < n && HasAtr(f, i)
    ensures Atr(Truncate(f, n), i) == Atr(f, i)
  {
    hide RangeSum;
    hide TrueRange;
    RangeSumPrefix(f, n, WindowFrom(f, i), i + 1);
  }

  lemma BasicPrefix(f: Frame, n: nat, i: nat)
    requires n <= |f.candles| && i < n && HasAtr(f, i)
    ensures BasicUpper(Truncate(f, n), i) == BasicUpper(f, i)
    ensures BasicLower(Truncate(f, n), i) == BasicLower(f, i)
  {
    hide Atr;
    AtrPrefix(f, n, i);
  }

  lemma {:induction false} BandsPrefix(f: Frame, n: nat, i: nat)
    requires n <= |f.candles| && i < n && Banded(f, i)
    ensures Upper(Truncate(f, n), i) == Upper(f, i)
    ensures Lower(Truncate(f, n), i) == Lower(f, i)
  {
    hide BasicUpper;
    hide BasicLower;
    BasicPrefix(f, n, i);
    if i > f.period - 1 {
      BandsPrefix(f, n, i - 1);
    }
  }

  /** The indicator on a prefix of the data is the prefix of the indicator. */
  lemma {:induction false} IndicatorPrefix(f: Frame, n: nat, i: nat)
    requires n <= |f.candles| && i < n && Valid(f)
    ensures Direction(Truncate(f, n), i) == Direction(f, i)
    ensures Banded(f, i) ==> Line(Truncate(f, n), i) == Line(f, i)
  {
    hide Upper;
    hide Lower;
    if Banded(f, i) {
      BandsPrefix(f, n, i);
    }
    if i >= f.period {
      IndicatorPrefix(f, n, i - 1);
    }
  }

  // ---- Closed form of the bands --------------------------------------------

  /** The last bar at or before i whose previous close broke through the upper band, or the first banded bar. */
  function UpperSince(f: Frame, i: nat): (k: nat)
    requires Banded(f, i)
    ensures f.period - 1 <= k <= i
    ensures k > f.period - 1 ==> f.candles[k - 1].close > Upper(f, k - 1)
    ensures forall j :: k <= j < i ==> f.candles[j].close <= Upper(f, j)
  {
    if i == f.period - 1 || f.candles[i - 1].close > Upper(f, i - 1) then i else UpperSince(f, i - 1)
  }

  function LowerSince(f: Frame, i: nat): (k: nat)
    requires Banded(f, i)
    ensures f.period - 1 <= k <= i
    ensures k > f.period - 1 ==> f.candles[k - 1].close < Lower(f, k - 1)
    ensures forall j :: k <= j < i ==> f.candles[j].close >= Lower(f, j)
  {
    if i == f.period - 1 || f.candles[i - 1].close < Lower(f, i - 1) then i else LowerSince(f, i - 1)
  }

  lemma UpperStep(f: Frame, i: nat)
    requires Valid(f) && f.period <= i < |f.candles|
    ensures UpperSince(f, i) == i ==> Upper(f, i) == BasicUpper(f, i)
    ensures UpperSince(f, i) < i ==>
              && UpperSince(f, i) == UpperSince(f, i - 1)
              && Upper(f, i) == Min(BasicUpper(f, i), Upper(f, i - 1))
  {
    hide BasicUpper;
  }

  lemma UpperStart(f: Frame, i: nat)
    requires Banded(f, i) && i == f.period - 1
    ensures UpperSince(f, i) == i && Upper(f, i) == BasicUpper(f, i)
  {
  }

  /** The upper band is the minimum of the basic upper bands since the last close through it. */
  lemma {:induction false} UpperIsRunningMin(f: Frame, i: nat)
    requires Banded(f, i)
    ensures forall k :: UpperSince(f, i) <= k <= i ==> Upper(f, i) <= BasicUpper(f, k)
    ensures exists k :: UpperSince(f, i) <= k <= i && Upper(f, i) == BasicUpper(f, k)
  {
    hide BasicUpper;
    hide Upper;
    hide UpperSince;
    if i == f.period - 1 {
      UpperStart(f, i);
    } else {
      UpperStep(f, i);
      if UpperSince(f, i) < i {
        UpperIsRunningMin(f, i - 1);
        var k :| UpperSince(f, i - 1) <= k <= i - 1 && Upper(f, i - 1) == BasicUpper(f, k);
        var w := if Upper(f, i) == BasicUpper(f, i) then i else k;
        assert UpperSince(f, i) <= w <= i && Upper(f, i) == BasicUpper(f, w);
      }
    }
  }

  lemma LowerStep(f: Frame, i: nat)
    requires Valid(f) && f.period <= i < |f.candles|
    ensures LowerSince(f, i) == i ==> Lower(f, i) == BasicLower(f, i)
    ensures LowerSince(f, i) < i ==>
              && LowerSince(f, i) == LowerSince(f, i - 1)
              && Lower(f, i) == Max(BasicLower(f, i), Lower(f, i - 1))
  {
    hide BasicLower;
  }

  lemma LowerStart(f: Frame, i: nat)
    requires Banded(f, i) && i == f.period - 1
    ensures LowerSince(f, i) == i && Lower(f, i) == BasicLower(f, i)
  {
  }

  /** The lower band is the maximum of the basic lower bands since the last close through it. */
  lemma {:induction false} LowerIsRunningMax(f: Frame, i: nat)
    requires Banded(f, i)
    ensures forall k :: LowerSince(f, i) <= k <= i ==> Lower(f, i) >= BasicLower(f, k)
    ensures exists k :: LowerSince(f, i) <= k <= i && Lower(f, i) == BasicLower(f, k)
  {
    hide BasicLower;
    hide Lower;
    hide LowerSince;
    if i == f.period - 1 {
      LowerStart(f, i);
    } else {
      LowerStep(f, i);
      if LowerSince(f, i) < i {
        LowerIsRunningMax(f, i - 1);
        var k :| LowerSince(f, i - 1) <= k <= i - 1 && Lower(f, i - 1) == BasicLower(f, k);
        var w := if Lower(f, i) == BasicLower(f, i) then i else k;
        assert LowerSince(f, i) <= w <= i && Lower(f, i) == BasicLower(f, w);
      }
    }
  }

  // ---- The line and the trend ----------------------------------------------

  /** The line supports the close in an up-trend and caps it in a down-trend. */
  predicate OnTrendSide(f: Frame, i: nat)
    requires Banded(f, i)
  {
    if Direction(f, i).Bullish? then f.candles[i].close >= Line(f, i) else f.candles[i].close <= Line(f, i)
  }

  /** The bands are crossed with the close strictly between them. */
  predicate Trapped(f: Frame, i: nat)
    requires Banded(f, i)
  {
    Upper(f, i) < f.candles[i].close < Lower(f, i)
  }

  /** The line is on the trend side of the close exactly when the close is not trapped between crossed bands;
      in particular always when the bands are uncrossed. */
  lemma LineOnTrendSideIff(f: Frame, i: nat)
    requires Valid(f) && f.period <= i < |f.candles|
    ensures OnTrendSide(f, i) <==> !Trapped(f, i)
    ensures Lower(f, i) <= Upper(f, i) ==> OnTrendSide(f, i)
  {
  }

  /** A trapped close always flips the trend, so inside a run the line can only be misplaced on its first bar. */
  lemma TrappedFlips(f: Frame, i: nat)
    requires Valid(f) && f.period <= i < |f.candles|
    ensures Trapped(f, i) ==> Direction(f, i) != Direction(f, i - 1)
  {
  }

  /** The close broke down at bar k and has not broken up since. */
  ghost predicate BrokenDown(f: Frame, k: nat, i: nat)
    requires Valid(f) && f.period <= k <= i < |f.candles|
  {
    f.candles[k].close < Lower(f, k) && forall j :: k < j <= i ==> f.candles[j].close <= Upper(f, j)
  }

  /** While no close is trapped, the trend is bearish exactly when the close went below the lower band at some bar and
      has not gone above the upper band since; before any such bar it is bullish. */
  lemma {:induction false} TrendClosedForm(f: Frame, i: nat)
    requires Banded(f, i) && forall k :: f.period <= k <= i ==> !Trapped(f, k)
    ensures Direction(f, i) == Bearish <==> exists k :: f.period <= k <= i && BrokenDown(f, k, i)
  {
    hide Upper;
    hide Lower;
    if i >= f.period {
      TrendClosedForm(f, i - 1);
      assert !Trapped(f, i);
      var before: nat := i - 1;
      if k :| f.period <= k <= before && BrokenDown(f, k, before) {
        assert f.candles[i].close <= Upper(f, i) ==> BrokenDown(f, k, i);
      }
      if k :| f.period <= k <= i && BrokenDown(f, k, i) {
        assert k < i ==> BrokenDown(f, k, before);
      }
      assert f.candles[i].close < Lower(f, i) <==> BrokenDown(f, i, i);
    }
  }

  /** Ten flat candles and one with a wide upper wick, under the default period and width. */
  function WickFrame(): Frame {
    Frame(seq(11, i => if i < 10 then Candle(100.0, 100.0, 100.0) else Candle(200.0, 100.0, 110.0)), 10, 3.0)
  }

  lemma {:induction false} WickRanges(hi: nat)
    requires 1 <= hi <= 11
    ensures RangeSum(WickFrame(), 1, hi) == if hi == 11 then 100.0 else 0.0
  {
    if hi > 1 {
      WickRanges(hi - 1);
    }
  }

  /** It does happen: the wick lifts the lower band over the close and over the upper band, and the line of the new
      down-trend lies below the close. */
  lemma WickTraps()
    ensures Trapped(WickFrame(), 10) && !OnTrendSide(WickFrame(), 10)
  {
    var f := WickFrame();
    WickRanges(10);
    WickRanges(11);
    hide RangeSum;
    assert Atr(f, 9) == 0.0 && Atr(f, 10) == 10.0;
    assert BasicUpper(f, 9) == 100.0 && BasicLower(f, 9) == 100.0;
    assert BasicUpper(f, 10) == 180.0 && BasicLower(f, 10) == 120.0;
    assert Upper(f, 10) == 100.0 && Lower(f, 10) == 120.0;
    LineOnTrendSideIff(f, 10);
  }

  ghost predicate SameTrend(f: Frame, a: nat, b: nat)
    requires Valid(f) && a <= b < |f.candles|
  {
    forall k :: a <= k <= b ==> Direction(f, k) == Direction(f, a)
  }

  /** Through a run of one trend that does not start trapped, the line never moves against the trend. */
  lemma {:induction false} LineMonotone(f: Frame, a: nat, i: nat, j: nat)
    requires Valid(f) && f.period <= a <= i <= j < |f.candles|
    requires SameTrend(f, a, j) && !Trapped(f, a)
    ensures if Direction(f, a).Bullish? then Line(f, i) <= Line(f, j) else Line(f, i) >= Line(f, j)
    decreases j
  {
    hide BasicUpper;
    hide BasicLower;
    if i < j {
      LineMonotone(f, a, i, j - 1);
      assert Direction(f, j) == Direction(f, a) && Direction(f, j - 1) == Direction(f, a);
      assert !Trapped(f, j - 1) by {
        if a < j - 1 {
          TrappedFlips(f, j - 1);
          assert Direction(f, j - 2) == Direction(f, a);
        }
      }
      LineOnTrendSideIff(f, j - 1);
    }
  }

  // ---- The loop ------------------------------------------------------------

  /** None stands for "not a number", which compares as false with everything. */
  predicate Above(a: Option<real>, b: Option<real>) {
    a.Some? && b.Some? && a.value > b.value
  }

  /** One pass of the loop body, in terms of the previous bar's values. */
  function NextUpper(bu: Option<real>, pu: Option<real>, prevClose: real): Option<real> {
    if Above(pu, bu) || Above(Some(prevClose), pu) then bu else pu
  }

  function NextLower(bl: Option<real>, pl: Option<real>, prevClose: real): Option<real> {
    if Above(bl, pl) || Above(pl, Some(prevClose)) then bl else pl
  }

  function NextTrend(prev: Trend, close: real, upper: Option<real>, lower: Option<real>): Trend {
    if prev == Bearish && Above(Some(close), upper) then Bullish
    else if prev == Bullish && Above(lower, Some(close)) then Bearish
    else prev
  }

  lemma BarStep(f: Frame, i: nat)
    requires Valid(f) && f.period <= i < |f.candles|
    ensures Some(Upper(f, i)) == NextUpper(Some(BasicUpper(f, i)), Some(Upper(f, i - 1)), f.candles[i - 1].close)
    ensures Some(Lower(f, i)) == NextLower(Some(BasicLower(f, i)), Some(Lower(f, i - 1)), f.candles[i - 1].close)
    ensures Direction(f, i) == NextTrend(Direction(f, i - 1), f.candles[i].close, Some(Upper(f, i)), Some(Lower(f, i)))
  {
    hide BasicUpper;
    hide BasicLower;
  }

  /** The final bands of a bar as the columns hold them. */
  function UpperCell(f: Frame, i: nat): Option<real> {
    if Banded(f, i) then Some(Upper(f, i)) else None
  }

  function LowerCell(f: Frame, i: nat): Option<real> {
    if Banded(f, i) then Some(Lower(f, i)) else None
  }

  function LineCell(f: Frame, i: nat): Option<real> {
    if Banded(f, i) && i >= f.period then Some(Line(f, i)) else None
  }

  function TrendCell(f: Frame, i: nat): Trend
    requires i < |f.candles|
  {
    if Valid(f) then Direction(f, i) else Bullish
  }

  /** One pass of the loop takes the cells of bar i - 1 to those of bar i, for every period from 1. */
  lemma CellStep(f: Frame, i: nat)
    requires 1 <= f.period <= i < |f.candles|
    ensures UpperCell(f, i) == NextUpper(Some(BasicUpper(f, i)), UpperCell(f, i - 1), f.candles[i - 1].close)
    ensures LowerCell(f, i) == NextLower(Some(BasicLower(f, i)), LowerCell(f, i - 1), f.candles[i - 1].close)
    ensures TrendCell(f, i) == NextTrend(TrendCell(f, i - 1), f.candles[i].close, UpperCell(f, i), LowerCell(f, i))
    ensures LineCell(f, i) == if TrendCell(f, i) == Bullish then LowerCell(f, i) else UpperCell(f, i)
  {
    if Valid(f) {
      BarStep(f, i);
    }
    hide Upper;
    hide Lower;
    hide Direction;
    hide BasicUpper;
    hide BasicLower;
  }

  lemma CellStart(f: Frame)
    requires f.period >= 1
    ensures f.period <= |f.candles| ==>
              var k := f.period - 1;
              && UpperCell(f, k) == (if HasAtr(f, k) then Some(BasicUpper(f, k)) else None)
              && LowerCell(f, k) == (if HasAtr(f, k) then Some(BasicLower(f, k)) else None)
    ensures forall k :: 0 <= k < f.period && k < |f.candles| ==> TrendCell(f, k) == Bullish && LineCell(f, k) == None
  {
  }

  /** The basic bands as columns, undefined where there is no ATR. */
  method BasicBands(f: Frame) returns (upper: array<Option<real>>, lower: array<Option<real>>)
    requires f.period >= 1
    ensures fresh(upper) && fresh(lower) && upper != lower
    ensures upper.Length == lower.Length == |f.candles|
    ensures forall k :: 0 <= k < |f.candles| ==> upper[k] == if HasAtr(f, k) then Some(BasicUpper(f, k)) else None
    ensures forall k :: 0 <= k < |f.candles| ==> lower[k] == if HasAtr(f, k) then Some(BasicLower(f, k)) else None
  {
    hide BasicUpper;
    hide BasicLower;
    var n := |f.candles|;
    upper := new Option<real>[n](_ => None);
    lower := new Option<real>[n](_ => None);
    var i := f.period - 1;
    while i < n
      invariant f.period - 1 <= i && (i <= n || i == f.period - 1)
      invariant forall k :: 0 <= k < n ==> upper[k] == if HasAtr(f, k) && k < i then Some(BasicUpper(f, k)) else None
      invariant forall k :: 0 <= k < n ==> lower[k] == if HasAtr(f, k) && k < i then Some(BasicLower(f, k)) else None
    {
      if i >= 1 {
        upper[i] := Some(BasicUpper(f, i));
        lower[i] := Some(BasicLower(f, i));
      }
      i := i + 1;
    }
  }

  /** Overwrites the basic bands with the final ones bar by bar, and fills direction and line. With a period of 1 the
      undefined first band never goes away: the line stays undefined and the trend bullish. */
  method Compute(f: Frame) returns (line: array<Option<real>>, direction: array<Trend>)
    requires f.period >= 1
    ensures fresh(line) && fresh(direction)
    ensures line.Length == direction.Length == |f.candles|
    ensures forall i :: 0 <= i < |f.candles| ==>
              direction[i] == if f.period >= 2 then Direction(f, i) else Bullish
    ensures forall i :: 0 <= i < |f.candles| ==>
              line[i] == if f.period >= 2 && i >= f.period then Some(Line(f, i)) else None
  {
    hide BasicUpper;
    hide BasicLower;
    hide Upper;
    hide Lower;
    hide Line;
    hide Direction;
    var n := |f.candles|;
    var upper, lower := BasicBands(f);
    line := new Option<real>[n](_ => None);
    direction := new Trend[n](_ => Bullish);
    CellStart(f);
    var i := f.period;
    while i < n
      invariant f.period <= i && (i <= n || i == f.period)
      invariant f.period <= n ==> upper[i - 1] == UpperCell(f, i - 1) && lower[i - 1] == LowerCell(f, i - 1)
      invariant forall k :: i <= k < n ==> upper[k] == Some(BasicUpper(f, k)) && lower[k] == Some(BasicLower(f, k))
      invariant forall k :: 0 <= k < i && k < n ==> direction[k] == TrendCell(f, k)
      invariant forall k :: 0 <= k < n ==> line[k] == if k >= i then None else LineCell(f, k)
    {
      FillBar(f, i, upper, lower, line, direction);
      i := i + 1;
    }
  }

  /** The loop body: bands, direction and line of bar i, from the columns of bar i - 1. */
  method FillBar(f: Frame, i: nat, upper: array<Option<real>>, lower: array<Option<real>>,
                 line: array<Option<real>>, direction: array<Trend>)
    requires 1 <= f.period <= i < |f.candles|
    requires upper.Length == lower.Length == line.Length == direction.Length == |f.candles|
    requires upper != lower && upper != line && lower != line
    requires upper[i - 1] == UpperCell(f, i - 1) && lower[i - 1] == LowerCell(f, i - 1)
    requires upper[i] == Some(BasicUpper(f, i)) && lower[i] == Some(BasicLower(f, i))
    requires direction[i - 1] == TrendCell(f, i - 1)
    modifies upper, lower, line, direction
    ensures upper[..] == old(upper[..])[i := UpperCell(f, i)]
    ensures lower[..] == old(lower[..])[i := LowerCell(f, i)]
    ensures direction[..] == old(direction[..])[i := TrendCell(f, i)]
    ensures line[..] == old(line[..])[i := LineCell(f, i)]
  {
    hide BasicUpper;
    hide BasicLower;
    hide UpperCell;
    hide LowerCell;
    hide LineCell;
    hide TrendCell;
    CellStep(f, i);
    var close, prevClose := f.candles[i].close, f.candles[i - 1].close;
    upper[i] := NextUpper(upper[i], upper[i - 1], prevClose);
    lower[i] := NextLower(lower[i], lower[i - 1], prevClose);
    direction[i] := NextTrend(direction[i - 1], close, upper[i], lower[i]);
    line[i] := if direction[i] == Bullish then lower[i] else upper[i];
  }
}
