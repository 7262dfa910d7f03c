/** Python's `round(x, 2)` over exact reals: to the nearest 0.01, ties to the even cent. */
module Rounding {
  import opened Prelude

  function RoundHalfEven(y: real): int {
    var below := y.Floor;
    var excess := y - below as real;
    if excess < 0.5 then below
    else if excess > 0.5 then below + 1
    else if below % 2 == 0 then below
    else below + 1
  }

  function Round2(x: real): real {
    RoundHalfEven(x * 100.0) as real / 100.0
  }

  /** x is a whole number of cents. */
  predicate OnGrid(x: real) {
    (x * 100.0).Floor as real == x * 100.0
  }

  function Cents(x: real): int
    requires OnGrid(x)
  {
    (x * 100.0).Floor
  }

  lemma RoundNear(x: real)
    ensures OnGrid(Round2(x))
    ensures -0.005 <= Round2(x) - x <= 0.005
  {
  }

  lemma RoundGrid(x: real)
    requires OnGrid(x)
    ensures Round2(x) == x
  {
  }

  lemma HalfEvenNearest(y: real, k: int)
    ensures Abs(RoundHalfEven(y) as real - y) <= Abs(k as real - y)
    ensures Abs(RoundHalfEven(y) as real - y) == 0.5 ==> RoundHalfEven(y) % 2 == 0
  {
    var below := y.Floor;
    var excess := y - below as real;
    HalfEvenSteps(y);
    var r := RoundHalfEven(y);
    hide RoundHalfEven;
    if k <= below {
      assert k as real <= below as real;
    } else {
      assert k as real >= below as real + 1.0;
    }
  }

  lemma HalfEvenSteps(y: real)
    ensures var below, excess := y.Floor, y - y.Floor as real;
            && 0.0 <= excess < 1.0
            && (excess < 0.5 ==> RoundHalfEven(y) == below)
            && (excess > 0.5 ==> RoundHalfEven(y) == below + 1)
            && (excess == 0.5 ==> (RoundHalfEven(y) == below || RoundHalfEven(y) == below + 1) && RoundHalfEven(y) % 2 == 0)
  {
    var below := y.Floor;
    assert below % 2 == 0 || (below + 1) % 2 == 0;
  }

  lemma Hundredth(k: int, y: real, x: real)
    requires y == x * 100.0
    ensures Abs(k as real / 100.0 - x) == Abs(k as real - y) / 100.0
  {
  }

  /** No cent is nearer, and half way between two cents the even one is taken. */
  lemma RoundNearestEven(x: real, cents: int)
    ensures Abs(Round2(x) - x) <= Abs(cents as real / 100.0 - x)
    ensures Abs(Round2(x) - x) == 0.005 ==> exists k :: Round2(x) == (2 * k) as real / 100.0
  {
    var y := x * 100.0;
    var r := RoundHalfEven(y);
    HalfEvenNearest(y, cents);
    Hundredth(r, y, x);
    Hundredth(cents, y, x);
    hide RoundHalfEven;
    if Abs(Round2(x) - x) == 0.005 {
      assert r == 2 * (r / 2);
    }
  }

  lemma RoundMonotone(x: real, y: real)
    requires x <= y
    ensures Round2(x) <= Round2(y)
  {
    var a, b := x * 100.0, y * 100.0;
    assert a.Floor <= b.Floor;
    assert RoundHalfEven(a) <= RoundHalfEven(b);
  }

  lemma RoundOdd(x: real)
    ensures Round2(-x) == -Round2(x)
  {
    var y := x * 100.0;
    assert -x * 100.0 == -y;
    if y.Floor as real == y {
      assert (-y).Floor == -y.Floor;
    } else {
      assert (-y).Floor == -y.Floor - 1;
    }
    assert RoundHalfEven(-y) == -RoundHalfEven(y);
  }

  /** The grid is closed under the arithmetic of a profit calculation. */
  lemma GridProfit(x: real, y: real, qty: int)
    requires OnGrid(x) && OnGrid(y)
    ensures OnGrid((x - y) * qty as real)
  {
    var a, b := Cents(x), Cents(y);
    assert (x - y) * 100.0 == (a - b) as real;
    assert (x - y) * qty as real * 100.0 == (x - y) * 100.0 * qty as real;
    assert (x - y) * qty as real * 100.0 == ((a - b) * qty) as real;
  }
}
